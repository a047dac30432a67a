/** Whole runs of the frame logger: no line is lost, torn or written twice, parts stay within the rotation bound, the
    reference counts are exact, and a continuous session's parts spell its lines in order. */
module LogRuns {
  import opened Bytes
  import opened Sequences
  import opened PartNames
  import opened LogFiles
  import opened FrameLog

  /** States and the steps between them; devices that have sessions together do not collide. */
  ghost predicate LogRun(maxBytes: nat, ss: seq<State>, acts: seq<Action>) {
    && |ss| == |acts| + 1
    && Good(ss[0])
    && forall i :: 0 <= i < |acts| ==> MayOpen(ss[i], acts[i]) && Step(maxBytes, ss[i], acts[i], ss[i + 1])
  }

  lemma {:induction false} RunGood(maxBytes: nat, ss: seq<State>, acts: seq<Action>, i: nat)
    requires LogRun(maxBytes, ss, acts) && i <= |acts|
    ensures Good(ss[i])
  {
    if i > 0 {
      RunGood(maxBytes, ss, acts, i - 1);
      StepGood(maxBytes, ss[i - 1], acts[i - 1], ss[i]);
    }
  }

  lemma RunBefore(maxBytes: nat, ss: seq<State>, acts: seq<Action>)
    requires LogRun(maxBytes, ss, acts) && acts != []
    ensures LogRun(maxBytes, ss[..|acts|], acts[..|acts| - 1])
  {
    var rs, bs := ss[..|acts|], acts[..|acts| - 1];
    assert forall i :: 0 <= i < |bs| ==> bs[i] == acts[i];
    assert forall i :: 0 <= i < |rs| ==> rs[i] == ss[i];
  }

  lemma RunAfter(maxBytes: nat, ss: seq<State>, acts: seq<Action>, i: nat)
    requires LogRun(maxBytes, ss, acts) && i <= |acts|
    ensures LogRun(maxBytes, ss[i..], acts[i..])
  {
    RunGood(maxBytes, ss, acts, i);
    var rs, bs := ss[i..], acts[i..];
    assert forall k :: 0 <= k < |bs| ==> bs[k] == acts[i + k];
    assert forall k :: 0 <= k < |rs| ==> rs[k] == ss[i + k];
    forall k | 0 <= k < |bs| ensures MayOpen(rs[k], bs[k]) && Step(maxBytes, rs[k], bs[k], rs[k + 1]) {
      assert MayOpen(ss[i + k], acts[i + k]) && Step(maxBytes, ss[i + k], acts[i + k], ss[i + k + 1]);
    }
  }

  // ---- without failures every session has its files ----

  predicate FaultFree(a: Action) {
    !a.Close? ==> a.faults == NO_FAULTS
  }

  /** No operation of this device failed. */
  predicate FaultFreeFor(acts: seq<Action>, did: string) {
    forall i :: 0 <= i < |acts| && acts[i].did == did ==> FaultFree(acts[i])
  }

  predicate FilesOpen(s: State, did: string) {
    did in s.sessions ==> s.sessions[did].day.Some? && s.sessions[did].hex.Some? && s.sessions[did].txt.Some?
  }

  lemma StepFilesOpen(maxBytes: nat, s: State, a: Action, s': State, did: string)
    requires FilesOpen(s, did) && Step(maxBytes, s, a, s') && (a.did == did ==> FaultFree(a))
    ensures FilesOpen(s', did) && (a.Write? && a.did == did ==> a.to.Some?)
  {}

  lemma {:induction false} RunFilesOpen(maxBytes: nat, ss: seq<State>, acts: seq<Action>, i: nat, did: string)
    requires LogRun(maxBytes, ss, acts) && ss[0].sessions == map[] && i <= |acts| && FaultFreeFor(acts[..i], did)
    ensures FilesOpen(ss[i], did)
  {
    if i > 0 {
      assert forall k :: 0 <= k < i ==> acts[..i][k] == acts[k];
      RunFilesOpen(maxBytes, ss, acts, i - 1, did);
      StepFilesOpen(maxBytes, ss[i - 1], acts[i - 1], ss[i], did);
    }
  }

  /** No line is dropped: until an operation of the device fails, every write finds its file. */
  lemma EveryWriteLands(maxBytes: nat, ss: seq<State>, acts: seq<Action>, i: nat)
    requires LogRun(maxBytes, ss, acts) && ss[0].sessions == map[]
    requires i < |acts| && acts[i].Write? && FaultFreeFor(acts[..i + 1], acts[i].did)
    ensures acts[i].to.Some?
  {
    var did := acts[i].did;
    assert forall k :: 0 <= k <= i ==> acts[..i + 1][k] == acts[k];
    RunFilesOpen(maxBytes, ss, acts, i, did);
    StepFilesOpen(maxBytes, ss[i], acts[i], ss[i + 1], did);
  }

  // ---- one logged line ----

  lemma RollThenWrite(maxBytes: nat, s: State, roll: Action, mid: State, write: Action, s': State)
    requires Good(s) && roll.Roll? && write.Write? && roll.did == write.did
    requires Step(maxBytes, s, roll, mid) && Step(maxBytes, mid, write, s')
    ensures write.to.Some? ==>
              var f := write.to.value;
              && f.day == roll.today && f.did == roll.did && f.ext == write.ext && f.part >= 1
              && Landed(s.fs, s'.fs, PathOf(f), write.line, maxBytes)
    ensures write.to.None? ==> Untouched(s.fs, s'.fs)
  {
    StepGood(maxBytes, s, roll, mid);
    assert SessionOk(mid.fs, roll.did, mid.sessions[roll.did]);
    if write.to.Some? {
      LandedLater(s.fs, mid.fs, s'.fs, PathOf(write.to.value), write.line, maxBytes);
    }
  }

  /** A line logged at any point of any run, as a rollover and a write, lands whole in exactly one part of today's
      files, which was not full, or changes no content at all; and the latter only if an operation of this device
      failed. */
  lemma LogLands(maxBytes: nat, ss: seq<State>, acts: seq<Action>, i: nat)
    requires LogRun(maxBytes, ss, acts) && ss[0].sessions == map[]
    requires i + 1 < |acts| && acts[i].Roll? && acts[i + 1].Write? && acts[i].did == acts[i + 1].did
    ensures acts[i + 1].to.Some? ==>
              var f := acts[i + 1].to.value;
              && f.day == acts[i].today && f.did == acts[i].did && f.ext == acts[i + 1].ext && f.part >= 1
              && Landed(ss[i].fs, ss[i + 2].fs, PathOf(f), acts[i + 1].line, maxBytes)
    ensures acts[i + 1].to.None? ==> Untouched(ss[i].fs, ss[i + 2].fs) && !FaultFreeFor(acts[..i + 2], acts[i].did)
  {
    RunGood(maxBytes, ss, acts, i);
    RollThenWrite(maxBytes, ss[i], acts[i], ss[i + 1], acts[i + 1], ss[i + 2]);
    if FaultFreeFor(acts[..i + 2], acts[i].did) { EveryWriteLands(maxBytes, ss, acts, i + 1); }
  }

  lemma LandedLater(a: Files, b: Files, c: Files, p: Path, line: Data, maxBytes: nat)
    requires Untouched(a, b) && Landed(b, c, p, line, maxBytes)
    ensures Landed(a, c, p, line, maxBytes)
  {}

  // ---- no line lost, torn or written twice ----

  function LogLineOf(a: Action): seq<LogLine> {
    if a.Write? && a.to.Some? then [LogLine(PathOf(a.to.value), a.line)] else []
  }

  /** The lines written in a run, in order, each with its file. */
  function LogOf(acts: seq<Action>): seq<LogLine> {
    if acts == [] then [] else LogOf(acts[..|acts| - 1]) + LogLineOf(acts[|acts| - 1])
  }

  /** Every file holds what it held at the start followed by exactly the lines written to it, in order, and no line
      went to a file that was full. */
  lemma {:induction false} RunRecorded(maxBytes: nat, ss: seq<State>, acts: seq<Action>)
    requires LogRun(maxBytes, ss, acts)
    ensures Recorded(ss[0].fs, LogOf(acts), ss[|acts|].fs, maxBytes)
  {
    if acts != [] {
      var n := |acts| - 1;
      RunBefore(maxBytes, ss, acts);
      RunRecorded(maxBytes, ss[..n + 1], acts[..n]);
      StepRecorded(maxBytes, ss[0].fs, LogOf(acts[..n]), ss[n], acts[n], ss[n + 1]);
    }
  }

  lemma StepRecorded(maxBytes: nat, start: Files, log: seq<LogLine>, s: State, a: Action, s': State)
    requires Step(maxBytes, s, a, s') && Recorded(start, log, s.fs, maxBytes)
    ensures Recorded(start, log + LogLineOf(a), s'.fs, maxBytes)
  {
    if a.Write? && a.to.Some? {
      RecordedAppend(start, log, s.fs, s'.fs, PathOf(a.to.value), a.line, maxBytes);
    } else {
      assert log + LogLineOf(a) == log;
      RecordedUntouched(start, log, s.fs, s'.fs, maxBytes);
    }
  }

  /** The rotation bound at the end of any run: a part that was written to is shorter than the limit plus the last
      line written to it. */
  lemma RunRotationBound(maxBytes: nat, ss: seq<State>, acts: seq<Action>, k: nat)
    requires LogRun(maxBytes, ss, acts) && k < |LogOf(acts)|
    requires forall i :: k < i < |LogOf(acts)| ==> LogOf(acts)[i].path != LogOf(acts)[k].path
    ensures |Content(ss[|acts|].fs, LogOf(acts)[k].path)| < maxBytes + |LogOf(acts)[k].line|
  {
    RunRecorded(maxBytes, ss, acts);
    RotationBound(ss[0].fs, LogOf(acts), k, maxBytes);
    assert After(ss[0].fs, LogOf(acts), LogOf(acts)[k].path) == Content(ss[|acts|].fs, LogOf(acts)[k].path);
  }

  // ---- reference counts ----

  /** Who holds sessions: an open that succeeds adds a holder, a close takes one away if there is one. */
  function Holders(acts: seq<Action>): multiset<string> {
    if acts == [] then multiset{}
    else
      var before, a := Holders(acts[..|acts| - 1]), acts[|acts| - 1];
      match a
      case Open(did, _, _, ok) => if ok then before + multiset{did} else before
      case Close(did) => before - multiset{did}
      case Roll(_, _, _) => before
      case Write(_, _, _, _, _) => before
  }

  function Refs(s: State, did: string): int {
    if did in s.sessions then s.sessions[did].refs else 0
  }

  lemma StepRefs(maxBytes: nat, s: State, a: Action, s': State, did: string)
    requires Good(s) && Step(maxBytes, s, a, s')
    ensures Refs(s', did) == Refs(s, did)
              + (if a.Open? && a.ok && a.did == did then 1 else 0)
              - (if a.Close? && a.did == did && did in s.sessions then 1 else 0)
    ensures Refs(s, did) >= 0 && (Refs(s, did) > 0 <==> did in s.sessions)
  {
    assert did in s.sessions ==> SessionOk(s.fs, did, s.sessions[did]);
    assert a.did in s.sessions ==> SessionOk(s.fs, a.did, s.sessions[a.did]);
  }

  /** A device has a session exactly while it has holders, and the count is their number. */
  lemma {:induction false} RefsExact(maxBytes: nat, ss: seq<State>, acts: seq<Action>, did: string)
    requires LogRun(maxBytes, ss, acts) && ss[0].sessions == map[]
    ensures Holders(acts)[did] == Refs(ss[|acts|], did)
    ensures did in Holders(acts) <==> did in ss[|acts|].sessions
  {
    RunGood(maxBytes, ss, acts, |acts|);
    assert did in ss[|acts|].sessions ==> SessionOk(ss[|acts|].fs, did, ss[|acts|].sessions[did]);
    if acts != [] {
      var n := |acts| - 1;
      RunBefore(maxBytes, ss, acts);
      RefsExact(maxBytes, ss[..n + 1], acts[..n], did);
      RunGood(maxBytes, ss, acts, n);
      StepRefs(maxBytes, ss[n], acts[n], ss[n + 1], did);
    }
  }

  function Opens(acts: seq<Action>, did: string): nat {
    if acts == [] then 0
    else
      var a := acts[|acts| - 1];
      Opens(acts[..|acts| - 1], did) + if a.Open? && a.ok && a.did == did then 1 else 0
  }

  function Closes(acts: seq<Action>, did: string): nat {
    if acts == [] then 0
    else
      var a := acts[|acts| - 1];
      Closes(acts[..|acts| - 1], did) + if a.Close? && a.did == did then 1 else 0
  }

  /** No close ran ahead of the opens. */
  ghost predicate Balanced(acts: seq<Action>, did: string) {
    forall k :: 0 <= k <= |acts| ==> Closes(acts[..k], did) <= Opens(acts[..k], did)
  }

  lemma BalancedBefore(acts: seq<Action>, did: string)
    requires acts != []
    ensures Balanced(acts, did) <==> Balanced(acts[..|acts| - 1], did) && Closes(acts, did) <= Opens(acts, did)
  {
    var front := acts[..|acts| - 1];
    assert forall k :: 0 <= k <= |front| ==> front[..k] == acts[..k];
    assert acts[..|acts|] == acts;
  }

  /** The count is the number of opens minus the number of closes exactly when no close ran ahead; otherwise it is too
      high for ever. */
  lemma {:induction false} RefsBalanced(maxBytes: nat, ss: seq<State>, acts: seq<Action>, did: string)
    requires LogRun(maxBytes, ss, acts) && ss[0].sessions == map[]
    ensures Refs(ss[|acts|], did) == Opens(acts, did) - Closes(acts, did) <==> Balanced(acts, did)
    ensures Refs(ss[|acts|], did) >= Opens(acts, did) - Closes(acts, did)
  {
    if acts != [] {
      var n := |acts| - 1;
      RunBefore(maxBytes, ss, acts);
      RefsBalanced(maxBytes, ss[..n + 1], acts[..n], did);
      RunGood(maxBytes, ss, acts, n);
      StepRefs(maxBytes, ss[n], acts[n], ss[n + 1], did);
      BalancedBefore(acts, did);
    } else {
      assert Balanced(acts, did);
    }
  }

  /** Who holds the session of a device, by their own account: `callers[i]` made call `i`. */
  function HeldBy(acts: seq<Action>, callers: seq<nat>, did: string): multiset<nat>
    requires |acts| == |callers|
  {
    if acts == [] then multiset{}
    else
      var n := |acts| - 1;
      var before, a := HeldBy(acts[..n], callers[..n], did), acts[n];
      if a.Open? && a.ok && a.did == did then before + multiset{callers[n]}
      else if a.Close? && a.did == did then before - multiset{callers[n]}
      else before
  }

  /** A close of `did` by someone who holds it, or when nobody does. */
  predicate FairClose(acts: seq<Action>, callers: seq<nat>, did: string, i: nat)
    requires |acts| == |callers| && i < |acts|
  {
    var held := HeldBy(acts[..i], callers[..i], did);
    acts[i].Close? && acts[i].did == did ==> callers[i] in held || held == multiset{}
  }

  /** Nobody closes a session that only others hold. */
  ghost predicate FairCloses(acts: seq<Action>, callers: seq<nat>, did: string)
    requires |acts| == |callers|
  {
    forall i :: 0 <= i < |acts| ==> FairClose(acts, callers, did, i)
  }

  /** After `k` steps the count is the number of holders. */
  predicate CountHolds(ss: seq<State>, acts: seq<Action>, callers: seq<nat>, did: string, k: nat)
    requires |ss| == |acts| + 1 && k <= |acts| == |callers|
  {
    Refs(ss[k], did) == |HeldBy(acts[..k], callers[..k], did)|
  }

  /** At every moment of the run the count is the number of holders. */
  ghost predicate CountsHolders(ss: seq<State>, acts: seq<Action>, callers: seq<nat>, did: string)
    requires |ss| == |acts| + 1 && |acts| == |callers|
  {
    forall k :: 0 <= k <= |acts| ==> CountHolds(ss, acts, callers, did, k)
  }

  lemma HolderStep(held: multiset<nat>, p: nat)
    ensures |held - multiset{p}| == if p in held then |held| - 1 else |held|
    ensures |held + multiset{p}| == |held| + 1
    ensures held == multiset{} <==> |held| == 0
  {
    if p in held { assert held == held - multiset{p} + multiset{p}; } else { assert held - multiset{p} == held; }
  }

  /** How a step moves the count. */
  predicate RefsMove(ss: seq<State>, acts: seq<Action>, did: string, n: nat)
    requires n < |acts| && |ss| == |acts| + 1
  {
    var a, refs := acts[n], Refs(ss[n], did);
    refs >= 0 && Refs(ss[n + 1], did) ==
                 if a.Open? && a.ok && a.did == did then refs + 1
                 else if a.Close? && a.did == did && refs > 0 then refs - 1
                 else refs
  }

  lemma RunRefs(maxBytes: nat, ss: seq<State>, acts: seq<Action>, did: string, n: nat)
    requires LogRun(maxBytes, ss, acts) && n < |acts|
    ensures RefsMove(ss, acts, did, n)
  {
    RunGood(maxBytes, ss, acts, n);
    StepRefs(maxBytes, ss[n], acts[n], ss[n + 1], did);
  }

  lemma HeldStep(acts: seq<Action>, callers: seq<nat>, did: string, n: nat)
    requires 0 < n <= |acts| == |callers|
    ensures var held, a := HeldBy(acts[..n - 1], callers[..n - 1], did), acts[n - 1];
            HeldBy(acts[..n], callers[..n], did) ==
            if a.Open? && a.ok && a.did == did then held + multiset{callers[n - 1]}
            else if a.Close? && a.did == did then held - multiset{callers[n - 1]}
            else held
  {
    assert acts[..n][..n - 1] == acts[..n - 1] && callers[..n][..n - 1] == callers[..n - 1];
  }

  /** A step keeps the count right exactly when it is not an unfair close. */
  lemma StepHolders(ss: seq<State>, acts: seq<Action>, callers: seq<nat>, did: string, n: nat)
    requires n < |acts| == |callers| && |ss| == |acts| + 1
    requires RefsMove(ss, acts, did, n) && CountHolds(ss, acts, callers, did, n)
    ensures CountHolds(ss, acts, callers, did, n + 1) <==> FairClose(acts, callers, did, n)
  {
    HeldStep(acts, callers, did, n + 1);
    HolderStep(HeldBy(acts[..n], callers[..n], did), callers[n]);
  }

  /** `holds` starts true and stays so over exactly the good steps. */
  ghost predicate Rungs(holds: seq<bool>, good: seq<bool>) {
    && |holds| == |good| + 1 && holds[0]
    && forall n :: 0 <= n < |good| ==> (holds[n] ==> holds[n + 1] == good[n])
  }

  lemma {:induction false} Climb(holds: seq<bool>, good: seq<bool>, k: nat)
    requires Rungs(holds, good) && k < |holds| && forall i :: 0 <= i < |good| ==> good[i]
    ensures holds[k]
  {
    if k > 0 {
      Climb(holds, good, k - 1);
      assert good[k - 1] && (holds[k - 1] ==> holds[k - 1 + 1] == good[k - 1]);
    }
  }

  /** What holds first and is kept exactly by the good steps holds throughout exactly when all steps are good. */
  lemma Ladder(holds: seq<bool>, good: seq<bool>)
    requires Rungs(holds, good)
    ensures (forall k :: 0 <= k < |holds| ==> holds[k]) <==> (forall i :: 0 <= i < |good| ==> good[i])
  {
    if forall i :: 0 <= i < |good| ==> good[i] {
      forall k | 0 <= k < |holds| ensures holds[k] { Climb(holds, good, k); }
    }
    if forall k :: 0 <= k < |holds| ==> holds[k] {
      forall i | 0 <= i < |good| ensures good[i] {
        assert holds[i] && holds[i + 1] && (holds[i] ==> holds[i + 1] == good[i]);
      }
    }
  }

  /** The reference count of a device is the number of its holders throughout a run exactly when every close of it came
      from a holder or found nobody holding. What other devices do does not matter. */
  lemma HoldersExactly(maxBytes: nat, ss: seq<State>, acts: seq<Action>, callers: seq<nat>, did: string)
    requires LogRun(maxBytes, ss, acts) && ss[0].sessions == map[] && |acts| == |callers|
    ensures CountsHolders(ss, acts, callers, did) <==> FairCloses(acts, callers, did)
  {
    var holds := seq(|acts| + 1, k requires 0 <= k <= |acts| => CountHolds(ss, acts, callers, did, k));
    var good := seq(|acts|, i requires 0 <= i < |acts| => FairClose(acts, callers, did, i));
    assert CountHolds(ss, acts, callers, did, 0);
    forall n | 0 <= n < |good| ensures holds[n] ==> holds[n + 1] == good[n] {
      RunRefs(maxBytes, ss, acts, did, n);
      if holds[n] { StepHolders(ss, acts, callers, did, n); }
    }
    Ladder(holds, good);
    HoldsAll(ss, acts, callers, did, holds, good);
  }

  lemma HoldsAll(ss: seq<State>, acts: seq<Action>, callers: seq<nat>, did: string, holds: seq<bool>, good: seq<bool>)
    requires |ss| == |acts| + 1 == |holds| && |acts| == |callers| == |good|
    requires forall k :: 0 <= k < |holds| ==> holds[k] == CountHolds(ss, acts, callers, did, k)
    requires forall i :: 0 <= i < |good| ==> good[i] == FairClose(acts, callers, did, i)
    ensures CountsHolders(ss, acts, callers, did) <==> forall k :: 0 <= k < |holds| ==> holds[k]
    ensures FairCloses(acts, callers, did) <==> forall i :: 0 <= i < |good| ==> good[i]
  {
    if CountsHolders(ss, acts, callers, did) {
      forall k | 0 <= k < |holds| ensures holds[k] { assert CountHolds(ss, acts, callers, did, k); }
    }
    if FairCloses(acts, callers, did) {
      forall i | 0 <= i < |good| ensures good[i] { assert FairClose(acts, callers, did, i); }
    }
  }

  /** So with such closes whoever holds a session has one, at every moment. */
  lemma HoldersHaveSession(maxBytes: nat, ss: seq<State>, acts: seq<Action>, callers: seq<nat>, did: string, k: nat,
                           p: nat)
    requires LogRun(maxBytes, ss, acts) && ss[0].sessions == map[] && |acts| == |callers|
    requires FairCloses(acts, callers, did) && k <= |acts| && p in HeldBy(acts[..k], callers[..k], did)
    ensures did in ss[k].sessions
  {
    HoldersExactly(maxBytes, ss, acts, callers, did);
    HolderStep(HeldBy(acts[..k], callers[..k], did), p);
    assert CountHolds(ss, acts, callers, did, k);
  }

  // ---- lines in order ----

  predicate HasFile(s: State, did: string, ext: Ext, day: int) {
    did in s.sessions && FileOf(s.sessions[did], ext).Some? && FileOf(s.sessions[did], ext).value.day == day
  }

  function OpenFile(s: State, did: string, ext: Ext, day: int): LogFile
    requires HasFile(s, did, ext, day)
  {
    FileOf(s.sessions[did], ext).value
  }

  function LineOf(a: Action, did: string, ext: Ext): Data {
    if a.Write? && a.did == did && a.ext == ext && a.to.Some? then a.line else []
  }

  /** The lines of one device and extension written by these steps, joined. */
  function Lines(acts: seq<Action>, did: string, ext: Ext): Data {
    if acts == [] then [] else Lines(acts[..|acts| - 1], did, ext) + LineOf(acts[|acts| - 1], did, ext)
  }

  lemma OthersSpell(maxBytes: nat, s: State, a: Action, s': State, did: string, f: LogFile)
    requires Good(s) && MayOpen(s, a) && Step(maxBytes, s, a, s') && did in s.sessions && f.did == did && a.did != did
    ensures forall text :: Spells(s.fs, f, text) ==> Spells(s'.fs, f, text)
    ensures f.part >= 1 && NoLater(s.fs, f) ==> NoLater(s'.fs, f)
  {
    assert a.did in s.sessions ==> s.sessions.Keys + {a.did} == s.sessions.Keys;
    if s'.fs != s.fs {
      if a.Write? {
        WroteOnly(s.fs, s'.fs, FileOf(s.sessions[a.did], a.ext).value, a.to.value, a.line, maxBytes);
        OnlyPartsKeeps(s.fs, s'.fs, a.did, a.ext, f);
      } else {
        CreatedKeeps(s.fs, s'.fs, a.did, f);
      }
      KeptFile(s.fs, s'.fs, f);
    }
  }

  lemma OwnSpells(maxBytes: nat, s: State, a: Action, s': State, ext: Ext, f: LogFile, text: Data)
    requires Good(s) && a.Write? && WriteStep(maxBytes, s, a, s') && FileOf(s.sessions[a.did], ext) == Some(f)
    requires FileOf(s'.sessions[a.did], ext).Some? && Spells(s.fs, f, text)
    ensures Spells(s'.fs, FileOf(s'.sessions[a.did], ext).value, text + LineOf(a, a.did, ext))
    ensures NoLater(s.fs, f) ==> NoLater(s'.fs, FileOf(s'.sessions[a.did], ext).value)
  {
    assert SessionOk(s.fs, a.did, s.sessions[a.did]);
    if a.ext == ext {
      var g := a.to.value;
      assert g.part > f.part + 1 ==> Full(s.fs, PartPath(f.day, f.did, f.ext, f.part + 1), maxBytes);
      SpellsAppend(s.fs, s'.fs, f, g, a.line, text, maxBytes);
      if NoLater(s.fs, f) { StillNoLater(s.fs, s'.fs, f, g); }
    } else {
      assert text + [] == text;
      if a.to.Some? {
        WroteOnly(s.fs, s'.fs, FileOf(s.sessions[a.did], a.ext).value, a.to.value, a.line, maxBytes);
        OnlyPartsKeeps(s.fs, s'.fs, a.did, a.ext, f);
        KeptFile(s.fs, s'.fs, f);
      }
    }
  }

  lemma StepSpells(maxBytes: nat, s: State, a: Action, s': State, did: string, ext: Ext, day: int, text: Data)
    requires Good(s) && MayOpen(s, a) && Step(maxBytes, s, a, s')
    requires HasFile(s, did, ext, day) && HasFile(s', did, ext, day)
    requires Spells(s.fs, OpenFile(s, did, ext, day), text)
    ensures Spells(s'.fs, OpenFile(s', did, ext, day), text + LineOf(a, did, ext))
    ensures NoLater(s.fs, OpenFile(s, did, ext, day)) ==> NoLater(s'.fs, OpenFile(s', did, ext, day))
  {
    assert SessionOk(s.fs, did, s.sessions[did]);
    var f := OpenFile(s, did, ext, day);
    if a.did == did && a.Write? {
      OwnSpells(maxBytes, s, a, s', ext, f, text);
    } else {
      assert text + LineOf(a, did, ext) == text;
      if a.did != did { OthersSpell(maxBytes, s, a, s', did, f); }
    }
  }

  /** While a file of a session stays open on one day, whatever else happens, its parts spell what they spelled before
      followed by the lines written to it, in order. */
  lemma {:induction false} LinesInOrder(maxBytes: nat, ss: seq<State>, acts: seq<Action>, did: string, ext: Ext,
                                        day: int, text: Data)
    requires LogRun(maxBytes, ss, acts)
    requires forall k :: 0 <= k < |ss| ==> HasFile(ss[k], did, ext, day)
    requires Spells(ss[0].fs, OpenFile(ss[0], did, ext, day), text)
    ensures Spells(ss[|acts|].fs, OpenFile(ss[|acts|], did, ext, day), text + Lines(acts, did, ext))
    ensures NoLater(ss[0].fs, OpenFile(ss[0], did, ext, day)) ==>
            NoLater(ss[|acts|].fs, OpenFile(ss[|acts|], did, ext, day))
  {
    if acts == [] {
      assert text + [] == text;
    } else {
      var n := |acts| - 1;
      RunBefore(maxBytes, ss, acts);
      LinesInOrder(maxBytes, ss[..n + 1], acts[..n], did, ext, day, text);
      RunGood(maxBytes, ss, acts, n);
      StepSpells(maxBytes, ss[n], acts[n], ss[n + 1], did, ext, day, text + Lines(acts[..n], did, ext));
      Regroup(text, Lines(acts[..n], did, ext), LineOf(acts[n], did, ext));
    }
  }

  ghost predicate NoParts(fs: Files, day: int, did: string, ext: Ext) {
    forall s :: s >= 1 ==> PartPath(day, did, ext, s) !in fs
  }

  lemma {:induction false} JoinedNothing(fs: Files, ps: seq<Path>)
    requires forall p :: p in ps ==> p !in fs
    ensures Joined(fs, ps) == []
  {
    if ps != [] { JoinedNothing(fs, ps[..|ps| - 1]); }
  }

  /** A file opened in a day folder that has no part of its log. */
  lemma FreshFile(a: Files, b: Files, f: LogFile, maxBytes: nat)
    requires Opened(a, b, f, f.day, f.did, f.ext, maxBytes) && NoParts(a, f.day, f.did, f.ext)
    ensures Spells(b, f, []) && NoLater(b, f)
  {
    NothingThere(a, f);
    NothingJoined(a, f);
  }

  lemma NothingJoined(fs: Files, f: LogFile)
    requires NoParts(fs, f.day, f.did, f.ext)
    ensures Joined(fs, PartsOf(f)) == []
  {
    var ps := PartsOf(f);
    PartsAre(f.day, f.did, f.ext, f.part);
    forall i | 0 <= i < |ps| ensures ps[i] !in fs { assert ps[i] == PartPath(f.day, f.did, f.ext, i + 1); }
    JoinedNothing(fs, ps);
  }

  lemma NothingThere(fs: Files, f: LogFile)
    requires NoParts(fs, f.day, f.did, f.ext)
    ensures NoLater(fs, f) && EmptyLater(fs, f)
  {
    forall s | s > f.part ensures PartPath(f.day, f.did, f.ext, s) !in fs { assert s >= 1; }
  }

  /** The session is open on `day`, with both files. */
  predicate OnDay(s: State, did: string, day: int) {
    FilesOpen(s, did) && did in s.sessions && s.sessions[did].day == Some(day)
  }

  lemma StepOnDay(maxBytes: nat, s: State, a: Action, s': State, did: string, day: int)
    requires OnDay(s, did, day) && Step(maxBytes, s, a, s') && did in s'.sessions
    requires a.did == did ==> FaultFree(a) && (a.Roll? ==> a.today == day)
    ensures OnDay(s', did, day)
  {}

  /** Every roll of the device was on `day`. */
  predicate RollsOn(acts: seq<Action>, did: string, day: int) {
    forall k :: 0 <= k < |acts| && acts[k].Roll? && acts[k].did == did ==> acts[k].today == day
  }

  lemma {:induction false} StaysOnDay(maxBytes: nat, ss: seq<State>, acts: seq<Action>, did: string, day: int, k: nat)
    requires LogRun(maxBytes, ss, acts) && OnDay(ss[0], did, day) && k <= |acts|
    requires FaultFreeFor(acts, did) && RollsOn(acts, did, day)
    requires forall i :: 0 <= i <= |acts| ==> did in ss[i].sessions
    ensures OnDay(ss[k], did, day)
  {
    if k > 0 {
      StaysOnDay(maxBytes, ss, acts, did, day, k - 1);
      StepOnDay(maxBytes, ss[k - 1], acts[k - 1], ss[k], did, day);
    }
  }

  lemma OnDayHasFile(s: State, did: string, ext: Ext, day: int)
    requires Good(s) && OnDay(s, did, day)
    ensures HasFile(s, did, ext, day) && FileOk(s.fs, OpenFile(s, did, ext, day))
    ensures var f := OpenFile(s, did, ext, day); f.did == did && f.ext == ext
  {
    assert SessionOk(s.fs, did, s.sessions[did]);
  }

  /** Step `i` opens the files of the device: an open without earlier holders, or a rollover. */
  predicate Begins(acts: seq<Action>, i: nat, did: string, day: int)
    requires i < |acts|
  {
    && acts[i].did == did && (acts[i].Open? || acts[i].Roll?) && acts[i].today == day
    && (acts[i].Open? ==> did !in Holders(acts[..i]))
  }

  lemma BeginsOnDay(maxBytes: nat, s: State, a: Action, s': State, did: string, ext: Ext, day: int)
    requires Good(s) && FilesOpen(s, did) && Step(maxBytes, s, a, s') && FaultFree(a)
    requires a.did == did && (a.Open? || a.Roll?) && a.today == day && (a.Open? ==> did !in s.sessions)
    requires NoParts(s.fs, day, did, ext)
    ensures OnDay(s', did, day) && Opened(s.fs, s'.fs, FileOf(s'.sessions[did], ext).value, day, did, ext, maxBytes)
  {
    if a.Roll? && s.sessions[did].day == Some(day) {
      OnDayHasFile(s, did, ext, day);
    }
  }

  /** Every line of the device and extension logged by these steps, joined. */
  function Logged(acts: seq<Action>, did: string, ext: Ext): Data {
    if acts == [] then []
    else
      var a := acts[|acts| - 1];
      Logged(acts[..|acts| - 1], did, ext) + if a.Write? && a.did == did && a.ext == ext then a.line else []
  }

  lemma {:induction false} LoggedIsWritten(acts: seq<Action>, did: string, ext: Ext)
    requires forall i :: 0 <= i < |acts| && acts[i].Write? && acts[i].did == did ==> acts[i].to.Some?
    ensures Lines(acts, did, ext) == Logged(acts, did, ext)
  {
    if acts != [] { LoggedIsWritten(acts[..|acts| - 1], did, ext); }
  }

  lemma HolderHasSession(maxBytes: nat, ss: seq<State>, acts: seq<Action>, did: string, k: nat)
    requires LogRun(maxBytes, ss, acts) && ss[0].sessions == map[] && k <= |acts|
    ensures did in Holders(acts[..k]) <==> did in ss[k].sessions
    decreases |acts|
  {
    if k < |acts| {
      RunBefore(maxBytes, ss, acts);
      HolderHasSession(maxBytes, ss[..|acts|], acts[..|acts| - 1], did, k);
      assert acts[..|acts| - 1][..k] == acts[..k];
    } else {
      assert acts[..k] == acts;
      RefsExact(maxBytes, ss, acts, did);
    }
  }

  /** A continuous session: begun by step `i` in a day folder without earlier parts and held since, with no rollover to
      another day and no failing operation of the device. Whatever other devices did, its parts in order are exactly all
      the lines logged for it, in the order they were logged. */
  lemma ContinuousSession(maxBytes: nat, ss: seq<State>, acts: seq<Action>, i: nat, did: string, ext: Ext, day: int)
    requires LogRun(maxBytes, ss, acts) && ss[0].sessions == map[] && FaultFreeFor(acts, did)
    requires i < |acts| && Begins(acts, i, did, day) && NoParts(ss[i].fs, day, did, ext)
    requires forall k :: i < k <= |acts| ==> did in Holders(acts[..k])
    requires RollsOn(acts[i + 1..], did, day)
    ensures HasFile(ss[|acts|], did, ext, day)
    ensures var f := OpenFile(ss[|acts|], did, ext, day);
            Joined(ss[|acts|].fs, PartsOf(f)) == Logged(acts[i + 1..], did, ext) && NoLater(ss[|acts|].fs, f)
  {
    var rs, bs := ss[i + 1..], acts[i + 1..];
    BeginOk(maxBytes, ss, acts, i, did, ext, day);
    RunAfter(maxBytes, ss, acts, i + 1);
    HeldThroughout(maxBytes, ss, acts, i + 1, did);
    FileThroughout(maxBytes, rs, bs, did, ext, day);
    LinesInOrder(maxBytes, rs, bs, did, ext, day, []);
    assert [] + Lines(bs, did, ext) == Lines(bs, did, ext);
    AllWritten(maxBytes, ss, acts, i + 1, did);
    LoggedIsWritten(bs, did, ext);
    assert rs[|bs|] == ss[|acts|];
  }

  lemma HeldThroughout(maxBytes: nat, ss: seq<State>, acts: seq<Action>, i: nat, did: string)
    requires LogRun(maxBytes, ss, acts) && ss[0].sessions == map[] && i <= |acts|
    requires forall k :: i <= k <= |acts| ==> did in Holders(acts[..k])
    ensures forall k :: 0 <= k < |ss[i..]| ==> did in ss[i..][k].sessions
  {
    forall k | 0 <= k < |ss[i..]| ensures did in ss[i..][k].sessions {
      HolderHasSession(maxBytes, ss, acts, did, i + k);
    }
  }

  lemma FileThroughout(maxBytes: nat, ss: seq<State>, acts: seq<Action>, did: string, ext: Ext, day: int)
    requires LogRun(maxBytes, ss, acts) && OnDay(ss[0], did, day)
    requires FaultFreeFor(acts, did) && RollsOn(acts, did, day)
    requires forall i :: 0 <= i < |ss| ==> did in ss[i].sessions
    ensures forall k :: 0 <= k < |ss| ==> HasFile(ss[k], did, ext, day)
  {
    forall k | 0 <= k < |ss| ensures HasFile(ss[k], did, ext, day) {
      StaysOnDay(maxBytes, ss, acts, did, day, k);
      RunGood(maxBytes, ss, acts, k);
      OnDayHasFile(ss[k], did, ext, day);
    }
  }

  lemma BeginOk(maxBytes: nat, ss: seq<State>, acts: seq<Action>, i: nat, did: string, ext: Ext, day: int)
    requires LogRun(maxBytes, ss, acts) && ss[0].sessions == map[] && FaultFreeFor(acts, did)
    requires i < |acts| && Begins(acts, i, did, day) && NoParts(ss[i].fs, day, did, ext)
    ensures OnDay(ss[i + 1], did, day) && HasFile(ss[i + 1], did, ext, day)
    ensures Spells(ss[i + 1].fs, OpenFile(ss[i + 1], did, ext, day), [])
    ensures NoLater(ss[i + 1].fs, OpenFile(ss[i + 1], did, ext, day))
  {
    RunGood(maxBytes, ss, acts, i);
    RunGood(maxBytes, ss, acts, i + 1);
    RunFilesOpen(maxBytes, ss, acts, i, did);
    HolderHasSession(maxBytes, ss, acts, did, i);
    BeginsOnDay(maxBytes, ss[i], acts[i], ss[i + 1], did, ext, day);
    OnDayHasFile(ss[i + 1], did, ext, day);
    FreshFile(ss[i].fs, ss[i + 1].fs, OpenFile(ss[i + 1], did, ext, day), maxBytes);
  }

  lemma AllWritten(maxBytes: nat, ss: seq<State>, acts: seq<Action>, i: nat, did: string)
    requires LogRun(maxBytes, ss, acts) && ss[0].sessions == map[] && i <= |acts| && FaultFreeFor(acts, did)
    ensures forall k :: 0 <= k < |acts[i..]| && acts[i..][k].Write? && acts[i..][k].did == did ==> acts[i..][k].to.Some?
  {
    forall k | i <= k < |acts| && acts[k].Write? && acts[k].did == did ensures acts[k].to.Some? {
      EveryWriteLands(maxBytes, ss, acts, k);
    }
  }
}
