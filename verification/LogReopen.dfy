/** Sessions that are opened again (internal/tcp/framelog.go): when their lines keep their order, and a run in which
    they do not. */
module LogReopen {
  import opened Bytes
  import opened Sequences
  import opened PartNames
  import opened LogFiles
  import opened FrameLog
  import opened LogRuns

  // ---- exactly when a newly opened file keeps the order ----

  /** The parts from the one after `f` up to part `n`. */
  function Later(f: LogFile, n: nat): seq<Path>
    requires f.part <= n
  {
    Parts(f.day, f.did, f.ext, n)[f.part..]
  }

  /** These parts hold nothing. */
  ghost predicate NothingLater(fs: Files, f: LogFile, n: nat) {
    forall k :: f.part < k <= n ==> Content(fs, PartPath(f.day, f.did, f.ext, k)) == []
  }

  lemma {:induction false} PartsPrefix(day: int, did: string, ext: Ext, m: nat, n: nat)
    requires m <= n
    ensures Parts(day, did, ext, n)[..m] == Parts(day, did, ext, m)
  {
    if m < n {
      PartsPrefix(day, did, ext, m, n - 1);
      assert Parts(day, did, ext, n)[..m] == Parts(day, did, ext, n - 1)[..m];
    }
  }

  /** Parts 1 to n around the open one. */
  lemma PartsAround(f: LogFile, n: nat)
    requires 1 <= f.part <= n
    ensures var before := Parts(f.day, f.did, f.ext, f.part - 1);
            && Parts(f.day, f.did, f.ext, n) == before + [PathOf(f)] + Later(f, n)
            && PathOf(f) !in before && PathOf(f) !in Later(f, n)
  {
    PartsUpTo(f, n);
    Assemble(Parts(f.day, f.did, f.ext, n), f.part, Parts(f.day, f.did, f.ext, f.part - 1), PathOf(f));
    PartNotBefore(f.day, f.did, f.ext, f.part - 1, f.part);
    NotLater(f, n);
  }

  lemma NotLater(f: LogFile, n: nat)
    requires 1 <= f.part <= n
    ensures PathOf(f) !in Later(f, n)
  {
    var ps := Parts(f.day, f.did, f.ext, n);
    PartsAre(f.day, f.did, f.ext, n);
    forall i | f.part <= i < n ensures ps[i] != PathOf(f) { PartsApart(f.day, f.did, f.ext, i + 1, f.part); }
  }

  lemma PartsUpTo(f: LogFile, n: nat)
    requires 1 <= f.part <= n
    ensures Parts(f.day, f.did, f.ext, n)[..f.part] == Parts(f.day, f.did, f.ext, f.part - 1) + [PathOf(f)]
  {
    PartsPrefix(f.day, f.did, f.ext, f.part, n);
  }

  lemma Assemble<T>(s: seq<T>, n: nat, front: seq<T>, x: T)
    requires n <= |s| && s[..n] == front + [x]
    ensures s == front + [x] + s[n..]
  {}

  lemma {:induction false} JoinedEmpty(fs: Files, ps: seq<Path>)
    ensures Joined(fs, ps) == [] <==> forall i :: 0 <= i < |ps| ==> Content(fs, ps[i]) == []
  {
    if ps != [] {
      var front := ps[..|ps| - 1];
      JoinedEmpty(fs, front);
      assert forall i :: 0 <= i < |front| ==> front[i] == ps[i];
      assert |Joined(fs, ps)| == |Joined(fs, front)| + |Content(fs, ps[|ps| - 1])|;
    }
  }

  lemma LaterEmpty(fs: Files, f: LogFile, n: nat)
    requires f.part <= n
    ensures Joined(fs, Later(f, n)) == [] <==> NothingLater(fs, f, n)
  {
    var qs := Later(f, n);
    JoinedEmpty(fs, qs);
    PartsAre(f.day, f.did, f.ext, n);
    assert forall i :: 0 <= i < |qs| ==> qs[i] == PartPath(f.day, f.did, f.ext, f.part + i + 1);
    if Joined(fs, qs) == [] {
      forall k | f.part < k <= n ensures Content(fs, PartPath(f.day, f.did, f.ext, k)) == [] {
        assert qs[k - f.part - 1] == PartPath(f.day, f.did, f.ext, k);
      }
    }
  }

  /** The write of this text to the part `f` that is open. */
  function WriteHere(f: LogFile, text: Data, faults: Faults): Action {
    Write(f.did, f.ext, Line(text), faults, Some(f.(size := f.size + |Line(text)|)))
  }

  /** Whatever text is logged to the open part next, parts 1 to n spell the earlier text followed by its line. */
  ghost predicate KeepsOrder(maxBytes: nat, s: State, f: LogFile, n: nat) {
    forall text, faults, s' :: Step(maxBytes, s, WriteHere(f, text, faults), s') ==>
      Joined(s'.fs, Parts(f.day, f.did, f.ext, n)) == Joined(s.fs, Parts(f.day, f.did, f.ext, n)) + Line(text)
  }

  /** The state after a line was written to `to`, open in place of the file before. */
  function AfterWrite(s: State, to: LogFile, line: Data): State
    requires to.did in s.sessions
  {
    State(s.fs[PathOf(to) := Content(s.fs, PathOf(to)) + line],
          s.sessions[to.did := WithFile(s.sessions[to.did], to.ext, Some(to))])
  }

  /** A line can be written to the open part if it fits, or if going on to the next part fails. */
  lemma CanWrite(maxBytes: nat, s: State, f: LogFile, line: Data, faults: Faults)
    requires Good(s) && f.did in s.sessions && FileOf(s.sessions[f.did], f.ext) == Some(f)
    requires f.size < maxBytes && (f.size + |line| <= maxBytes || faults != NO_FAULTS)
    ensures var g := f.(size := f.size + |line|);
            Step(maxBytes, s, Write(f.did, f.ext, line, faults, Some(g)), AfterWrite(s, g, line))
  {
    assert SessionOk(s.fs, f.did, s.sessions[f.did]);
    var p, g := PathOf(f), f.(size := f.size + |line|);
    var s' := AfterWrite(s, g, line);
    assert PathOf(g) == p;
    assert s'.fs.Keys == s.fs.Keys + {p};
    assert Wrote(s.fs, s'.fs, f, g, line, maxBytes);
  }

  lemma OneLine(maxBytes: nat, s: State, f: LogFile, text: Data, faults: Faults, s': State, n: nat)
    requires Step(maxBytes, s, WriteHere(f, text, faults), s') && 1 <= f.part <= n
    ensures var ps, later, line := Parts(f.day, f.did, f.ext, n), Joined(s.fs, Later(f, n)), Line(text);
            Joined(s'.fs, ps) == Joined(s.fs, ps) + line <==> line + later == later + line
  {
    PartsAround(f, n);
    var before := Parts(f.day, f.did, f.ext, f.part - 1);
    AppendBeforeLater(s.fs, s'.fs, before, PathOf(f), Later(f, n), Line(text), maxBytes);
  }

  lemma Commutes(line: Data, later: Data)
    ensures later == [] ==> line + later == later + line
    ensures later != [] && line != [] && line[0] != later[0] ==> line + later != later + line
  {
    if later != [] && line != [] && line[0] != later[0] {
      assert (line + later)[0] != (later + line)[0];
    }
  }

  /** A text whose line disturbs what comes after it. */
  function Disturbing(later: Data): (text: Data)
    requires later != []
    ensures Line(text)[0] != later[0]
  {
    if later[0] == 0 then [1] else [0]
  }

  /** The step that opened the files of the device. */
  ghost predicate JustOpened(maxBytes: nat, before: State, open: Action, s: State) {
    && Good(before) && MayOpen(before, open) && Step(maxBytes, before, open, s)
    && match open
       case Open(did, _, _, ok) => ok && did !in before.sessions
       case Roll(did, today, _) => before.sessions[did].day != Some(today) && s.sessions[did].day.Some?
       case _ => false
  }

  lemma StartedFile(a: Files, b: Files, did: string, t: Session, day: int, maxBytes: nat, ext: Ext)
    requires Started(a, b, did, t, day, maxBytes)
    ensures FileOf(t, ext).Some? && Opened(a, b, FileOf(t, ext).value, day, did, ext, maxBytes)
  {}

  lemma FileJustOpened(maxBytes: nat, before: State, open: Action, s: State, ext: Ext)
    requires JustOpened(maxBytes, before, open, s)
    ensures Good(s) && HasFile(s, open.did, ext, open.today) && Untouched(before.fs, s.fs)
    ensures Opened(before.fs, s.fs, OpenFile(s, open.did, ext, open.today), open.today, open.did, ext, maxBytes)
  {
    StepGood(maxBytes, before, open, s);
    var did := open.did;
    assert did in s.sessions && Started(before.fs, s.fs, did, s.sessions[did], open.today, maxBytes);
    StartedFile(before.fs, s.fs, did, s.sessions[did], open.today, maxBytes, ext);
  }

  /** Going on to the part after `f` fails. */
  function NextFails(f: LogFile): (faults: Faults)
    ensures faults != NO_FAULTS
  {
    var p := PathOf(f.(part := f.part + 1));
    assert p in {p};
    Faults({p}, {}, false)
  }

  function AfterHere(s: State, f: LogFile, text: Data): State
    requires f.did in s.sessions
  {
    AfterWrite(s, f.(size := f.size + |Line(text)|), Line(text))
  }

  lemma DisturbedBytes(maxBytes: nat, s: State, f: LogFile, n: nat, text: Data, faults: Faults, s': State)
    requires Step(maxBytes, s, WriteHere(f, text, faults), s') && 1 <= f.part <= n
    requires Joined(s.fs, Later(f, n)) != [] && Line(text)[0] != Joined(s.fs, Later(f, n))[0]
    ensures var ps := Parts(f.day, f.did, f.ext, n); Joined(s'.fs, ps) != Joined(s.fs, ps) + Line(text)
  {
    OneLine(maxBytes, s, f, text, faults, s', n);
    Commutes(Line(text), Joined(s.fs, Later(f, n)));
  }

  /** A text whose line disturbs the order, if a later part holds something. */
  lemma Disturbed(maxBytes: nat, s: State, f: LogFile, n: nat) returns (text: Data)
    requires Good(s) && f.did in s.sessions && FileOf(s.sessions[f.did], f.ext) == Some(f)
    requires 1 <= f.part <= n && f.size < maxBytes && !NothingLater(s.fs, f, n)
    ensures Step(maxBytes, s, WriteHere(f, text, NextFails(f)), AfterHere(s, f, text))
    ensures var ps := Parts(f.day, f.did, f.ext, n);
            Joined(AfterHere(s, f, text).fs, ps) != Joined(s.fs, ps) + Line(text)
  {
    LaterEmpty(s.fs, f, n);
    text := Disturbing(Joined(s.fs, Later(f, n)));
    CanWrite(maxBytes, s, f, Line(text), NextFails(f));
    DisturbedBytes(maxBytes, s, f, n, text, NextFails(f), AfterHere(s, f, text));
  }

  /** A file that a session has just opened, with any number of parts already in the folder: it keeps the logging order
      for whatever text is logged to it next exactly when no later part held anything before. */
  lemma KeepsOrderExactly(maxBytes: nat, before: State, open: Action, s: State, ext: Ext, n: nat)
    requires JustOpened(maxBytes, before, open, s) && FileOf(s.sessions[open.did], ext).value.part <= n
    ensures var f := FileOf(s.sessions[open.did], ext).value;
            KeepsOrder(maxBytes, s, f, n) <==> NothingLater(before.fs, f, n)
  {
    FileJustOpened(maxBytes, before, open, s, ext);
    var f := OpenFile(s, open.did, ext, open.today);
    var ps := Parts(f.day, f.did, f.ext, n);
    assert NothingLater(before.fs, f, n) <==> NothingLater(s.fs, f, n);
    if NothingLater(s.fs, f, n) {
      LaterEmpty(s.fs, f, n);
      forall text, faults, s' | Step(maxBytes, s, WriteHere(f, text, faults), s')
        ensures Joined(s'.fs, ps) == Joined(s.fs, ps) + Line(text)
      {
        OneLine(maxBytes, s, f, text, faults, s', n);
        Commutes(Line(text), Joined(s.fs, Later(f, n)));
      }
    } else {
      var text := Disturbed(maxBytes, s, f, n);
    }
  }

  // ---- exactly when a whole session keeps the order ----

  /** Every line written ends in a newline, as the logger's lines do. */
  ghost predicate RealLines(acts: seq<Action>) {
    forall i :: 0 <= i < |acts| && acts[i].Write? ==> exists text :: acts[i].line == Line(text)
  }

  /** A run from `s` during which the file of the session stays open on one day. */
  ghost predicate Continues(maxBytes: nat, s: State, ss: seq<State>, acts: seq<Action>, did: string, ext: Ext,
                            day: int) {
    && LogRun(maxBytes, ss, acts) && ss[0] == s && RealLines(acts)
    && forall k :: 0 <= k < |ss| ==> HasFile(ss[k], did, ext, day)
  }

  /** All parts up to `n` spell, at the end of the run, what they spelled at its start and then the lines written. */
  ghost predicate InOrderUpTo(ss: seq<State>, acts: seq<Action>, did: string, ext: Ext, day: int, n: nat)
    requires |ss| == |acts| + 1
  {
    Joined(ss[|acts|].fs, Parts(day, did, ext, n)) == Joined(ss[0].fs, Parts(day, did, ext, n)) + Lines(acts, did, ext)
  }

  /** Whatever happens while the file stays open, the parts up to any number that the session has not passed are in
      order. */
  ghost predicate SessionInOrder(maxBytes: nat, s: State, did: string, ext: Ext, day: int)
    requires HasFile(s, did, ext, day)
  {
    forall ss, acts, n: nat :: Continues(maxBytes, s, ss, acts, did, ext, day) ==>
      (n >= OpenFile(s, did, ext, day).part && n >= OpenFile(ss[|acts|], did, ext, day).part ==>
        InOrderUpTo(ss, acts, did, ext, day, n))
  }

  /** Parts that hold nothing add nothing. */
  lemma JoinedBeyond(fs: Files, f: LogFile, n: nat)
    requires 1 <= f.part <= n && EmptyLater(fs, f)
    ensures Joined(fs, Parts(f.day, f.did, f.ext, n)) == Joined(fs, PartsOf(f))
  {
    LaterEmpty(fs, f, n);
    assert NothingLater(fs, f, n);
    PartsAround(f, n);
    PartsUpTo(f, n);
    PartsPrefix(f.day, f.did, f.ext, f.part, n);
    JoinedConcat(fs, PartsOf(f), Later(f, n));
    assert Parts(f.day, f.did, f.ext, n) == PartsOf(f) + Later(f, n);
  }

  lemma OrderedRun(maxBytes: nat, ss: seq<State>, acts: seq<Action>, did: string, ext: Ext, day: int, n: nat)
    requires LogRun(maxBytes, ss, acts) && forall k :: 0 <= k < |ss| ==> HasFile(ss[k], did, ext, day)
    requires n >= OpenFile(ss[0], did, ext, day).part && n >= OpenFile(ss[|acts|], did, ext, day).part
    requires EmptyLater(ss[0].fs, OpenFile(ss[0], did, ext, day))
    ensures InOrderUpTo(ss, acts, did, ext, day, n)
  {
    var f, g := OpenFile(ss[0], did, ext, day), OpenFile(ss[|acts|], did, ext, day);
    RunGood(maxBytes, ss, acts, |acts|);
    assert SessionOk(ss[0].fs, did, ss[0].sessions[did]);
    assert SessionOk(ss[|acts|].fs, did, ss[|acts|].sessions[did]);
    LinesInOrder(maxBytes, ss, acts, did, ext, day, Joined(ss[0].fs, PartsOf(f)));
    JoinedBeyond(ss[0].fs, f, n);
    JoinedBeyond(ss[|acts|].fs, g, n);
  }

  /** Whenever a session has just opened its files, all that is logged while they stay open on that day stays in logging
      order across the parts, rotations and failures included, exactly when no later part held anything before. */
  lemma SessionInOrderExactly(maxBytes: nat, before: State, open: Action, s: State, ext: Ext)
    requires JustOpened(maxBytes, before, open, s)
    ensures HasFile(s, open.did, ext, open.today)
    ensures var f := OpenFile(s, open.did, ext, open.today);
            SessionInOrder(maxBytes, s, open.did, ext, open.today) <==> EmptyLater(before.fs, f)
  {
    FileJustOpened(maxBytes, before, open, s, ext);
    var did, day := open.did, open.today;
    var f := OpenFile(s, did, ext, day);
    assert EmptyLater(before.fs, f) <==> EmptyLater(s.fs, f);
    if EmptyLater(s.fs, f) {
      forall ss, acts, n: nat | Continues(maxBytes, s, ss, acts, did, ext, day)
        ensures n >= f.part && n >= OpenFile(ss[|acts|], did, ext, day).part ==> InOrderUpTo(ss, acts, did, ext, day, n)
      {
        if n >= f.part && n >= OpenFile(ss[|acts|], did, ext, day).part {
          OrderedRun(maxBytes, ss, acts, did, ext, day, n);
        }
      }
    } else {
      var n: nat :| n > f.part && Content(s.fs, PartPath(f.day, f.did, f.ext, n)) != [];
      DisturbedRun(maxBytes, s, f, n);
    }
  }

  lemma OneStepRun(maxBytes: nat, s: State, a: Action, s': State)
    requires Good(s) && MayOpen(s, a) && Step(maxBytes, s, a, s')
    ensures LogRun(maxBytes, [s, s'], [a])
  {
    Extends(maxBytes, [s], [], a, s');
    assert [s] + [s'] == [s, s'] && [] + [a] == [a];
  }

  /** The file stays open over a write to it. */
  lemma StaysOpen(s: State, f: LogFile, text: Data)
    requires HasFile(s, f.did, f.ext, f.day) && OpenFile(s, f.did, f.ext, f.day) == f
    ensures HasFile(AfterHere(s, f, text), f.did, f.ext, f.day)
    ensures OpenFile(AfterHere(s, f, text), f.did, f.ext, f.day).part == f.part
  {}

  lemma ContinuesOne(maxBytes: nat, s: State, f: LogFile, text: Data)
    requires HasFile(s, f.did, f.ext, f.day) && OpenFile(s, f.did, f.ext, f.day) == f
    requires LogRun(maxBytes, [s, AfterHere(s, f, text)], [WriteHere(f, text, NextFails(f))])
    ensures var ss := [s, AfterHere(s, f, text)];
            Continues(maxBytes, s, ss, [WriteHere(f, text, NextFails(f))], f.did, f.ext, f.day)
  {
    StaysOpen(s, f, text);
    assert RealLines([WriteHere(f, text, NextFails(f))]);
  }

  lemma Refutes(maxBytes: nat, s: State, ss: seq<State>, acts: seq<Action>, did: string, ext: Ext, day: int, n: nat)
    requires HasFile(s, did, ext, day) && Continues(maxBytes, s, ss, acts, did, ext, day)
    requires n >= OpenFile(s, did, ext, day).part && n >= OpenFile(ss[|acts|], did, ext, day).part
    requires !InOrderUpTo(ss, acts, did, ext, day, n)
    ensures !SessionInOrder(maxBytes, s, did, ext, day)
  {}

  lemma DisturbedRun(maxBytes: nat, s: State, f: LogFile, n: nat)
    requires Good(s) && HasFile(s, f.did, f.ext, f.day) && OpenFile(s, f.did, f.ext, f.day) == f
    requires 1 <= f.part < n && f.size < maxBytes && Content(s.fs, PartPath(f.day, f.did, f.ext, n)) != []
    ensures !SessionInOrder(maxBytes, s, f.did, f.ext, f.day)
  {
    assert !NothingLater(s.fs, f, n);
    var text := Disturbed(maxBytes, s, f, n);
    var a, s' := WriteHere(f, text, NextFails(f)), AfterHere(s, f, text);
    OneStepRun(maxBytes, s, a, s');
    ContinuesOne(maxBytes, s, f, text);
    LinesOfOne(a, f.did, f.ext);
    StaysOpen(s, f, text);
    Refutes(maxBytes, s, [s, s'], [a], f.did, f.ext, f.day, n);
  }

  lemma LinesOfOne(a: Action, did: string, ext: Ext)
    ensures Lines([a], did, ext) == LineOf(a, did, ext)
  {
    assert [a][..0] == [];
    assert Lines([], did, ext) == [];
  }

  // ---- a run that loses the order ----

  /** A session opened in a folder whose first parts have room, without other sessions. */
  function AfterOpen(fs: Files, day: int, did: string): State {
    var hex, txt := PartPath(day, did, Hex, 1), PartPath(day, did, Txt, 1);
    State(fs[hex := Content(fs, hex)][txt := Content(fs, txt)],
          map[did := Session(1, Some(day), Some(LogFile(day, did, Hex, 1, |Content(fs, hex)|)),
                             Some(LogFile(day, did, Txt, 1, |Content(fs, txt)|)))])
  }

  lemma PathsApart(day: int, did: string)
    ensures PartPath(day, did, Hex, 1) != PartPath(day, did, Hex, 2)
    ensures PartPath(day, did, Hex, 1) != PartPath(day, did, Txt, 1)
    ensures PartPath(day, did, Hex, 2) != PartPath(day, did, Txt, 1)
  {
    PartsApart(day, did, Hex, 1, 2);
    NamesApart(did, 1, Hex, did, 1, Txt);
    NamesApart(did, 2, Hex, did, 1, Txt);
  }

  lemma CanOpen(maxBytes: nat, fs: Files, day: int, did: string)
    requires |Content(fs, PartPath(day, did, Hex, 1))| < maxBytes
    requires |Content(fs, PartPath(day, did, Txt, 1))| < maxBytes
    ensures var s, a := State(fs, map[]), Open(did, day, NO_FAULTS, true);
            MayOpen(s, a) && Step(maxBytes, s, a, AfterOpen(fs, day, did))
  {
    var s' := AfterOpen(fs, day, did);
    var hex, txt := s'.sessions[did].hex.value, s'.sessions[did].txt.value;
    var mid := fs[PathOf(hex) := Content(fs, PathOf(hex))];
    PathsApart(day, did);
    OpenedPart(fs, mid, hex, maxBytes);
    assert Content(mid, PathOf(txt)) == Content(fs, PathOf(txt));
    OpenedPart(mid, s'.fs, txt, maxBytes);
    OpenedBoth(fs, mid, s'.fs, hex, txt, maxBytes);
    assert Created(fs, s'.fs, did);
    assert Sets(map[], s'.sessions, did, s'.sessions[did]);
  }

  /** A line that does not fit starts the next part. */
  lemma CanRotate(maxBytes: nat, s: State, f: LogFile, line: Data)
    requires Good(s) && f.did in s.sessions && FileOf(s.sessions[f.did], f.ext) == Some(f) && 0 < maxBytes
    requires f.size + |line| > maxBytes && PathOf(f.(part := f.part + 1)) !in s.fs
    ensures var g := f.(part := f.part + 1, size := |line|);
            Step(maxBytes, s, Write(f.did, f.ext, line, NO_FAULTS, Some(g)), AfterWrite(s, g, line))
  {
    var g := f.(part := f.part + 1, size := |line|);
    var s' := AfterWrite(s, g, line);
    assert s'.fs.Keys == s.fs.Keys + {PathOf(g)};
    assert Wrote(s.fs, s'.fs, f, g, line, maxBytes);
  }

  const LIMIT := 4
  const FIRST: Data := [1, NEWLINE]
  const SECOND: Data := [2, 2, NEWLINE]
  const THIRD: Data := [3, NEWLINE]

  /** Open, log two lines the second of which starts part 2, close, open again, log a third line. */
  function ReopenActions(day: int, did: string): seq<Action> {
    [Open(did, day, NO_FAULTS, true),
     Write(did, Hex, FIRST, NO_FAULTS, Some(LogFile(day, did, Hex, 1, 2))),
     Write(did, Hex, SECOND, NO_FAULTS, Some(LogFile(day, did, Hex, 2, 3))),
     Close(did),
     Open(did, day, NO_FAULTS, true),
     Write(did, Hex, THIRD, NO_FAULTS, Some(LogFile(day, did, Hex, 1, 4)))]
  }

  lemma Extends(maxBytes: nat, ss: seq<State>, acts: seq<Action>, a: Action, s': State)
    requires LogRun(maxBytes, ss, acts) && MayOpen(ss[|acts|], a) && Step(maxBytes, ss[|acts|], a, s')
    ensures LogRun(maxBytes, ss + [s'], acts + [a])
  {
    var rs, bs := ss + [s'], acts + [a];
    assert forall i :: 0 <= i < |acts| ==> bs[i] == acts[i];
    assert forall i :: 0 <= i < |ss| ==> rs[i] == ss[i];
    assert bs[|acts|] == a && rs[|acts|] == ss[|acts|] && rs[|acts| + 1] == s';
  }

  lemma ThenOpen(ss: seq<State>, acts: seq<Action>, day: int, did: string)
    requires LogRun(LIMIT, ss, acts) && ss[|acts|].sessions == map[]
    requires |Content(ss[|acts|].fs, PartPath(day, did, Hex, 1))| < LIMIT
    requires |Content(ss[|acts|].fs, PartPath(day, did, Txt, 1))| < LIMIT
    ensures LogRun(LIMIT, ss + [AfterOpen(ss[|acts|].fs, day, did)], acts + [Open(did, day, NO_FAULTS, true)])
  {
    var fs := ss[|acts|].fs;
    assert ss[|acts|] == State(fs, map[]);
    CanOpen(LIMIT, fs, day, did);
    Extends(LIMIT, ss, acts, Open(did, day, NO_FAULTS, true), AfterOpen(fs, day, did));
  }

  lemma ThenWrite(ss: seq<State>, acts: seq<Action>, f: LogFile, line: Data)
    requires LogRun(LIMIT, ss, acts) && f.size < LIMIT && f.size + |line| <= LIMIT
    requires f.did in ss[|acts|].sessions && FileOf(ss[|acts|].sessions[f.did], f.ext) == Some(f)
    ensures var g := f.(size := f.size + |line|);
            LogRun(LIMIT, ss + [AfterWrite(ss[|acts|], g, line)],
                   acts + [Write(f.did, f.ext, line, NO_FAULTS, Some(g))])
  {
    RunGood(LIMIT, ss, acts, |acts|);
    var g := f.(size := f.size + |line|);
    CanWrite(LIMIT, ss[|acts|], f, line, NO_FAULTS);
    Extends(LIMIT, ss, acts, Write(f.did, f.ext, line, NO_FAULTS, Some(g)), AfterWrite(ss[|acts|], g, line));
  }

  lemma ThenRotate(ss: seq<State>, acts: seq<Action>, f: LogFile, line: Data)
    requires LogRun(LIMIT, ss, acts) && f.size + |line| > LIMIT && PathOf(f.(part := f.part + 1)) !in ss[|acts|].fs
    requires f.did in ss[|acts|].sessions && FileOf(ss[|acts|].sessions[f.did], f.ext) == Some(f)
    ensures var g := f.(part := f.part + 1, size := |line|);
            LogRun(LIMIT, ss + [AfterWrite(ss[|acts|], g, line)],
                   acts + [Write(f.did, f.ext, line, NO_FAULTS, Some(g))])
  {
    var g := f.(part := f.part + 1, size := |line|);
    RunGood(LIMIT, ss, acts, |acts|);
    CanRotate(LIMIT, ss[|acts|], f, line);
    Extends(LIMIT, ss, acts, Write(f.did, f.ext, line, NO_FAULTS, Some(g)), AfterWrite(ss[|acts|], g, line));
  }

  lemma ThenClose(ss: seq<State>, acts: seq<Action>, did: string)
    requires LogRun(LIMIT, ss, acts) && ss[|acts|].sessions.Keys == {did} && ss[|acts|].sessions[did].refs == 1
    ensures LogRun(LIMIT, ss + [State(ss[|acts|].fs, map[])], acts + [Close(did)])
  {
    assert ss[|acts|].sessions - {did} == map[];
    Extends(LIMIT, ss, acts, Close(did), State(ss[|acts|].fs, map[]));
  }

  /** What the file system holds of the device. */
  predicate Holds(fs: Files, day: int, did: string, first: Data, second: Data) {
    && Content(fs, PartPath(day, did, Hex, 1)) == first && Content(fs, PartPath(day, did, Hex, 2)) == second
    && Content(fs, PartPath(day, did, Txt, 1)) == []
  }

  /** A first session in an empty file system. */
  lemma FreshSession(day: int, did: string)
    ensures var s := AfterOpen(map[], day, did);
            && s.sessions.Keys == {did} && s.sessions[did].refs == 1
            && s.sessions[did].hex == Some(LogFile(day, did, Hex, 1, 0))
            && Holds(s.fs, day, did, [], []) && PartPath(day, did, Hex, 2) !in s.fs
  {
    PathsApart(day, did);
  }

  lemma Wrote1(s: State, day: int, did: string)
    requires s.sessions.Keys == {did} && Holds(s.fs, day, did, [], []) && PartPath(day, did, Hex, 2) !in s.fs
    ensures var g := LogFile(day, did, Hex, 1, 2);
            var t := AfterWrite(s, g, FIRST);
            && t.sessions.Keys == {did} && t.sessions[did] == WithFile(s.sessions[did], Hex, Some(g))
            && Holds(t.fs, day, did, FIRST, []) && PartPath(day, did, Hex, 2) !in t.fs
  {
    PathsApart(day, did);
  }

  lemma FirstOpen(day: int, did: string)
    ensures LogRun(LIMIT, [State(map[], map[]), AfterOpen(map[], day, did)], [ReopenActions(day, did)[0]])
  {
    ThenOpen([State(map[], map[])], [], day, did);
    assert [State(map[], map[])] + [AfterOpen(map[], day, did)] == [State(map[], map[]), AfterOpen(map[], day, did)];
    assert [] + [ReopenActions(day, did)[0]] == [ReopenActions(day, did)[0]];
  }

  lemma FirstLine(day: int, did: string) returns (ss: seq<State>)
    ensures LogRun(LIMIT, ss, ReopenActions(day, did)[..2]) && ss[0] == State(map[], map[])
    ensures ss[2].sessions.Keys == {did} && ss[2].sessions[did].refs == 1
    ensures ss[2].sessions[did].hex == Some(LogFile(day, did, Hex, 1, 2))
    ensures Holds(ss[2].fs, day, did, FIRST, []) && PartPath(day, did, Hex, 2) !in ss[2].fs
  {
    var acts := ReopenActions(day, did);
    var s0, s1 := State(map[], map[]), AfterOpen(map[], day, did);
    FirstOpen(day, did);
    FreshSession(day, did);
    ThenWrite([s0, s1], [acts[0]], LogFile(day, did, Hex, 1, 0), FIRST);
    Wrote1(s1, day, did);
    ss := [s0, s1] + [AfterWrite(s1, LogFile(day, did, Hex, 1, 2), FIRST)];
    assert [acts[0]] + [acts[1]] == acts[..2];
  }

  /** The first session: its files hold the first two lines in two parts. */
  lemma FirstSession(day: int, did: string) returns (ss: seq<State>)
    ensures LogRun(LIMIT, ss, ReopenActions(day, did)[..3]) && ss[0] == State(map[], map[])
    ensures ss[3].sessions.Keys == {did} && ss[3].sessions[did].refs == 1 && Holds(ss[3].fs, day, did, FIRST, SECOND)
  {
    var acts := ReopenActions(day, did);
    PathsApart(day, did);
    ss := FirstLine(day, did);
    ThenRotate(ss, acts[..2], LogFile(day, did, Hex, 1, 2), SECOND);
    ss := ss + [AfterWrite(ss[2], LogFile(day, did, Hex, 2, 3), SECOND)];
    assert acts[..2] + [acts[2]] == acts[..3];
  }

  lemma SecondSession(ss: seq<State>, acts: seq<Action>, day: int, did: string) returns (rs: seq<State>)
    requires LogRun(LIMIT, ss, acts) && ss[|acts|].sessions.Keys == {did} && ss[|acts|].sessions[did].refs == 1
    requires Holds(ss[|acts|].fs, day, did, FIRST, SECOND)
    ensures ss <= rs && LogRun(LIMIT, rs, acts + ReopenActions(day, did)[3..])
    ensures Holds(rs[|rs| - 1].fs, day, did, FIRST + THIRD, SECOND)
  {
    var all, n := ReopenActions(day, did), |acts|;
    PathsApart(day, did);
    ThenClose(ss, acts, did);
    rs := ss + [State(ss[n].fs, map[])];
    ThenOpen(rs, acts + [all[3]], day, did);
    rs := rs + [AfterOpen(ss[n].fs, day, did)];
    ThenWrite(rs, acts + [all[3]] + [all[4]], LogFile(day, did, Hex, 1, 2), THIRD);
    rs := rs + [AfterWrite(rs[n + 2], LogFile(day, did, Hex, 1, 4), THIRD)];
    assert acts + [all[3]] + [all[4]] + [all[5]] == acts + all[3..];
  }

  /** A run of the logger, without failures and with one user, whose parts do not spell its lines in order. */
  lemma ReopenedOutOfOrder(day: int, did: string) returns (ss: seq<State>)
    ensures LogRun(LIMIT, ss, ReopenActions(day, did)) && ss[0] == State(map[], map[])
    ensures Joined(ss[6].fs, Parts(day, did, Hex, 2)) == FIRST + THIRD + SECOND
    ensures Joined(ss[6].fs, Parts(day, did, Hex, 2)) != Logged(ReopenActions(day, did), did, Hex)
  {
    var acts := ReopenActions(day, did);
    ss := FirstSession(day, did);
    ss := SecondSession(ss, acts[..3], day, did);
    assert acts[..3] + acts[3..] == acts;
    JoinedTwo(ss[6].fs, day, did, Hex);
    LoggedThree(day, did);
    assert (FIRST + THIRD + SECOND)[2] != (FIRST + SECOND + THIRD)[2];
  }

  lemma JoinedTwo(fs: Files, day: int, did: string, ext: Ext)
    ensures Joined(fs, Parts(day, did, ext, 2)) ==
            Content(fs, PartPath(day, did, ext, 1)) + Content(fs, PartPath(day, did, ext, 2))
  {
    PartsTwo(day, did, ext);
    JoinedPair(fs, PartPath(day, did, ext, 1), PartPath(day, did, ext, 2));
  }

  lemma PartsTwo(day: int, did: string, ext: Ext)
    ensures Parts(day, did, ext, 2) == [PartPath(day, did, ext, 1), PartPath(day, did, ext, 2)]
  {
    PartsAre(day, did, ext, 2);
  }

  lemma JoinedPair(fs: Files, p: Path, q: Path)
    ensures Joined(fs, [p, q]) == Content(fs, p) + Content(fs, q)
  {
    JoinedLast(fs, [p], q);
    JoinedLast(fs, [], p);
    assert [] + [p] == [p] && [p] + [q] == [p, q];
  }

  lemma LoggedThree(day: int, did: string)
    ensures Logged(ReopenActions(day, did), did, Hex) == FIRST + SECOND + THIRD
  {
    var acts := ReopenActions(day, did);
    assert acts[..5][..4] == acts[..4] && acts[..4][..3] == acts[..3] && acts[..3][..2] == acts[..2];
    assert acts[..2][..1] == acts[..1] && acts[..1][..0] == [];
    assert Logged(acts[..1], did, Hex) == [];
    assert Logged(acts[..2], did, Hex) == FIRST;
    assert Logged(acts[..3], did, Hex) == FIRST + SECOND;
    assert Logged(acts[..4], did, Hex) == FIRST + SECOND;
    assert Logged(acts[..5], did, Hex) == FIRST + SECOND;
  }
}
