/** How connections use the frame logger (handleConnection of internal/tcp/crypto_server.go): the logs are opened at the
    first frame after the grant and closed at the end, whether or not they were opened. */
module LogUse {
  import opened Bytes
  import opened PartNames
  import opened LogFiles
  import opened FrameLog
  import opened LogRuns
  import opened LogReopen

  // ---- one connection ----

  /** A frame of this device logged now finds its .hex file open, or opens today's. */
  predicate Takes(s: State, did: string, today: int) {
    did in s.sessions && (s.sessions[did].day != Some(today) || s.sessions[did].hex.Some?)
  }

  /** The line went whole to one .hex part of the device on `today`, `to`, and no other file changed; or none did. */
  ghost predicate LineLogged(before: Files, after: State, did: string, today: int, line: Data, maxBytes: nat,
                             to: Option<LogFile>) {
    match to
    case Some(f) =>
      && f.day == today && f.did == did && f.ext == Hex && f.part >= 1
      && Landed(before, after.fs, PathOf(f), line, maxBytes)
      && did in after.sessions && after.sessions[did].day == Some(today) && after.sessions[did].hex == to
    case None => Untouched(before, after.fs)
  }

  lemma StepsLog(maxBytes: nat, s: State, roll: Action, mid: State, write: Action, s': State)
    requires Good(s) && roll.Roll? && write.Write? && write.ext == Hex
    requires roll.did == write.did && roll.faults == write.faults
    requires Step(maxBytes, s, roll, mid) && Step(maxBytes, mid, write, s')
    ensures LineLogged(s.fs, s', write.did, roll.today, write.line, maxBytes, write.to)
    ensures write.faults == NO_FAULTS ==> (write.to.Some? <==> Takes(s, write.did, roll.today))
  {
    RollThenWrite(maxBytes, s, roll, mid, write, s');
    StepGood(maxBytes, s, roll, mid);
    assert SessionOk(mid.fs, write.did, mid.sessions[write.did]);
  }

  class ConnectionLogs {
    const logger: FrameLogger
    var logsOpened: bool

    /** The opens and closes this connection made. */
    ghost var calls: seq<Action>

    /** Until its end a connection has made no call, or one open. */
    ghost predicate Valid()
      reads this
    {
      if logsOpened then |calls| == 1 && calls[0].Open? else calls == []
    }

    constructor (logger: FrameLogger)
      ensures Valid() && this.logger == logger && !logsOpened
    {
      this.logger := logger;
      logsOpened, calls := false, [];
    }

    /** LogHex: `to` is the file the line went to. */
    method LogHex(did: string, text: Data, today: int, faults: Faults) returns (ghost to: Option<LogFile>)
      requires logger.Valid()
      modifies logger`fs, logger`sessions
      ensures logger.Valid()
      ensures LineLogged(old(logger.fs), logger.Now(), Sanitize(did), today, Line(text), logger.maxBytes, to)
      ensures faults == NO_FAULTS ==> (to.Some? <==> Takes(old(logger.Now()), Sanitize(did), today))
      ensures Sanitize(did) !in old(logger.sessions) ==> logger.Now() == old(logger.Now())
      ensures logger.sessions.Keys == old(logger.sessions).Keys
      ensures forall d :: d in logger.sessions ==> logger.sessions[d].refs == old(logger.sessions)[d].refs
    {
      ghost var s, key := logger.Now(), Sanitize(did);
      ghost var mid;
      mid, to := logger.Log(did, Hex, text, today, faults);
      if key in s.sessions {
        ghost var write := Write(key, Hex, Line(text), faults, to);
        StepsLog(logger.maxBytes, s, Roll(key, today, faults), mid, write, logger.Now());
      }
    }

    /** The first frame after the grant: the session is opened, or shared. */
    method OpenLogs(did: string, today: int, faults: Faults)
      requires Valid() && !logsOpened && logger.Valid() && Apart(logger.sessions.Keys + {Sanitize(did)})
      modifies this, logger`fs, logger`sessions
      ensures Valid() && logsOpened && logger.Valid()
      ensures var a := calls[0];
              && a == Open(Sanitize(did), today, faults, a.ok)
              && Step(logger.maxBytes, old(logger.Now()), a, logger.Now())
      ensures Untouched(old(logger.fs), logger.fs)
    {
      logsOpened := true;
      var ok := logger.Open(did, today, faults);
      calls := [Open(Sanitize(did), today, faults, ok)];
    }

    /** A frame was read. An authenticated connection opens its logs if this is its first, and logs the frame: whole, to
        one .hex part of its device, and without failures exactly if the device has a session with that file open.
        Opening is not tried again if it fails. */
    method OnFrame(authenticated: bool, did: string, text: Data, today: int, faults: Faults)
      returns (ghost to: Option<LogFile>)
      requires Valid() && logger.Valid()
      requires authenticated && !logsOpened ==> Apart(logger.sessions.Keys + {Sanitize(did)})
      modifies this, logger`fs, logger`sessions
      ensures Valid() && logger.Valid() && (logsOpened <==> old(logsOpened) || authenticated)
      ensures LineLogged(old(logger.fs), logger.Now(), Sanitize(did), today, Line(text), logger.maxBytes, to)
      ensures faults == NO_FAULTS && authenticated ==>
                (to.Some? <==>
                   if Sanitize(did) in old(logger.sessions) then Takes(old(logger.Now()), Sanitize(did), today)
                   else !old(logsOpened))
      ensures old(logsOpened) ==> calls == old(calls)
      ensures !old(logsOpened) && authenticated ==>
                && calls[0].did == Sanitize(did) && calls[0].faults == faults
                && (calls[0].ok <==> Sanitize(did) in logger.sessions)
      ensures !authenticated ==> to.None? && logger.Now() == old(logger.Now())
      ensures old(logsOpened) && Sanitize(did) !in old(logger.sessions) ==> logger.Now() == old(logger.Now())
      ensures faults == NO_FAULTS && authenticated && !old(logsOpened) ==> calls[0].ok
      ensures !old(logsOpened) && old(logger.sessions) == map[] ==>
                forall d :: d in logger.sessions ==> d == Sanitize(did) && logger.sessions[d].refs == 1
    {
      to := None;
      if !authenticated { return; }
      ghost var start := logger.fs;
      if !logsOpened { OpenLogs(did, today, faults); }
      ghost var mid := logger.fs;
      to := LogHex(did, text, today, faults);
      LineLoggedLater(start, mid, logger.Now(), Sanitize(did), today, Line(text), logger.maxBytes, to);
    }

    /** The connection ended, with this id in its context. */
    method OnEnd(did: string)
      requires Valid() && logger.Valid()
      modifies this`calls, logger`sessions
      ensures logger.Valid() && calls == old(calls) + [Close(Sanitize(did))]
      ensures Step(logger.maxBytes, old(logger.Now()), Close(Sanitize(did)), logger.Now())
    {
      logger.Close(did);
      calls := calls + [Close(Sanitize(did))];
    }
  }

  lemma LineLoggedLater(a: Files, b: Files, s: State, did: string, today: int, line: Data, maxBytes: nat,
                        to: Option<LogFile>)
    requires Untouched(a, b) && LineLogged(b, s, did, today, line, maxBytes, to)
    ensures LineLogged(a, s, did, today, line, maxBytes, to)
  {}

  // ---- many connections ----

  predicate Uses(a: Action) {
    a.Open? || a.Close?
  }

  /** Each caller makes the calls of a connection: at most one open, then at most one close, of one id. */
  ghost predicate ByConnections(acts: seq<Action>, callers: seq<nat>)
    requires |acts| == |callers|
  {
    forall i, j :: 0 <= i < j < |acts| && callers[i] == callers[j] && Uses(acts[i]) && Uses(acts[j]) ==>
      acts[i].Open? && acts[j].Close? && acts[i].did == acts[j].did
  }

  /** This caller had opened its logs before call `n`. */
  ghost predicate OpenedBefore(acts: seq<Action>, callers: seq<nat>, p: nat, n: nat)
    requires n <= |acts| == |callers|
  {
    exists j: nat :: j < n && callers[j] == p && acts[j].Open? && acts[j].ok
  }

  /** The caller of call `i` had opened its logs. */
  ghost predicate HadOpened(acts: seq<Action>, callers: seq<nat>, i: nat)
    requires i < |acts| == |callers|
  {
    OpenedBefore(acts, callers, callers[i], i)
  }

  lemma OpenedStep(acts: seq<Action>, callers: seq<nat>, p: nat, n: nat)
    requires 0 < n <= |acts| == |callers|
    ensures OpenedBefore(acts, callers, p, n) <==>
              OpenedBefore(acts, callers, p, n - 1) || (callers[n - 1] == p && acts[n - 1].Open? && acts[n - 1].ok)
  {
    if OpenedBefore(acts, callers, p, n - 1) {
      var j: nat :| j < n - 1 && callers[j] == p && acts[j].Open? && acts[j].ok;
      assert j < n;
    }
  }

  lemma {:induction false} HeldIfOpened(acts: seq<Action>, callers: seq<nat>, did: string, i: nat, n: nat)
    requires n <= i < |acts| == |callers| && ByConnections(acts, callers) && acts[i].Close? && acts[i].did == did
    ensures callers[i] in HeldBy(acts[..n], callers[..n], did) <==> OpenedBefore(acts, callers, callers[i], n)
  {
    if n > 0 {
      HeldIfOpened(acts, callers, did, i, n - 1);
      HeldStep(acts, callers, did, n);
      OpenedStep(acts, callers, callers[i], n);
      assert callers[n - 1] == callers[i] && Uses(acts[n - 1]) ==> acts[n - 1].Open? && acts[n - 1].did == did;
    }
  }

  /** A connection closes a session that it holds exactly when it had opened it. */
  lemma HolderExactly(acts: seq<Action>, callers: seq<nat>, i: nat)
    requires i < |acts| == |callers| && ByConnections(acts, callers) && acts[i].Close?
    ensures callers[i] in HeldBy(acts[..i], callers[..i], acts[i].did) <==> HadOpened(acts, callers, i)
  {
    HeldIfOpened(acts, callers, acts[i].did, i, i);
  }

  /** For the connections of the server the reference count of a device is the number of connections that hold its
      session exactly when every connection that ends without having opened its logs, because no frame came after its
      grant or its open failed, ends while nobody holds the session of its id. */
  lemma ConnectionsExactly(maxBytes: nat, ss: seq<State>, acts: seq<Action>, callers: seq<nat>, did: string)
    requires LogRun(maxBytes, ss, acts) && ss[0].sessions == map[] && |acts| == |callers|
    requires ByConnections(acts, callers)
    ensures CountsHolders(ss, acts, callers, did) <==>
              forall i :: 0 <= i < |acts| && acts[i].Close? && acts[i].did == did && !HadOpened(acts, callers, i) ==>
                HeldBy(acts[..i], callers[..i], did) == multiset{}
  {
    HoldersExactly(maxBytes, ss, acts, callers, did);
    forall i | 0 <= i < |acts|
      ensures FairClose(acts, callers, did, i) <==>
                (acts[i].Close? && acts[i].did == did && !HadOpened(acts, callers, i) ==>
                  HeldBy(acts[..i], callers[..i], did) == multiset{})
    {
      if acts[i].Close? && acts[i].did == did { HolderExactly(acts, callers, i); }
    }
  }

  // ---- a connection that closes what it does not hold ----

  /** Caller 1 opens; caller 2, who never did, closes. Caller 1 still holds the session by its own account, but it is
      gone, and no line of the device can be written. */
  lemma StrangerEndsSession(day: int, did: string) returns (ss: seq<State>, acts: seq<Action>)
    ensures acts == [Open(did, day, NO_FAULTS, true), Close(did)]
    ensures LogRun(LIMIT, ss, acts) && ss[0] == State(map[], map[])
    ensures 1 in HeldBy(acts, [1, 2], did) && !FairCloses(acts, [1, 2], did)
    ensures did !in ss[2].sessions && forall a: Action, s' :: a.Write? && a.did == did ==> !Step(LIMIT, ss[2], a, s')
  {
    ss, acts := [State(map[], map[]), AfterOpen(map[], day, did)], [Open(did, day, NO_FAULTS, true)];
    FirstOpen(day, did);
    FreshSession(day, did);
    ThenClose(ss, acts, did);
    ss, acts := ss + [State(ss[1].fs, map[])], acts + [Close(did)];
    StrangerHeld(acts, did);
  }

  lemma StrangerHeld(acts: seq<Action>, did: string)
    requires |acts| == 2 && acts[0].Open? && acts[0].ok && acts[0].did == did && acts[1] == Close(did)
    ensures 1 in HeldBy(acts, [1, 2], did) && !FairCloses(acts, [1, 2], did)
  {
    var callers: seq<nat> := [1, 2];
    assert acts[..1][..0] == [] && callers[..1] == [1] && callers[..1][..0] == [];
    assert HeldBy([], [], did) == multiset{};
    assert HeldBy(acts[..1], callers[..1], did) == multiset{1};
    assert !FairClose(acts, callers, did, 1);
  }

  /** The same with the objects: one connection has its logs open; another that gave the same id ends without a frame
      after a grant; the next frame of the first is not logged, although it still counts its logs as open. */
  method StrangerLosesLine(did: string, text: Data, today: int) returns (open: bool, before: Files, after: Files)
    ensures open && before == after
  {
    var logger := new FrameLogger(0, map[]);
    var one := new ConnectionLogs(logger);
    var other := new ConnectionLogs(logger);
    NoSelfCollision(did);
    ghost var to := one.OnFrame(true, did, text, today, NO_FAULTS);
    to := other.OnFrame(false, did, text, today, NO_FAULTS);
    other.OnEnd(did);
    before := logger.fs;
    to := one.OnFrame(true, did, text, today, NO_FAULTS);
    after, open := logger.fs, one.logsOpened;
  }

  /** Without the other connection both frames of the first are logged. */
  method BothLinesLogged(did: string, text: Data, today: int)
    returns (start: Files, before: Files, after: Files, ghost f: LogFile, ghost g: LogFile)
    ensures start == map[]
    ensures f.day == g.day == today && f.did == g.did == Sanitize(did) && f.ext == g.ext == Hex
    ensures Landed(start, before, PathOf(f), Line(text), 104857600)
    ensures Landed(before, after, PathOf(g), Line(text), 104857600)
  {
    var logger := new FrameLogger(0, map[]);
    var one := new ConnectionLogs(logger);
    NoSelfCollision(did);
    start := logger.fs;
    ghost var to := one.OnFrame(true, did, text, today, NO_FAULTS);
    f, before := to.value, logger.fs;
    to := one.OnFrame(true, did, text, today, NO_FAULTS);
    g, after := to.value, logger.fs;
  }

  lemma NoSelfCollision(did: string)
    ensures Apart({Sanitize(did)})
  {}
}
