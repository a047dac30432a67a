/** The rotating file logger (internal/tcp/framelog.go): reference-counted sessions, day rollover, rotation by size.
    One lock serialises its operations. An operation is one step, except that logging a line is two: the rollover and
    the write. */
module FrameLog {
  import opened Bytes
  import opened PartNames
  import opened LogFiles

  /** `day` is None and the files are None while a session has no files open. */
  datatype Session = Session(refs: int, day: Option<int>, hex: Option<LogFile>, txt: Option<LogFile>)

  type Sessions = map<string, Session>

  datatype State = State(fs: Files, sessions: Sessions)

  function FileOf(s: Session, ext: Ext): Option<LogFile> {
    if ext == Hex then s.hex else s.txt
  }

  function WithFile(s: Session, ext: Ext, f: Option<LogFile>): Session {
    if ext == Hex then s.(hex := f) else s.(txt := f)
  }

  // ---- what must hold between operations ----

  predicate FileFits(fs: Files, f: Option<LogFile>, did: string, ext: Ext, day: Option<int>) {
    f.Some? ==> FileOk(fs, f.value) && f.value.did == did && f.value.ext == ext && day == Some(f.value.day)
  }

  predicate SessionOk(fs: Files, did: string, s: Session) {
    s.refs >= 1 && FileFits(fs, s.hex, did, Hex, s.day) && FileFits(fs, s.txt, did, Txt, s.day)
  }

  /** No two of these devices collide. */
  ghost predicate Apart(dids: set<string>) {
    forall d, e :: d in dids && e in dids ==> !Collide(d, e)
  }

  predicate SessionsOk(fs: Files, sessions: Sessions) {
    forall d :: d in sessions ==> SessionOk(fs, d, sessions[d])
  }

  ghost predicate Good(s: State) {
    Apart(s.sessions.Keys) && SessionsOk(s.fs, s.sessions)
  }

  // ---- steps ----

  /** What opening a file in a day folder gives: the first part with room. */
  ghost predicate Opened(a: Files, b: Files, f: LogFile, day: int, did: string, ext: Ext, maxBytes: nat) {
    && f.day == day && f.did == did && f.ext == ext
    && FileOk(b, f) && f.size < maxBytes
    && (forall s :: 1 <= s < f.part ==> Full(a, PartPath(day, did, ext, s), maxBytes))
    && (EmptyLater(a, f) ==> Spells(b, f, Joined(a, PartsOf(f))))
    && (NoLater(a, f) ==> NoLater(b, f))
  }

  /** Both files of the session are open on `day`. */
  ghost predicate Started(a: Files, b: Files, did: string, s: Session, day: int, maxBytes: nat) {
    && s.day == Some(day) && s.hex.Some? && s.txt.Some?
    && Opened(a, b, s.hex.value, day, did, Hex, maxBytes) && Opened(a, b, s.txt.value, day, did, Txt, maxBytes)
  }

  /** The line was written with `f` open before and `g` open after: the same part, or a later one past full parts. */
  ghost predicate Wrote(a: Files, b: Files, f: LogFile, g: LogFile, line: Data, maxBytes: nat) {
    && g.day == f.day && g.did == f.did && g.ext == f.ext && g.part >= f.part
    && FileOk(b, g)
    && Landed(a, b, PathOf(g), line, maxBytes) && b.Keys == a.Keys + {PathOf(g)}
    && (f.size + |line| <= maxBytes ==> g.part == f.part)
    && forall s :: f.part < s < g.part ==> Full(a, PartPath(f.day, f.did, f.ext, s), maxBytes)
  }

  datatype Action =
    | Open(did: string, today: int, faults: Faults, ok: bool)
    | Close(did: string)
    | Roll(did: string, today: int, faults: Faults)
    | Write(did: string, ext: Ext, line: Data, faults: Faults, to: Option<LogFile>)

  /** `did` has the session `t` after; the other sessions are as before. */
  predicate Sets(before: Sessions, after: Sessions, did: string, t: Session) {
    after == before[did := t]
  }

  ghost predicate OpenStep(maxBytes: nat, s: State, a: Action, s': State)
    requires a.Open?
  {
    if a.did in s.sessions then
      && a.ok && s'.fs == s.fs
      && Sets(s.sessions, s'.sessions, a.did, s.sessions[a.did].(refs := s.sessions[a.did].refs + 1))
    else
      && Created(s.fs, s'.fs, a.did)
      && if a.ok then
           && a.did in s'.sessions && Sets(s.sessions, s'.sessions, a.did, s'.sessions[a.did])
           && s'.sessions[a.did].refs == 1 && Started(s.fs, s'.fs, a.did, s'.sessions[a.did], a.today, maxBytes)
         else s'.sessions == s.sessions && a.faults != NO_FAULTS
  }

  predicate CloseStep(s: State, a: Action, s': State)
    requires a.Close?
  {
    && s'.fs == s.fs
    && if a.did !in s.sessions then s'.sessions == s.sessions
       else if s.sessions[a.did].refs > 1 then
         Sets(s.sessions, s'.sessions, a.did, s.sessions[a.did].(refs := s.sessions[a.did].refs - 1))
       else s'.sessions == s.sessions - {a.did}
  }

  /** On a new day the files are closed and the new day's opened; if that fails none are open. */
  ghost predicate RollStep(maxBytes: nat, s: State, a: Action, s': State)
    requires a.Roll?
  {
    && a.did in s.sessions
    && if s.sessions[a.did].day == Some(a.today) then s' == s
       else
         && Created(s.fs, s'.fs, a.did)
         && a.did in s'.sessions && Sets(s.sessions, s'.sessions, a.did, s'.sessions[a.did])
         && s'.sessions[a.did].refs == s.sessions[a.did].refs
         && (|| Started(s.fs, s'.fs, a.did, s'.sessions[a.did], a.today, maxBytes)
             || (s'.sessions[a.did] == Session(s.sessions[a.did].refs, None, None, None) && a.faults != NO_FAULTS))
  }

  /** A file that is open takes the line, unless rotating it fails and leaves no file open. Without failures the part
      changes exactly when the line does not fit. */
  ghost predicate WriteStep(maxBytes: nat, s: State, a: Action, s': State)
    requires a.Write?
  {
    && a.did in s.sessions
    && Sets(s.sessions, s'.sessions, a.did, WithFile(s.sessions[a.did], a.ext, a.to))
    && var f := FileOf(s.sessions[a.did], a.ext);
       if a.to.Some? then
         && f.Some? && Wrote(s.fs, s'.fs, f.value, a.to.value, a.line, maxBytes)
         && (a.faults == NO_FAULTS && f.value.size + |a.line| > maxBytes ==> a.to.value.part > f.value.part)
       else s'.fs == s.fs && (f.None? || a.faults != NO_FAULTS)
  }

  ghost predicate Step(maxBytes: nat, s: State, a: Action, s': State) {
    match a
    case Open(_, _, _, _) => OpenStep(maxBytes, s, a, s')
    case Close(_) => CloseStep(s, a, s')
    case Roll(_, _, _) => RollStep(maxBytes, s, a, s')
    case Write(_, _, _, _, _) => WriteStep(maxBytes, s, a, s')
  }

  /** The device opening a session does not collide with one that has a session. */
  ghost predicate MayOpen(s: State, a: Action) {
    a.Open? ==> Apart(s.sessions.Keys + {a.did})
  }

  // ---- every step keeps what must hold ----

  lemma KeptSession(a: Files, b: Files, did: string, s: Session)
    requires SessionOk(a, did, s)
    requires (s.hex.Some? ==> Kept(a, b, s.hex.value)) && (s.txt.Some? ==> Kept(a, b, s.txt.value))
    ensures SessionOk(b, did, s)
  {
    if s.hex.Some? { KeptFile(a, b, s.hex.value); }
    if s.txt.Some? { KeptFile(a, b, s.txt.value); }
  }

  lemma OthersAfterOpen(a: Files, b: Files, sessions: Sessions, did: string)
    requires SessionsOk(a, sessions) && Created(a, b, did) && Apart(sessions.Keys + {did})
    ensures forall d :: d in sessions && d != did ==> SessionOk(b, d, sessions[d])
  {
    forall d | d in sessions && d != did ensures SessionOk(b, d, sessions[d]) {
      var s := sessions[d];
      if s.hex.Some? { CreatedKeeps(a, b, did, s.hex.value); }
      if s.txt.Some? { CreatedKeeps(a, b, did, s.txt.value); }
      KeptSession(a, b, d, s);
    }
  }

  lemma OthersAfterWrite(a: Files, b: Files, sessions: Sessions, did: string, ext: Ext)
    requires SessionsOk(a, sessions) && OnlyParts(a, b, did, ext) && Apart(sessions.Keys + {did})
    ensures forall d :: d in sessions && d != did ==> SessionOk(b, d, sessions[d])
  {
    forall d | d in sessions && d != did ensures SessionOk(b, d, sessions[d]) {
      var s := sessions[d];
      if s.hex.Some? { OnlyPartsKeeps(a, b, did, ext, s.hex.value); }
      if s.txt.Some? { OnlyPartsKeeps(a, b, did, ext, s.txt.value); }
      KeptSession(a, b, d, s);
    }
  }

  lemma WroteOnly(a: Files, b: Files, f: LogFile, g: LogFile, line: Data, maxBytes: nat)
    requires Wrote(a, b, f, g, line, maxBytes)
    ensures OnlyParts(a, b, f.did, f.ext)
  {
    assert IsPart(PathOf(g), f.did, f.ext);
    forall p | !IsPart(p, f.did, f.ext) ensures p in a <==> p in b {
      assert p in b <==> p in b.Keys;
    }
  }

  lemma OwnAfterWrite(a: Files, b: Files, did: string, ext: Ext, s: Session, f: LogFile, g: LogFile, line: Data,
                      maxBytes: nat)
    requires SessionOk(a, did, s) && FileOf(s, ext) == Some(f) && Wrote(a, b, f, g, line, maxBytes)
    ensures SessionOk(b, did, WithFile(s, ext, Some(g)))
  {
    WroteOnly(a, b, f, g, line, maxBytes);
    var other := if ext == Hex then s.txt else s.hex;
    if other.Some? {
      OnlyPartsKeeps(a, b, did, ext, other.value);
      KeptFile(a, b, other.value);
    }
  }

  /** Replacing one session. */
  lemma SetsOk(fs: Files, before: Sessions, after: Sessions, did: string, t: Session)
    requires forall d :: d in before && d != did ==> SessionOk(fs, d, before[d])
    requires SessionOk(fs, did, t) && Sets(before, after, did, t) && Apart(before.Keys + {did})
    ensures Good(State(fs, after))
  {
    assert after.Keys == before.Keys + {did};
  }

  lemma StepGood(maxBytes: nat, s: State, a: Action, s': State)
    requires Good(s) && Step(maxBytes, s, a, s') && MayOpen(s, a)
    ensures Good(s')
  {
    var did := a.did;
    assert did in s.sessions ==> s.sessions.Keys + {did} == s.sessions.Keys;
    match a
    case Open(_, _, _, _) => OpenGood(maxBytes, s, a, s');
    case Close(_) =>
      if did in s.sessions && s.sessions[did].refs > 1 {
        SetsOk(s.fs, s.sessions, s'.sessions, did, s'.sessions[did]);
      }
    case Roll(_, _, _) =>
      if s' != s {
        OthersAfterOpen(s.fs, s'.fs, s.sessions, did);
        SetsOk(s'.fs, s.sessions, s'.sessions, did, s'.sessions[did]);
      }
    case Write(_, _, _, _, _) => WriteGood(maxBytes, s, a, s');
  }

  lemma OpenGood(maxBytes: nat, s: State, a: Action, s': State)
    requires Good(s) && a.Open? && OpenStep(maxBytes, s, a, s') && MayOpen(s, a)
    ensures Good(s')
  {
    if a.did in s.sessions || a.ok {
      if a.did !in s.sessions { OthersAfterOpen(s.fs, s'.fs, s.sessions, a.did); }
      SetsOk(s'.fs, s.sessions, s'.sessions, a.did, s'.sessions[a.did]);
    } else {
      OthersAfterOpen(s.fs, s'.fs, s.sessions, a.did);
    }
  }

  lemma WriteGood(maxBytes: nat, s: State, a: Action, s': State)
    requires Good(s) && a.Write? && WriteStep(maxBytes, s, a, s')
    ensures Good(s')
  {
    var t := s.sessions[a.did];
    assert s.sessions.Keys + {a.did} == s.sessions.Keys;
    if a.to.Some? {
      var f, g := FileOf(t, a.ext).value, a.to.value;
      OwnAfterWrite(s.fs, s'.fs, a.did, a.ext, t, f, g, a.line, maxBytes);
      WroteOnly(s.fs, s'.fs, f, g, a.line, maxBytes);
      OthersAfterWrite(s.fs, s'.fs, s.sessions, a.did, a.ext);
    }
    SetsOk(s'.fs, s.sessions, s'.sessions, a.did, WithFile(t, a.ext, a.to));
  }

  lemma OpenedPart(a: Files, b: Files, f: LogFile, maxBytes: nat)
    requires FileOk(b, f) && f.size < maxBytes && b == a[PathOf(f) := Content(a, PathOf(f))]
    requires forall s :: 1 <= s < f.part ==> Full(a, PartPath(f.day, f.did, f.ext, s), maxBytes)
    ensures Opened(a, b, f, f.day, f.did, f.ext, maxBytes) && Untouched(a, b) && OnlyParts(a, b, f.did, f.ext)
    ensures b.Keys == a.Keys + {PathOf(f)} && IsPart(PathOf(f), f.did, f.ext)
  {
    JoinedSame(a, b, PartsOf(f));
    if NoLater(a, f) { StillNoLater(a, b, f, f); }
    if EmptyLater(a, f) { UntouchedLater(a, b, f); }
  }

  lemma UntouchedLater(a: Files, b: Files, f: LogFile)
    requires EmptyLater(a, f) && Untouched(a, b)
    ensures EmptyLater(b, f)
  {}

  lemma OpenedBoth(a: Files, mid: Files, b: Files, hex: LogFile, txt: LogFile, maxBytes: nat)
    requires Opened(a, mid, hex, hex.day, hex.did, Hex, maxBytes) && Untouched(a, mid)
    requires OnlyParts(a, mid, hex.did, Hex)
    requires Opened(mid, b, txt, txt.day, txt.did, Txt, maxBytes) && Untouched(mid, b)
    requires OnlyParts(mid, b, txt.did, Txt)
    requires hex.day == txt.day && hex.did == txt.did
    ensures Opened(a, b, hex, hex.day, hex.did, Hex, maxBytes) && Opened(a, b, txt, txt.day, txt.did, Txt, maxBytes)
  {
    OnlyPartsKeeps(mid, b, txt.did, Txt, hex);
    KeptFile(mid, b, hex);
    forall s | s >= 1
      ensures var p := PartPath(txt.day, txt.did, Txt, s); (p in a <==> p in mid) && Content(a, p) == Content(mid, p)
    {
      OthersKept(a, mid, hex.did, Hex, txt.day, txt.did, Txt, s);
    }
    JoinedSame(a, mid, PartsOf(txt));
    assert NoLater(a, txt) ==> NoLater(mid, txt);
    assert EmptyLater(a, txt) ==> EmptyLater(mid, txt);
  }

  // ---- the logger ----

  const NEWLINE: Byte := 0x0A

  function Line(text: Data): (line: Data)
    ensures line != []
  {
    text + [NEWLINE]
  }

  class FrameLogger {
    const maxBytes: nat
    var sessions: Sessions
    var fs: Files

    ghost function Now(): State
      reads this
    {
      State(fs, sessions)
    }

    ghost predicate Valid()
      reads this
    {
      maxBytes > 0 && Good(Now())
    }

    constructor (maxBytes: int, files: Files)
      ensures Valid() && Now() == State(files, map[])
      ensures this.maxBytes == if maxBytes <= 0 then 104857600 else maxBytes
    {
      this.maxBytes := if maxBytes <= 0 then 104857600 else maxBytes;
      sessions, fs := map[], files;
    }

    // ---- parts ----

    /** openLogPart: the first part from `part` on that is not full, created if it does not exist. */
    method OpenPart(day: int, did: string, ext: Ext, part: nat, faults: Faults) returns (r: Option<LogFile>)
      requires part >= 1 && maxBytes > 0
      modifies this`fs
      ensures r.Some? ==>
                var f := r.value;
                && f.day == day && f.did == did && f.ext == ext && f.part >= part
                && FileOk(fs, f) && f.size < maxBytes && f.size == |Content(old(fs), PathOf(f))|
                && fs == old(fs)[PathOf(f) := Content(old(fs), PathOf(f))]
                && forall s :: part <= s < f.part ==> Full(old(fs), PartPath(day, did, ext, s), maxBytes)
      ensures r.None? ==> fs == old(fs) && faults != NO_FAULTS
    {
      var s := part;
      while true
        invariant part <= s && fs == old(fs)
        invariant forall t :: part <= t < s ==> Full(fs, PartPath(day, did, ext, t), maxBytes)
        decreases FullFrom(fs, day, did, ext, s, maxBytes)
      {
        var path := PartPath(day, did, ext, s);
        if path in faults.stat { return None; }
        if path in fs && |fs[path]| >= maxBytes {
          FullShrinks(fs, day, did, ext, s, maxBytes);
          s := s + 1;
          continue;
        }
        if path in faults.open { return None; }
        var size := if path in fs then |fs[path]| else 0;
        fs := fs[path := Content(fs, path)];
        return Some(LogFile(day, did, ext, s, size));
      }
    }

    /** rotate: close the part and open the next; if that fails, try to go on with the old one. */
    method Rotate(f: LogFile, faults: Faults) returns (r: Option<LogFile>)
      requires maxBytes > 0 && FileOk(fs, f)
      modifies this`fs
      ensures r.Some? ==>
                var g := r.value;
                && g.day == f.day && g.did == f.did && g.ext == f.ext && g.part >= f.part
                && FileOk(fs, g) && g.size < maxBytes
                && fs == old(fs)[PathOf(g) := Content(old(fs), PathOf(g))]
                && forall s :: f.part < s < g.part ==> Full(old(fs), PartPath(f.day, f.did, f.ext, s), maxBytes)
      ensures r.Some? && faults == NO_FAULTS ==> r.value.part > f.part
      ensures r.None? ==> fs == old(fs) && faults != NO_FAULTS
    {
      r := OpenPart(f.day, f.did, f.ext, f.part + 1, faults);
      if r.None? {
        r := OpenPart(f.day, f.did, f.ext, f.part, faults);
      }
    }

    /** writeLine: rotate first if the line does not fit; a file that is not open takes nothing. */
    method WriteLine(file: Option<LogFile>, line: Data, faults: Faults) returns (r: Option<LogFile>)
      requires maxBytes > 0 && line != [] && (file.Some? ==> FileOk(fs, file.value))
      modifies this`fs
      ensures r.Some? ==> file.Some? && Wrote(old(fs), fs, file.value, r.value, line, maxBytes)
      ensures r.Some? && faults == NO_FAULTS && file.value.size + |line| > maxBytes ==> r.value.part > file.value.part
      ensures r.None? ==> fs == old(fs) && (file.None? || faults != NO_FAULTS)
    {
      if file.None? { return None; }
      var f := file.value;
      if f.size + |line| > maxBytes {
        r := Rotate(f, faults);
        if r.None? { return; }
        f := r.value;
      }
      var p := PathOf(f);
      fs := fs[p := fs[p] + line];
      r := Some(f.(size := f.size + |line|));
    }

    // ---- sessions ----

    /** open of logSession: the day folder, then the first .hex and .txt parts with room. */
    method OpenFiles(did: string, today: int, faults: Faults) returns (r: Option<(LogFile, LogFile)>)
      requires maxBytes > 0
      modifies this`fs
      ensures Created(old(fs), fs, did)
      ensures r.Some? ==>
                && Opened(old(fs), fs, r.value.0, today, did, Hex, maxBytes)
                && Opened(old(fs), fs, r.value.1, today, did, Txt, maxBytes)
      ensures r.None? ==> faults != NO_FAULTS
    {
      if faults.mkdir { return None; }
      var hex := OpenPart(today, did, Hex, 1, faults);
      if hex.None? { return None; }
      ghost var mid := fs;
      OpenedPart(old(fs), mid, hex.value, maxBytes);
      var txt := OpenPart(today, did, Txt, 1, faults);
      if txt.None? { return None; }
      OpenedPart(mid, fs, txt.value, maxBytes);
      OpenedBoth(old(fs), mid, fs, hex.value, txt.value, maxBytes);
      return Some((hex.value, txt.value));
    }

    /** Open: a session that is already open is shared, otherwise its files are opened. The cached sizes stay right
        unless the device collides with one that has a session. */
    method Open(did: string, today: int, faults: Faults) returns (ok: bool)
      requires Valid()
      modifies this`fs, this`sessions
      ensures Step(maxBytes, old(Now()), Action.Open(Sanitize(did), today, faults, ok), Now())
      ensures Apart(old(sessions).Keys + {Sanitize(did)}) ==> Valid()
    {
      var key := SanitizeDID(did);
      ok := true;
      if key in sessions {
        sessions := sessions[key := sessions[key].(refs := sessions[key].refs + 1)];
      } else {
        var files := OpenFiles(key, today, faults);
        if files.Some? {
          sessions := sessions[key := Session(1, Some(today), Some(files.value.0), Some(files.value.1))];
        } else {
          ok := false;
        }
      }
      if Apart(old(sessions).Keys + {key}) {
        StepGood(maxBytes, old(Now()), Action.Open(key, today, faults, ok), Now());
      }
    }

    /** Close: the files are closed and the session forgotten when its last holder leaves. */
    method Close(did: string)
      requires Valid()
      modifies this`sessions
      ensures Valid() && Step(maxBytes, old(Now()), Action.Close(Sanitize(did)), Now())
    {
      var key := SanitizeDID(did);
      if key in sessions {
        var s := sessions[key].(refs := sessions[key].refs - 1);
        if s.refs > 0 {
          sessions := sessions[key := s];
        } else {
          sessions := sessions - {key};
        }
      }
      StepGood(maxBytes, old(Now()), Action.Close(key), Now());
    }

    /** rolloverDay. */
    method Rollover(key: string, today: int, faults: Faults)
      requires Valid() && key in sessions
      modifies this`fs, this`sessions
      ensures Valid() && Step(maxBytes, old(Now()), Roll(key, today, faults), Now())
    {
      var s := sessions[key];
      if s.day != Some(today) {
        var files := OpenFiles(key, today, faults);
        var t := if files.Some? then Session(s.refs, Some(today), Some(files.value.0), Some(files.value.1))
                 else Session(s.refs, None, None, None);
        sessions := sessions[key := t];
      }
      StepGood(maxBytes, old(Now()), Roll(key, today, faults), Now());
    }

    /** writeLine on one of the session's files. */
    method Append(key: string, ext: Ext, line: Data, faults: Faults) returns (to: Option<LogFile>)
      requires Valid() && key in sessions && line != []
      modifies this`fs, this`sessions
      ensures Valid() && Step(maxBytes, old(Now()), Write(key, ext, line, faults, to), Now())
    {
      var s := sessions[key];
      to := WriteLine(FileOf(s, ext), line, faults);
      sessions := sessions[key := WithFile(s, ext, to)];
      StepGood(maxBytes, old(Now()), Write(key, ext, line, faults, to), Now());
    }

    /** LogHex and LogTxt: nothing without a session, otherwise the rollover and then the write. */
    method Log(did: string, ext: Ext, text: Data, today: int, faults: Faults)
      returns (ghost mid: State, ghost to: Option<LogFile>)
      requires Valid()
      modifies this`fs, this`sessions
      ensures Valid()
      ensures Sanitize(did) !in old(sessions) ==> Now() == old(Now()) && to == None
      ensures Sanitize(did) in old(sessions) ==>
                && Step(maxBytes, old(Now()), Roll(Sanitize(did), today, faults), mid)
                && Step(maxBytes, mid, Write(Sanitize(did), ext, Line(text), faults, to), Now())
    {
      var key := SanitizeDID(did);
      mid, to := Now(), None;
      if key !in sessions { return; }
      Rollover(key, today, faults);
      mid := Now();
      to := Append(key, ext, Line(text), faults);
    }
  }
}
