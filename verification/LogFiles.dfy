/** The files of the frame logger (internal/tcp/framelog.go): a map from path to content, the parts of a device's
    log, and what appending lines to them means. Days are numbers; `Faults` says which stat, open and mkdir calls
    fail. Writes to an open file succeed. */
module LogFiles {
  import opened Bytes
  import opened Sequences
  import opened PartNames

  datatype Path = Path(day: int, name: string)

  type Files = map<Path, Data>

  datatype Faults = Faults(stat: set<Path>, open: set<Path>, mkdir: bool)

  const NO_FAULTS := Faults({}, {}, false)

  /** An open part: which one it is, and the cached size. */
  datatype LogFile = LogFile(day: int, did: string, ext: Ext, part: nat, size: nat)

  function PartPath(day: int, did: string, ext: Ext, part: nat): Path {
    Path(day, PartName(did, part, ext))
  }

  function PathOf(f: LogFile): Path {
    PartPath(f.day, f.did, f.ext, f.part)
  }

  function Content(fs: Files, p: Path): Data {
    if p in fs then fs[p] else []
  }

  predicate Full(fs: Files, p: Path, maxBytes: nat) {
    p in fs && |fs[p]| >= maxBytes
  }

  /** The cached size is the length of the file. */
  predicate FileOk(fs: Files, f: LogFile) {
    f.part >= 1 && PathOf(f) in fs && f.size == |fs[PathOf(f)]|
  }

  // ---- the termination measure of openLogPart ----

  ghost predicate PartFrom(p: Path, day: int, did: string, ext: Ext, part: nat) {
    exists s: nat :: s >= part && p == PartPath(day, did, ext, s)
  }

  /** The full parts numbered `part` or higher. */
  ghost function FullFrom(fs: Files, day: int, did: string, ext: Ext, part: nat, maxBytes: nat): set<Path> {
    set p | p in fs && Full(fs, p, maxBytes) && PartFrom(p, day, did, ext, part)
  }

  lemma PartsApart(day: int, did: string, ext: Ext, s: nat, t: nat)
    requires s >= 1 && t >= 1 && s != t
    ensures PartPath(day, did, ext, s) != PartPath(day, did, ext, t)
  {
    NamesCollide(did, s, ext, did, t, ext);
    assert |did + Suffix(s)| == |did| + |Suffix(s)| && |did + Suffix(t)| == |did| + |Suffix(t)|;
  }

  lemma FullShrinks(fs: Files, day: int, did: string, ext: Ext, part: nat, maxBytes: nat)
    requires part >= 1 && Full(fs, PartPath(day, did, ext, part), maxBytes)
    ensures FullFrom(fs, day, did, ext, part + 1, maxBytes) < FullFrom(fs, day, did, ext, part, maxBytes)
  {
    var p := PartPath(day, did, ext, part);
    assert PartFrom(p, day, did, ext, part);
    assert p in FullFrom(fs, day, did, ext, part, maxBytes);
    if PartFrom(p, day, did, ext, part + 1) {
      var s: nat :| s >= part + 1 && p == PartPath(day, did, ext, s);
      PartsApart(day, did, ext, part, s);
    }
  }

  // ---- what appending a line means ----

  /** Exactly one file grew, by exactly this line, and it was not full before. */
  ghost predicate Landed(before: Files, after: Files, p: Path, line: Data, maxBytes: nat) {
    && Content(after, p) == Content(before, p) + line
    && p in after
    && (forall q :: q != p ==> Content(after, q) == Content(before, q))
    && |Content(before, p)| < maxBytes
  }

  /** No file's content changed; empty files may have been created. */
  ghost predicate Untouched(before: Files, after: Files) {
    before.Keys <= after.Keys && forall q :: Content(after, q) == Content(before, q)
  }

  // ---- parts read in order ----

  /** The contents of these files, one after the other. */
  function Joined(fs: Files, ps: seq<Path>): Data {
    if ps == [] then [] else Joined(fs, ps[..|ps| - 1]) + Content(fs, ps[|ps| - 1])
  }

  lemma JoinedLast(fs: Files, ps: seq<Path>, p: Path)
    ensures Joined(fs, ps + [p]) == Joined(fs, ps) + Content(fs, p)
  {
    assert (ps + [p])[..|ps|] == ps;
  }

  lemma {:induction false} JoinedSame(a: Files, b: Files, ps: seq<Path>)
    requires forall p :: p in ps ==> Content(a, p) == Content(b, p)
    ensures Joined(a, ps) == Joined(b, ps)
  {
    if ps != [] { JoinedSame(a, b, ps[..|ps| - 1]); }
  }

  lemma {:induction false} JoinedConcat(fs: Files, ps: seq<Path>, qs: seq<Path>)
    ensures Joined(fs, ps + qs) == Joined(fs, ps) + Joined(fs, qs)
  {
    if qs == [] {
      assert ps + qs == ps;
    } else {
      var n := |qs| - 1;
      JoinedConcat(fs, ps, qs[..n]);
      assert ps + qs == ps + qs[..n] + [qs[n]];
      JoinedLast(fs, ps + qs[..n], qs[n]);
      Regroup(Joined(fs, ps), Joined(fs, qs[..n]), Content(fs, qs[n]));
    }
  }

  lemma JoinedGrows(a: Files, b: Files, ps: seq<Path>, p: Path, line: Data, maxBytes: nat)
    requires p !in ps && Landed(a, b, p, line, maxBytes)
    ensures Joined(b, ps + [p]) == Joined(a, ps + [p]) + line
  {
    JoinedSame(a, b, ps);
    JoinedLast(a, ps, p);
    JoinedLast(b, ps, p);
  }

  /** A line written to a file with later files behind it lands between them. */
  lemma AppendBeforeLater(a: Files, b: Files, ps: seq<Path>, p: Path, qs: seq<Path>, line: Data, maxBytes: nat)
    requires p !in ps && p !in qs && Landed(a, b, p, line, maxBytes)
    ensures var later := Joined(a, qs);
            && Joined(b, ps + [p] + qs) == Joined(a, ps + [p]) + line + later
            && (Joined(b, ps + [p] + qs) == Joined(a, ps + [p] + qs) + line <==> line + later == later + line)
  {
    JoinedGrows(a, b, ps, p, line, maxBytes);
    JoinedSame(a, b, qs);
    JoinedConcat(a, ps + [p], qs);
    JoinedConcat(b, ps + [p], qs);
    Cancel(Joined(a, ps + [p]), line, Joined(a, qs));
  }

  lemma Cancel(x: Data, y: Data, z: Data)
    ensures x + y + z == x + z + y <==> y + z == z + y
  {
    assert x + y + z == x + (y + z) && x + z + y == x + (z + y);
    assert (x + (y + z))[|x|..] == y + z && (x + (z + y))[|x|..] == z + y;
  }

  /** Parts 1 to n. */
  function Parts(day: int, did: string, ext: Ext, n: nat): (ps: seq<Path>)
    ensures |ps| == n
  {
    if n == 0 then [] else Parts(day, did, ext, n - 1) + [PartPath(day, did, ext, n)]
  }

  lemma {:induction false} PartsAre(day: int, did: string, ext: Ext, n: nat)
    ensures forall i :: 0 <= i < n ==> Parts(day, did, ext, n)[i] == PartPath(day, did, ext, i + 1)
  {
    if n > 0 { PartsAre(day, did, ext, n - 1); }
  }

  lemma PartNotBefore(day: int, did: string, ext: Ext, n: nat, s: nat)
    requires s > n
    ensures PartPath(day, did, ext, s) !in Parts(day, did, ext, n)
  {
    PartsAre(day, did, ext, n);
    forall i | 0 <= i < n ensures Parts(day, did, ext, n)[i] != PartPath(day, did, ext, s) {
      PartsApart(day, did, ext, i + 1, s);
    }
  }

  /** No part after the open one exists. */
  ghost predicate NoLater(fs: Files, f: LogFile) {
    forall s :: s > f.part ==> PartPath(f.day, f.did, f.ext, s) !in fs
  }

  function PartsOf(f: LogFile): seq<Path> {
    Parts(f.day, f.did, f.ext, f.part)
  }

  /** No part after the open one holds anything. */
  ghost predicate EmptyLater(fs: Files, f: LogFile) {
    forall s :: s > f.part ==> Content(fs, PartPath(f.day, f.did, f.ext, s)) == []
  }

  /** The parts up to the open one spell `text`, and later parts hold nothing. */
  ghost predicate Spells(fs: Files, f: LogFile, text: Data) {
    f.part >= 1 && Joined(fs, PartsOf(f)) == text && EmptyLater(fs, f)
  }

  lemma StillNoLater(a: Files, b: Files, f: LogFile, g: LogFile)
    requires NoLater(a, f) && b.Keys == a.Keys + {PathOf(g)} && g.part >= f.part && g.part >= 1
    requires g.day == f.day && g.did == f.did && g.ext == f.ext
    ensures NoLater(b, g)
  {
    forall s | s > g.part ensures PartPath(g.day, g.did, g.ext, s) !in b {
      PartsApart(g.day, g.did, g.ext, s, g.part);
      assert PartPath(f.day, f.did, f.ext, s) !in a.Keys;
      assert PartPath(g.day, g.did, g.ext, s) !in b.Keys;
    }
  }

  lemma StillEmptyLater(a: Files, b: Files, f: LogFile, g: LogFile, line: Data, maxBytes: nat)
    requires EmptyLater(a, f) && Landed(a, b, PathOf(g), line, maxBytes) && g.part >= f.part && g.part >= 1
    requires g.day == f.day && g.did == f.did && g.ext == f.ext
    ensures EmptyLater(b, g)
  {
    forall s | s > g.part ensures Content(b, PartPath(g.day, g.did, g.ext, s)) == [] {
      PartsApart(g.day, g.did, g.ext, s, g.part);
      assert Content(a, PartPath(f.day, f.did, f.ext, s)) == [];
    }
  }

  /** Appending to the last part that holds anything, or going on with the next one, extends what the parts spell. */
  lemma SpellsAppend(a: Files, b: Files, f: LogFile, g: LogFile, line: Data, text: Data, maxBytes: nat)
    requires Spells(a, f, text) && Landed(a, b, PathOf(g), line, maxBytes)
    requires g.day == f.day && g.did == f.did && g.ext == f.ext
    requires g.part == f.part || g.part == f.part + 1
    ensures Spells(b, g, text + line)
  {
    var ps, p := Parts(g.day, g.did, g.ext, g.part - 1), PathOf(g);
    PartNotBefore(g.day, g.did, g.ext, g.part - 1, g.part);
    JoinedGrows(a, b, ps, p, line, maxBytes);
    StillEmptyLater(a, b, f, g, line, maxBytes);
    assert PartsOf(g) == ps + [p];
    if g.part == f.part + 1 {
      assert Content(a, p) == [];
      JoinedLast(a, ps, p);
      assert Joined(a, ps) + [] == text;
    }
  }

  // ---- files of other devices ----

  ghost predicate IsPart(p: Path, did: string, ext: Ext) {
    exists day: int, s: nat :: s >= 1 && p == PartPath(day, did, ext, s)
  }

  /** Nothing but parts of this device and extension was created or changed. */
  ghost predicate OnlyParts(a: Files, b: Files, did: string, ext: Ext) {
    forall p :: !IsPart(p, did, ext) ==> (p in a <==> p in b) && Content(a, p) == Content(b, p)
  }

  lemma OthersKept(a: Files, b: Files, did: string, ext: Ext, day: int, other: string, x: Ext, s: nat)
    requires OnlyParts(a, b, did, ext) && (did, ext) != (other, x) && !Collide(did, other) && s >= 1
    ensures var p := PartPath(day, other, x, s);
            (p in a <==> p in b) && Content(a, p) == Content(b, p)
  {
    NotItsPart(day, other, x, s, did, ext);
  }

  lemma NotItsPart(day: int, other: string, x: Ext, s: nat, did: string, ext: Ext)
    requires (did, ext) != (other, x) && !Collide(did, other) && s >= 1
    ensures !IsPart(PartPath(day, other, x, s), did, ext)
  {
    var p := PartPath(day, other, x, s);
    if IsPart(p, did, ext) {
      var e: int, t: nat :| t >= 1 && p == PartPath(e, did, ext, t);
      NamesApart(did, t, ext, other, s, x);
    }
  }

  /** The parts behind an open file are the same in both. */
  ghost predicate Kept(a: Files, b: Files, f: LogFile) {
    forall s :: s >= 1 ==>
      var p := PartPath(f.day, f.did, f.ext, s);
      (p in a <==> p in b) && Content(a, p) == Content(b, p)
  }

  lemma KeptFile(a: Files, b: Files, f: LogFile)
    requires Kept(a, b, f)
    ensures FileOk(a, f) ==> FileOk(b, f)
    ensures forall text :: Spells(a, f, text) ==> Spells(b, f, text)
    ensures f.part >= 1 && NoLater(a, f) ==> NoLater(b, f)
  {
    if f.part >= 1 {
      PartsAre(f.day, f.did, f.ext, f.part);
      JoinedSame(a, b, PartsOf(f));
    }
  }

  lemma OnlyPartsKeeps(a: Files, b: Files, did: string, ext: Ext, f: LogFile)
    requires OnlyParts(a, b, did, ext) && (did, ext) != (f.did, f.ext) && !Collide(did, f.did)
    ensures Kept(a, b, f)
  {
    forall s | s >= 1
      ensures var p := PartPath(f.day, f.did, f.ext, s); (p in a <==> p in b) && Content(a, p) == Content(b, p)
    {
      OthersKept(a, b, did, ext, f.day, f.did, f.ext, s);
    }
  }

  /** Files of the device were created, empty, and no other file was touched. */
  ghost predicate Created(a: Files, b: Files, did: string) {
    && Untouched(a, b)
    && forall p :: p in b && p !in a ==> IsPart(p, did, Hex) || IsPart(p, did, Txt)
  }

  lemma CreatedKeeps(a: Files, b: Files, did: string, f: LogFile)
    requires Created(a, b, did) && did != f.did && !Collide(did, f.did)
    ensures Kept(a, b, f)
  {
    forall s | s >= 1
      ensures var p := PartPath(f.day, f.did, f.ext, s); (p in a <==> p in b) && Content(a, p) == Content(b, p)
    {
      NotItsPart(f.day, f.did, f.ext, s, did, Hex);
      NotItsPart(f.day, f.did, f.ext, s, did, Txt);
    }
  }

  // ---- the whole run ----

  /** A line and the file it went to. */
  datatype LogLine = LogLine(path: Path, line: Data)

  /** What a file holds after these lines were appended to the files there were at the start. */
  function After(start: Files, log: seq<LogLine>, p: Path): Data {
    if log == [] then Content(start, p)
    else
      var before := After(start, log[..|log| - 1], p);
      if log[|log| - 1].path == p then before + log[|log| - 1].line else before
  }

  /** Every line went to a file that was not full. */
  ghost predicate NoneFull(start: Files, log: seq<LogLine>, maxBytes: nat) {
    forall i :: 0 <= i < |log| ==> |After(start, log[..i], log[i].path)| < maxBytes
  }

  ghost predicate Recorded(start: Files, log: seq<LogLine>, fs: Files, maxBytes: nat) {
    && (forall p {:trigger After(start, log, p)} :: Content(fs, p) == After(start, log, p))
    && NoneFull(start, log, maxBytes)
  }

  lemma RecordedAppend(start: Files, log: seq<LogLine>, a: Files, b: Files, p: Path, line: Data, maxBytes: nat)
    requires Recorded(start, log, a, maxBytes) && Landed(a, b, p, line, maxBytes)
    ensures Recorded(start, log + [LogLine(p, line)], b, maxBytes)
  {
    var grown := log + [LogLine(p, line)];
    assert grown[..|log|] == log;
    assert forall i :: 0 <= i < |log| ==> grown[..i] == log[..i];
    assert |After(start, log, p)| < maxBytes;
  }

  lemma RecordedUntouched(start: Files, log: seq<LogLine>, a: Files, b: Files, maxBytes: nat)
    requires Recorded(start, log, a, maxBytes) && Untouched(a, b)
    ensures Recorded(start, log, b, maxBytes)
  {}

  /** The rotation bound: a file some line went to stays below the limit plus its last line. */
  lemma {:induction false} RotationBound(start: Files, log: seq<LogLine>, k: nat, maxBytes: nat)
    requires NoneFull(start, log, maxBytes) && k < |log|
    requires forall i :: k < i < |log| ==> log[i].path != log[k].path
    ensures |After(start, log, log[k].path)| < maxBytes + |log[k].line|
  {
    var n := |log| - 1;
    if k < n {
      NoneFullBefore(start, log, maxBytes);
      RotationBound(start, log[..n], k, maxBytes);
    }
  }

  lemma NoneFullBefore(start: Files, log: seq<LogLine>, maxBytes: nat)
    requires NoneFull(start, log, maxBytes) && log != []
    ensures NoneFull(start, log[..|log| - 1], maxBytes)
  {
    var short := log[..|log| - 1];
    forall i | 0 <= i < |short| ensures |After(start, short[..i], short[i].path)| < maxBytes {
      assert short[..i] == log[..i];
    }
  }
}
