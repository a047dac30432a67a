/** File names of the frame logger (SanitizeDID and openLogPart of internal/tcp/framelog.go). */
module PartNames {

  datatype Ext = Hex | Txt

  function ExtName(e: Ext): (s: string)
    ensures |s| == 4
  {
    match e
    case Hex => ".hex"
    case Txt => ".txt"
  }

  // ---- decimal part numbers ----

  function Digit(d: nat): char
    requires d < 10
  {
    '0' + d as char
  }

  /** %d. */
  function Decimal(n: nat): (s: string)
    ensures s != [] && forall i :: 0 <= i < |s| ==> '0' <= s[i] <= '9'
  {
    if n < 10 then [Digit(n)] else Decimal(n / 10) + [Digit(n % 10)]
  }

  function Value(s: string): nat
    requires forall i :: 0 <= i < |s| ==> '0' <= s[i] <= '9'
  {
    if s == [] then 0 else Value(s[..|s| - 1]) * 10 + (s[|s| - 1] as int - '0' as int)
  }

  lemma {:induction false} ValueDecimal(n: nat)
    ensures Value(Decimal(n)) == n
  {
    if n >= 10 {
      ValueDecimal(n / 10);
      assert Decimal(n)[..|Decimal(n)| - 1] == Decimal(n / 10);
    } else {
      assert Decimal(n)[..0] == [];
    }
  }

  // ---- part names ----

  function Suffix(part: nat): string {
    if part > 1 then "." + Decimal(part) else ""
  }

  /** <DID><ext> for part 1, <DID>.<part><ext> after that. */
  function PartName(did: string, part: nat, ext: Ext): string {
    did + Suffix(part) + ExtName(ext)
  }

  lemma {:induction false} NoLeadingZero(n: nat)
    requires n > 0
    ensures Decimal(n)[0] != '0'
  {
    if n >= 10 { NoLeadingZero(n / 10); }
  }

  /** What the file names look like: part 1 is the name itself, later parts have their decimal number after a dot. */
  lemma PartNameIs(did: string, part: nat)
    ensures PartName(did, 1, Hex) == did + ".hex" && PartName(did, 1, Txt) == did + ".txt"
    ensures part > 1 ==>
              && PartName(did, part, Hex) == did + "." + Decimal(part) + ".hex"
              && PartName(did, part, Txt) == did + "." + Decimal(part) + ".txt"
              && Value(Decimal(part)) == part && Decimal(part)[0] != '0'
  {
    assert did + "" == did;
    if part > 1 {
      ValueDecimal(part);
      NoLeadingZero(part);
      assert did + ("." + Decimal(part)) == did + "." + Decimal(part);
    }
  }

  lemma SuffixInjective(s: nat, t: nat)
    requires s >= 1 && t >= 1 && Suffix(s) == Suffix(t)
    ensures s == t
  {
    if s > 1 && t > 1 {
      assert Suffix(s)[1..] == Decimal(s) && Suffix(t)[1..] == Decimal(t);
      ValueDecimal(s);
      ValueDecimal(t);
    }
  }

  /** `d` is `e` followed by what looks like a part number. */
  ghost predicate Shadows(d: string, e: string) {
    exists part: nat :: part > 1 && d == e + Suffix(part)
  }

  lemma NameSplit(did: string, part: nat, ext: Ext)
    ensures var n := PartName(did, part, ext);
            n[..|n| - 4] == did + Suffix(part) && n[|n| - 4..] == ExtName(ext)
  {}

  /** The last dot of a suffix is its first character. */
  lemma SameDots(d: string, s: nat, e: string, t: nat)
    requires s > 1 && t > 1 && d + Suffix(s) == e + Suffix(t)
    ensures d == e && s == t
  {
    var x := d + Suffix(s);
    assert x[|d|] == '.' && x[|e|] == '.';
    assert forall i :: |d| < i < |x| ==> x[i] == Suffix(s)[i - |d|];
    assert forall i :: |e| < i < |x| ==> x[i] == Suffix(t)[i - |e|];
    assert |d| == |e|;
    assert d == x[..|d|] && e == x[..|e|];
    assert Suffix(s) == x[|d|..] && Suffix(t) == x[|e|..];
    SuffixInjective(s, t);
  }

  /** Exactly when two parts have the same file name, for names that are sanitised ids: they are the same part, or one
      name is the other followed by a dot and a part number, and its first part meets that part. */
  lemma NamesCollide(d: string, s: nat, x: Ext, e: string, t: nat, y: Ext)
    requires s >= 1 && t >= 1
    ensures PartName(d, s, x) == PartName(e, t, y) <==>
              && x == y
              && ((d == e && s == t)
                  || (s == 1 && t > 1 && d == e + Suffix(t))
                  || (t == 1 && s > 1 && e == d + Suffix(s)))
  {
    NameSplit(d, s, x);
    NameSplit(e, t, y);
    assert d + "" == d && e + "" == e;
    if PartName(d, s, x) == PartName(e, t, y) {
      assert ExtName(x) == ExtName(y);
      assert x == y by { assert ExtName(Hex)[1] != ExtName(Txt)[1]; }
      assert d + Suffix(s) == e + Suffix(t);
      if s > 1 && t > 1 { SameDots(d, s, e, t); }
    }
  }

  /** Different sanitised ids whose part names can meet. */
  ghost predicate Collide(d: string, e: string) {
    d != e && (Shadows(d, e) || Shadows(e, d))
  }

  /** Part names of sanitised ids that do not collide are never shared between ids, numbers or extensions. */
  lemma NamesApart(d: string, s: nat, x: Ext, e: string, t: nat, y: Ext)
    requires s >= 1 && t >= 1 && !Collide(d, e)
    requires (d, s, x) != (e, t, y)
    ensures PartName(d, s, x) != PartName(e, t, y)
  {
    NamesCollide(d, s, x, e, t, y);
    if d == e + Suffix(t) && d == e { assert |Suffix(t)| == 0; }
    if e == d + Suffix(s) && d == e { assert |Suffix(s)| == 0; }
  }

  /** Two ids that do collide: "N" with its second part and "N.2" with its first. */
  lemma CollisionExample()
    ensures Collide("N.2", "N") && PartName("N", 2, Hex) == PartName("N.2", 1, Hex)
  {
    assert Decimal(2) == "2";
    assert Suffix(2) == ".2";
    assert "N.2" == "N" + Suffix(2);
  }

  // ---- device ids in file names ----

  predicate Allowed(c: char) {
    'a' <= c <= 'z' || 'A' <= c <= 'Z' || '0' <= c <= '9' || c == '.' || c == '_' || c == '-'
  }

  function Clean(c: char): char {
    if Allowed(c) then c else '_'
  }

  function Cleaned(did: string): (s: string)
    ensures |s| == |did|
  {
    seq(|did|, i requires 0 <= i < |did| => Clean(did[i]))
  }

  /** The name a device has in file names: its id with other characters replaced, except for three ids that are no
      names. */
  function Sanitize(did: string): (s: string)
    ensures s != "" && s != "." && s != ".." && forall i :: 0 <= i < |s| ==> Allowed(s[i])
    ensures did == "" || did == "." || did == ".." ==> s == "unknown"
    ensures !(did == "" || did == "." || did == "..") ==>
              |s| == |did| && forall i :: 0 <= i < |did| ==> s[i] == if Allowed(did[i]) then did[i] else '_'
  {
    var s := Cleaned(did);
    if s == "" || s == "." || s == ".." then "unknown" else s
  }

  /** SanitizeDID. */
  method SanitizeDID(did: string) returns (s: string)
    ensures s == Sanitize(did)
  {
    s := "";
    for i := 0 to |did|
      invariant s == Cleaned(did[..i])
    {
      s := s + [if Allowed(did[i]) then did[i] else '_'];
    }
    assert did[..|did|] == did;
    if s == "" || s == "." || s == ".." {
      s := "unknown";
    }
  }

  /** Sanitised ids stay as they are. */
  lemma SanitizeIdempotent(did: string)
    ensures Sanitize(Sanitize(did)) == Sanitize(did)
  {
    assert Cleaned(Sanitize(did)) == Sanitize(did);
  }

  // ---- devices that share files ----

  /** The ids that have no name of their own in file names. */
  predicate Nameless(did: string) {
    did == "" || did == "." || did == ".." || did == "unknown"
  }

  /** Ids that agree up to characters not allowed in file names. */
  predicate Alike(d: string, e: string) {
    || (|d| == |e| && forall i :: 0 <= i < |d| ==> Clean(d[i]) == Clean(e[i]))
    || (Nameless(d) && Nameless(e))
  }

  lemma SanitizedNameless(did: string)
    ensures Sanitize(did) == "unknown" <==> Nameless(did)
  {
    if Sanitize(did) == "unknown" && did != "" && did != "." && did != ".." {
      assert |did| == |"unknown"|;
      forall i | 0 <= i < |did| ensures did[i] == "unknown"[i] { assert Sanitize(did)[i] == "unknown"[i]; }
      assert did == "unknown";
    }
  }

  lemma CleanedDots(did: string)
    ensures Cleaned(did) == "." ==> did == "."
    ensures Cleaned(did) == ".." ==> did == ".."
  {
    if Cleaned(did) == "." || Cleaned(did) == ".." {
      forall i | 0 <= i < |did| ensures did[i] == '.' { assert Clean(did[i]) == Cleaned(did)[i] == '.'; }
    }
  }

  lemma SanitizedNamed(did: string)
    requires !Nameless(did)
    ensures Sanitize(did) == Cleaned(did)
  {
    CleanedDots(did);
  }

  lemma CleanedSame(d: string, e: string)
    ensures Cleaned(d) == Cleaned(e) <==> |d| == |e| && forall i :: 0 <= i < |d| ==> Clean(d[i]) == Clean(e[i])
  {
    if Cleaned(d) == Cleaned(e) {
      forall i | 0 <= i < |d| ensures Clean(d[i]) == Clean(e[i]) { assert Cleaned(d)[i] == Cleaned(e)[i]; }
    }
  }

  lemma AlikeNameless(d: string, e: string)
    requires Nameless(d) && |d| == |e| && forall i :: 0 <= i < |d| ==> Clean(d[i]) == Clean(e[i])
    ensures d == e
  {
    forall i | 0 <= i < |d| ensures d[i] == e[i] { assert Allowed(d[i]) && d[i] != '_'; }
  }

  /** Exactly when two ids have the same name, and with it the same session and the same files. */
  lemma SanitizeSame(d: string, e: string)
    ensures Sanitize(d) == Sanitize(e) <==> Alike(d, e)
  {
    SanitizedNameless(d);
    SanitizedNameless(e);
    CleanedSame(d, e);
    if !Nameless(d) && !Nameless(e) {
      SanitizedNamed(d);
      SanitizedNamed(e);
    } else if |d| == |e| && forall i :: 0 <= i < |d| ==> Clean(d[i]) == Clean(e[i]) {
      if Nameless(d) { AlikeNameless(d, e); } else { AlikeNameless(e, d); }
    }
  }

  /** Exactly when parts of two devices are the same file. */
  lemma DevicePartsMeet(d: string, s: nat, x: Ext, e: string, t: nat, y: Ext)
    requires s >= 1 && t >= 1
    ensures PartName(Sanitize(d), s, x) == PartName(Sanitize(e), t, y) <==>
              && x == y
              && ((Alike(d, e) && s == t)
                  || (s == 1 && t > 1 && Sanitize(d) == Sanitize(e) + Suffix(t))
                  || (t == 1 && s > 1 && Sanitize(e) == Sanitize(d) + Suffix(s)))
  {
    SanitizeSame(d, e);
    NamesCollide(Sanitize(d), s, x, Sanitize(e), t, y);
  }

  /** Some part of the one is a part of the other. */
  ghost predicate ShareFile(d: string, e: string) {
    exists s: nat, t: nat, x, y :: s >= 1 && t >= 1 && PartName(Sanitize(d), s, x) == PartName(Sanitize(e), t, y)
  }

  /** Exactly when two devices share a file: their ids are alike, or the names collide. */
  lemma ShareFileExactly(d: string, e: string)
    ensures ShareFile(d, e) <==> Alike(d, e) || Collide(Sanitize(d), Sanitize(e))
  {
    SanitizeSame(d, e);
    var n, m := Sanitize(d), Sanitize(e);
    if ShareFile(d, e) {
      var s: nat, t: nat, x, y :| s >= 1 && t >= 1 && PartName(n, s, x) == PartName(m, t, y);
      if !Alike(d, e) && !Collide(n, m) { NamesApart(n, s, x, m, t, y); }
    }
    if Alike(d, e) {
      assert PartName(n, 1, Hex) == PartName(m, 1, Hex);
    } else if Shadows(n, m) {
      var t: nat :| t > 1 && n == m + Suffix(t);
      NamesCollide(n, 1, Hex, m, t, Hex);
    } else if Shadows(m, n) {
      var s: nat :| s > 1 && m == n + Suffix(s);
      NamesCollide(n, s, Hex, m, 1, Hex);
    }
  }

  /** Different ids with the same files: "N 1" and "N_1"; and with one file in common: "a b.2" and "a_b". */
  lemma AlikeExample()
    ensures Alike("N 1", "N_1") && Sanitize("N 1") == Sanitize("N_1")
    ensures !Alike("a b.2", "a_b") && PartName(Sanitize("a b.2"), 1, Hex) == PartName(Sanitize("a_b"), 2, Hex)
  {
    SanitizeSame("N 1", "N_1");
    SanitizeSame("a b.2", "a_b.2");
    assert Sanitize("a_b.2") == "a_b.2" && Sanitize("a_b") == "a_b";
    assert Suffix(2) == ".2" by { assert Decimal(2) == "2"; }
    assert "a_b.2" == "a_b" + ".2";
  }
}
