/** Challenge layout and lifetime (internal/tcp/crypto.go). Instants are integer nanoseconds of Unix time.
    Keys and signatures are opaque: the RSASSA-PKCS1-v1_5 check of section 8.2 of RFC 8017 is a parameter. */
module Challenges {
  import opened Bytes
  import opened Instants

  type Pem = Data

  /** The foreign cryptography: which key texts parse, and which signatures verify. */
  datatype Crypto = Crypto(parses: Pem -> bool, verifies: (Pem, Data, Data) -> bool)

  const CHALLENGE_SIZE := 32
  const TIMESTAMP_SIZE := 8
  const TTL := 300000 * MILLISECOND
  const TWO64 := 0x1_0000_0000_0000_0000

  type Nonce = s: Data | |s| == CHALLENGE_SIZE witness seq(CHALLENGE_SIZE, _ => 0)

  /** Instants whose millisecond count is an int64. */
  type Instant = t: int | -0x8000_0000_0000_0000 <= Millis(t) < 0x8000_0000_0000_0000

  /** uint64(x) and int64(n). */
  function Unsigned64(x: int): nat {
    x % TWO64
  }

  function Signed64(n: nat): int {
    if n < 0x8000_0000_0000_0000 then n else n - TWO64
  }

  function Uint64Bytes(x: int): (s: Data)
    ensures |s| == 8
  {
    ToLE(Unsigned64(x), 8)
  }

  /** A millisecond count survives the trip through eight little-endian bytes. */
  lemma TimestampBytes(x: int)
    requires -0x8000_0000_0000_0000 <= x < 0x8000_0000_0000_0000
    ensures Signed64(FromLE(Uint64Bytes(x))) == x
  {
    Pow256Values();
    FromToLE(Unsigned64(x), 8);
  }

  /** The 40-byte challenge: nonce first, then the time of issue. */
  function Challenge(nonce: Nonce, now: Instant): (c: Data)
    ensures |c| == CHALLENGE_SIZE + TIMESTAMP_SIZE
  {
    nonce + Uint64Bytes(Millis(now))
  }

  /** GenerateChallenge; `nonce` is None when the random source fails. */
  method GenerateChallenge(nonce: Option<Nonce>, now: Instant) returns (r: Option<Data>)
    ensures nonce.None? ==> r == None
    ensures nonce.Some? ==> r == Some(Challenge(nonce.value, now))
  {
    if nonce.None? { return None; }
    var challenge := new Byte[CHALLENGE_SIZE + TIMESTAMP_SIZE](_ => 0);
    Copy(challenge, 0, nonce.value);
    Copy(challenge, CHALLENGE_SIZE, Uint64Bytes(Millis(now)));
    assert challenge[..] == Challenge(nonce.value, now);
    r := Some(challenge[..]);
  }

  /** ExtractTimestamp: the time of issue in nanoseconds, rounded down to the millisecond. */
  function ExtractTimestamp(c: Data): Option<int> {
    if |c| < CHALLENGE_SIZE + TIMESTAMP_SIZE then None
    else Some(Signed64(FromLE(c[CHALLENGE_SIZE..CHALLENGE_SIZE + TIMESTAMP_SIZE])) * MILLISECOND)
  }

  lemma IssueTime(nonce: Nonce, now: Instant)
    ensures ExtractTimestamp(Challenge(nonce, now)) == Some(Millis(now) * MILLISECOND)
  {
    TimestampBytes(Millis(now));
    assert Challenge(nonce, now)[CHALLENGE_SIZE..CHALLENGE_SIZE + TIMESTAMP_SIZE] == Uint64Bytes(Millis(now));
  }

  /** IsChallengeExpired for a challenge that has a timestamp. */
  predicate Expired(c: Data, now: int) {
    match ExtractTimestamp(c)
    case None => true
    case Some(ts) => now - ts > TTL
  }

  /** Exactly when a challenge has expired; rounding shortens its life by less than a millisecond. */
  lemma ExpiryExactly(nonce: Nonce, issued: Instant, now: int)
    ensures TTL == 5 * 60 * 1_000_000_000
    ensures Expired(Challenge(nonce, issued), now) <==> now - Millis(issued) * MILLISECOND > TTL
    ensures now - issued > TTL ==> Expired(Challenge(nonce, issued), now)
    ensures now - issued <= TTL - MILLISECOND ==> !Expired(Challenge(nonce, issued), now)
  {
    IssueTime(nonce, issued);
  }

  // ---- device ids ----

  const DEVICE_ID_SIZE := 14

  predicate Blank(b: Byte) {
    b == 0 || b == 0x20
  }

  /** `s` without its trailing NULs and spaces. */
  function Trim(s: Data): (r: Data)
    ensures r <= s
    ensures r == [] || !Blank(r[|r| - 1])
    ensures forall i :: |r| <= i < |s| ==> Blank(s[i])
  {
    if s != [] && Blank(s[|s| - 1]) then Trim(s[..|s| - 1]) else s
  }

  /** Those three properties leave no choice. */
  lemma TrimUnique(s: Data, r: Data)
    requires r <= s && (r == [] || !Blank(r[|r| - 1]))
    requires forall i :: |r| <= i < |s| ==> Blank(s[i])
    ensures r == Trim(s)
  {
    var t := Trim(s);
    assert |r| == |t|;
  }

  /** TrimDeviceID. */
  method TrimDeviceID(b: Data) returns (r: Data)
    ensures r == Trim(b)
  {
    var i := |b| - 1;
    while i >= 0
      invariant -1 <= i < |b|
      invariant forall k :: i < k < |b| ==> Blank(b[k])
    {
      if b[i] != 0 && b[i] != 0x20 {
        TrimUnique(b, b[..i + 1]);
        return b[..i + 1];
      }
      i := i - 1;
    }
    TrimUnique(b, []);
    return [];
  }

  /** padDeviceID and padID: cut or zero-filled to 14 bytes. */
  function Pad(id: Data): (s: Data)
    ensures |s| == DEVICE_ID_SIZE
  {
    if |id| >= DEVICE_ID_SIZE then id[..DEVICE_ID_SIZE]
    else id + seq(DEVICE_ID_SIZE - |id|, _ => 0)
  }

  /** Trimming recovers exactly the ids of at most 14 bytes that do not end in NUL or space. */
  lemma TrimPad(id: Data)
    ensures Trim(Pad(id)) == id <==> |id| <= 14 && (id == [] || (id[|id| - 1] != 0 && id[|id| - 1] != 0x20))
  {
    if |id| <= DEVICE_ID_SIZE && (id == [] || !Blank(id[|id| - 1])) {
      TrimUnique(Pad(id), id);
    }
  }
}
