/** The binary frame codec and the stream reader (internal/tcp/frame.go, FrameReader of crypto_server.go). */
module Frames {
  import opened Bytes
  import opened Sequences

  const PREAMBLE: Byte := 0x24
  const MIN_LEN := 6
  const MAX_DATA_LEN := 1024

  datatype Frame = Frame(addr: Byte, cmd: Byte, data: Data)

  predicate ValidFrame(f: Frame) {
    |f.data| <= MAX_DATA_LEN
  }

  /** Everything in front of the checksum. */
  function Head(f: Frame): (s: Data)
    ensures |s| == 5 + |f.data|
  {
    [PREAMBLE, f.addr, f.cmd] + ToLE(|f.data|, 2) + f.data
  }

  /** The wire image of a frame. */
  function Encode(f: Frame): (s: Data)
    ensures |s| == MIN_LEN + |f.data|
  {
    Head(f) + [XorAll(Head(f))]
  }

  /** The wire images of these frames, one after the other. */
  function EncodeAll(fs: seq<Frame>): Data {
    if fs == [] then [] else Encode(fs[0]) + EncodeAll(fs[1..])
  }

  // ---- codec ----

  /** Each bit of the checksum byte is the parity of that bit over all bytes in front of it. */
  ghost predicate ParityByte(crc: Byte, s: Data) {
    forall k: nat :: Bit(crc, k) == Ones(s, k) % 2
  }

  lemma XorIsParity(s: Data)
    ensures ParityByte(XorAll(s), s)
  {
    forall k: nat ensures Bit(XorAll(s), k) == Ones(s, k) % 2 { ChecksumBits(s, k); }
  }

  /** What is where in a wire image. */
  lemma WireLayout(f: Frame)
    requires |f.data| <= 1024
    ensures ValidFrame(f)
    ensures var w, n := Encode(f), |f.data|;
            && |w| == n + 6
            && w[0] == 0x24 && w[1] == f.addr && w[2] == f.cmd
            && w[3] as int + 256 * w[4] as int == n
            && w[5..n + 5] == f.data
            && ParityByte(w[n + 5], w[..n + 5])
  {
    var w, n := Encode(f), |f.data|;
    LengthFieldValue(f);
    assert w[3..5] == [w[3]] + [w[4]];
    FromLEConcat([w[3]], [w[4]]);
    FromLEConcat([w[4]], []);
    assert w[..n + 5] == Head(f);
    XorIsParity(Head(f));
  }

  /** crcCalc: XOR of all bytes. */
  method CrcCalc(buf: Data) returns (crc: Byte)
    ensures crc == XorAll(buf) && ParityByte(crc, buf)
  {
    XorIsParity(buf);
    if |buf| == 0 { return 0; }
    crc := buf[0];
    XorLaws(buf[0], 0, 0);
    assert buf[..1] == [buf[0]] && buf[..1][..0] == [];
    for i := 1 to |buf|
      invariant crc == XorAll(buf[..i])
    {
      assert buf[..i + 1][..i] == buf[..i];
      crc := Xor(crc, buf[i]);
    }
    assert buf[..|buf|] == buf;
  }

  /** EncodeFrame; the precondition is the condition of its panic. */
  method EncodeFrame(f: Frame) returns (buf: array<Byte>)
    requires ValidFrame(f)
    ensures fresh(buf) && buf[..] == Encode(f)
  {
    var n := |f.data|;
    var total := MIN_LEN + n;
    buf := new Byte[total](_ => 0);
    buf[0] := PREAMBLE;
    buf[1] := f.addr;
    buf[2] := f.cmd;
    assert buf[..3] == [PREAMBLE, f.addr, f.cmd];
    Copy(buf, 3, ToLE(n, 2));
    assert buf[..5] == [PREAMBLE, f.addr, f.cmd] + ToLE(n, 2);
    Copy(buf, 5, f.data);
    assert buf[..total - 1] == buf[..5] + f.data;
    var crc := CrcCalc(buf[..total - 1]);
    buf[total - 1] := crc;
    assert buf[..] == buf[..total - 1] + [crc];
  }

  lemma LengthFieldValue(f: Frame)
    requires ValidFrame(f)
    ensures Encode(f)[3..5] == ToLE(|f.data|, 2)
    ensures FromLE(Encode(f)[3..5]) == |f.data|
  {
    Pow256Values();
    FromToLE(|f.data|, 2);
    assert Encode(f)[3..5] == ToLE(|f.data|, 2);
  }

  /** No two frames share a wire image. */
  lemma EncodeInjective(f: Frame, g: Frame)
    requires ValidFrame(f) && ValidFrame(g) && Encode(f) == Encode(g)
    ensures f == g
  {
    assert f.addr == Encode(f)[1] && g.addr == Encode(g)[1];
    assert f.cmd == Encode(f)[2] && g.cmd == Encode(g)[2];
    assert f.data == Encode(f)[5..|Encode(f)| - 1];
    assert g.data == Encode(g)[5..|Encode(g)| - 1];
  }

  /** What decoding means: the frame whose wire image this is, if there is one. */
  ghost function Decode(raw: Data): Option<Frame> {
    if f: Frame :| ValidFrame(f) && Encode(f) == raw then Some(f) else None
  }

  /** Decoding undoes encoding. */
  lemma DecodeEncode(f: Frame)
    requires ValidFrame(f)
    ensures Decode(Encode(f)) == Some(f)
  {
    var r := Decode(Encode(f));
    assert r.Some?;
    EncodeInjective(f, r.value);
  }

  /** Raw bytes whose fields pass all checks of DecodeFrame are the image of those fields. */
  lemma ChecksMeanEncoding(raw: Data, f: Frame)
    requires |raw| >= MIN_LEN && raw[0] == PREAMBLE
    requires |raw| == MIN_LEN + FromLE(raw[3..5])
    requires f == Frame(raw[1], raw[2], raw[5..|raw| - 1])
    requires XorAll(raw[..|raw| - 1]) == raw[|raw| - 1]
    ensures Encode(f) == raw
  {
    ToFromLE(raw[3..5]);
    assert raw[..|raw| - 1] == raw[..3] + raw[3..5] + raw[5..|raw| - 1];
    assert raw[..|raw| - 1] == Head(f);
  }

  /** DecodeFrame with all its rejections. */
  method DecodeFrame(raw: Data) returns (r: Option<Frame>)
    ensures r == Decode(raw)
  {
    if f: Frame :| ValidFrame(f) && Encode(f) == raw {
      LengthFieldValue(f);
      DecodeEncode(f);
      assert raw[..|raw| - 1] == Head(f);
    }
    if |raw| < MIN_LEN { return None; }
    if raw[0] != PREAMBLE { return None; }
    var dataLen := FromLE(raw[3..5]);
    if dataLen > MAX_DATA_LEN { return None; }
    var expectedLen := MIN_LEN + dataLen;
    if |raw| != expectedLen { return None; }
    var expectedCrc := CrcCalc(raw[..expectedLen - 1]);
    if expectedCrc != raw[expectedLen - 1] { return None; }
    var f := Frame(raw[1], raw[2], raw[5..5 + dataLen]);
    ChecksMeanEncoding(raw, f);
    DecodeEncode(f);
    return Some(f);
  }

  /** Rewriting the address byte of a frame moves the checksum by the changed bits and nothing else. */
  lemma Readdress(f: Frame, addr: Byte)
    ensures var was := Encode(f);
            Encode(f.(addr := addr)) == was[1 := addr][|was| - 1 := Xor(was[|was| - 1], Xor(f.addr, addr))]
  {
    var g := f.(addr := addr);
    assert Head(g) == Head(f)[1 := addr];
    XorAllReplace(Head(f), 1, addr);
  }

  // ---- the stream reader ----

  /** `input` is junk free of preamble bytes, then one frame, then `rest`. */
  ghost predicate Splits(input: Data, junk: Data, f: Frame, rest: Data) {
    && ValidFrame(f)
    && PREAMBLE !in junk
    && input == junk + Encode(f) + rest
  }

  /** A split places the frame at the first preamble byte. */
  lemma NextPreamble(whole: Data, junk: Data, tail: Data, j: Data, f: Frame, rest: Data)
    requires whole == junk + tail && tail != [] && tail[0] == PREAMBLE && PREAMBLE !in junk
    requires Splits(whole, j, f, rest)
    ensures j == junk && tail == Encode(f) + rest
  {
    assert whole[|junk|] == PREAMBLE && whole[|j|] == PREAMBLE;
    assert |j| == |junk|;
    assert j == whole[..|j|] && junk == whole[..|junk|];
    assert tail == whole[|junk|..];
  }

  lemma SplitHasPreamble(whole: Data, junk: Data, f: Frame, rest: Data)
    requires Splits(whole, junk, f, rest)
    ensures PREAMBLE in whole
  {
    assert whole[|junk|] == PREAMBLE;
  }

  /** A wire image determines where it ends. */
  lemma PrefixUnique(tail: Data, f: Frame, g: Frame)
    requires ValidFrame(f) && ValidFrame(g) && Encode(f) <= tail && Encode(g) <= tail
    ensures f == g
  {
    LengthFieldValue(f);
    LengthFieldValue(g);
    assert Encode(f)[3..5] == tail[3..5] == Encode(g)[3..5];
    assert Encode(f) == tail[..MIN_LEN + |f.data|] == Encode(g);
    EncodeInjective(f, g);
  }

  /** There is at most one way to split off the next frame. */
  lemma SplitsUnique(input: Data, j1: Data, f1: Frame, r1: Data, j2: Data, f2: Frame, r2: Data)
    requires Splits(input, j1, f1, r1) && Splits(input, j2, f2, r2)
    ensures j1 == j2 && f1 == f2 && r1 == r2
  {
    var tail := Encode(f1) + r1;
    assert input == j1 + tail;
    NextPreamble(input, j1, tail, j2, f2, r2);
    PrefixUnique(tail, f1, f2);
    assert r1 == tail[|Encode(f1)|..] == r2;
  }

  /** The wire image at the front of `tail`, found through its length field. */
  ghost function NextImage(tail: Data): Option<Data> {
    if |tail| < 5 then None else
    var n := FromLE(tail[3..5]);
    if n <= MAX_DATA_LEN && MIN_LEN + n <= |tail| && Decode(tail[..MIN_LEN + n]).Some?
    then Some(tail[..MIN_LEN + n]) else None
  }

  lemma NextImageOfPrefix(tail: Data, f: Frame)
    requires ValidFrame(f) && Encode(f) <= tail
    ensures NextImage(tail) == Some(Encode(f))
  {
    LengthFieldValue(f);
    DecodeEncode(f);
    assert tail[3..5] == Encode(f)[3..5];
    assert tail[..|Encode(f)|] == Encode(f);
  }

  lemma NoPreambleNoFrame(whole: Data)
    requires PREAMBLE !in whole
    ensures forall junk, f, rest :: !Splits(whole, junk, f, rest)
  {
    forall junk, f, rest ensures !Splits(whole, junk, f, rest) {
      if Splits(whole, junk, f, rest) { SplitHasPreamble(whole, junk, f, rest); }
    }
  }

  lemma NoImageNoFrame(whole: Data, junk: Data, tail: Data)
    requires whole == junk + tail && tail != [] && tail[0] == PREAMBLE && PREAMBLE !in junk
    requires NextImage(tail).None?
    ensures forall j, f, rest :: !Splits(whole, j, f, rest)
  {
    forall j, f, rest ensures !Splits(whole, j, f, rest) {
      if Splits(whole, j, f, rest) {
        NextPreamble(whole, junk, tail, j, f, rest);
        NextImageOfPrefix(tail, f);
      }
    }
  }

  lemma ImageSplits(whole: Data, junk: Data, f: Frame, raw: Data, rest: Data)
    requires PREAMBLE !in junk && whole == junk + (raw + rest) && Decode(raw) == Some(f)
    ensures raw == Encode(f) && Splits(whole, junk, f, rest)
  {
    Regroup(junk, raw, rest);
  }

  datatype ReadResult = Got(frame: Frame, raw: Data) | ReadError

  /** Reading `before` must give `r` and leave `after`: the next frame if there is one, an error otherwise. */
  ghost predicate ReadsNext(before: Data, r: ReadResult, after: Data) {
    match r
    case Got(f, raw) => raw == Encode(f) && exists junk :: Splits(before, junk, f, after)
    case ReadError => forall junk, f, rest :: !Splits(before, junk, f, rest)
  }

  /** FrameReader over the bytes that have arrived; running out of them is the read error. */
  class FrameReader {
    var input: Data
    var pos: nat

    ghost predicate Valid()
      reads this
    {
      pos <= |input|
    }

    ghost function Rest(): Data
      requires Valid()
      reads this
    {
      input[pos..]
    }

    constructor (input: Data)
      ensures Valid() && Rest() == input && this.input == input
    {
      this.input := input;
      pos := 0;
    }

    /** More bytes arrive. */
    method Feed(bytes: Data)
      requires Valid()
      modifies this`input
      ensures Valid() && Rest() == old(Rest()) + bytes
    {
      input := input + bytes;
    }

    /** io.ReadFull: all `n` bytes or an error that leaves the input exhausted. */
    method ReadFull(n: nat) returns (r: Option<Data>)
      requires Valid()
      modifies this`pos
      ensures Valid()
      ensures if n <= |old(Rest())|
              then r == Some(old(Rest())[..n]) && Rest() == old(Rest())[n..] && pos == old(pos) + n
              else r == None && Rest() == []
    {
      if n > |input| - pos {
        pos := |input|;
        return None;
      }
      r := Some(input[pos..pos + n]);
      assert Rest()[..n] == input[pos..pos + n];
      pos := pos + n;
    }

    /** The preamble scan at the top of ReadFrame. */
    method SkipToPreamble() returns (found: bool)
      requires Valid()
      modifies this`pos
      ensures Valid() && old(pos) <= pos
      ensures found ==> pos > old(pos) && input[pos - 1] == PREAMBLE && PREAMBLE !in input[old(pos)..pos - 1]
      ensures !found ==> Rest() == [] && PREAMBLE !in old(Rest())
    {
      var start := pos;
      while pos < |input|
        invariant start <= pos <= |input|
        invariant PREAMBLE !in input[start..pos]
      {
        var b := input[pos];
        pos := pos + 1;
        if b == PREAMBLE { return true; }
      }
      return false;
    }

    /** The part of ReadFrame behind the preamble: header, length check, data and checksum. */
    method ReadBody() returns (r: ReadResult)
      requires Valid() && 0 < pos && input[pos - 1] == PREAMBLE
      modifies this`pos
      ensures Valid() && old(pos) <= pos
      ensures r.Got? <==> NextImage(input[old(pos) - 1..]).Some?
      ensures r.Got? ==> r.raw + input[pos..] == input[old(pos) - 1..]
      ensures r.Got? ==> Decode(r.raw) == Some(r.frame)
    {
      ghost var tail := input[pos - 1..];
      var header := ReadFull(4);
      if header.None? { return ReadError; }
      assert header.value == tail[1..5];
      var dataLen := FromLE(header.value[2..4]);
      assert header.value[2..4] == tail[3..5];
      if dataLen > MAX_DATA_LEN { return ReadError; }
      var rest := ReadFull(dataLen + 1);
      if rest.None? { return ReadError; }
      var full := [PREAMBLE, header.value[0], header.value[1]] + header.value[2..4] + rest.value;
      assert full == tail[..MIN_LEN + dataLen];
      var d := DecodeFrame(full);
      r := if d.None? then ReadError else Got(d.value, full);
    }

    /** ReadFrame returns exactly the next frame of the input, or fails when no frame comes next. */
    method ReadFrame() returns (r: ReadResult)
      requires Valid()
      modifies this`pos
      ensures Valid() && ReadsNext(old(Rest()), r, Rest())
    {
      ghost var whole := Rest();
      var found := SkipToPreamble();
      if !found {
        NoPreambleNoFrame(whole);
        return ReadError;
      }
      ghost var junk, tail := input[old(pos)..pos - 1], input[pos - 1..];
      assert whole == junk + tail;
      r := ReadBody();
      if r.Got? {
        ImageSplits(whole, junk, r.frame, r.raw, Rest());
      } else {
        NoImageNoFrame(whole, junk, tail);
      }
    }
  }

  /** What ReadFrame must return when the next bytes are a frame. */
  lemma NextIs(before: Data, f: Frame, rest: Data, r: ReadResult, after: Data)
    requires ValidFrame(f) && before == Encode(f) + rest
    requires ReadsNext(before, r, after)
    ensures r.Got? && r.frame == f && after == rest
  {
    assert before == [] + Encode(f) + rest;
    assert Splits(before, [], f, rest);
    var junk :| Splits(before, junk, r.frame, after);
    SplitsUnique(before, [], f, rest, junk, r.frame, after);
  }

  /** A split at the front takes its length from the length field. */
  lemma SplitLength(f: Frame, rest: Data, j: Data, g: Frame, t: Data)
    requires |f.data| < 0x1_0000 && Splits(Encode(f) + rest, j, g, t)
    ensures |g.data| == |f.data|
  {
    var whole := Encode(f) + rest;
    assert whole == [] + whole;
    NextPreamble(whole, [], whole, j, g, t);
    LengthFieldValue(g);
    Pow256Values();
    FromToLE(|f.data|, 2);
    assert whole[3..5] == ToLE(|f.data|, 2) && whole[3..5] == Encode(g)[3..5];
  }

  /** A length field above the maximum makes ReadFrame fail. */
  lemma TooLongFails(f: Frame, rest: Data)
    requires MAX_DATA_LEN < |f.data| < 0x1_0000
    ensures forall j, g, t :: !Splits(Encode(f) + rest, j, g, t)
  {
    forall j, g, t ensures !Splits(Encode(f) + rest, j, g, t) {
      if Splits(Encode(f) + rest, j, g, t) { SplitLength(f, rest, j, g, t); }
    }
  }

  /** Frames interleaved with junk. */
  datatype Chunk = Chunk(junk: Data, frame: Frame)

  ghost predicate CleanChunks(cs: seq<Chunk>) {
    forall i :: 0 <= i < |cs| ==> ValidFrame(cs[i].frame) && PREAMBLE !in cs[i].junk
  }

  function Stream(cs: seq<Chunk>, tail: Data): Data {
    if cs == [] then tail else cs[0].junk + Encode(cs[0].frame) + Stream(cs[1..], tail)
  }

  function FramesOf(cs: seq<Chunk>): (fs: seq<Frame>)
    ensures |fs| == |cs|
  {
    seq(|cs|, i requires 0 <= i < |cs| => cs[i].frame)
  }

  /** Repeated ReadFrame over any stream of frames separated by junk returns exactly those frames, in
      order, and consumes exactly their bytes, whatever the data fields contain. */
  method ReadStream(reader: FrameReader, ghost cs: seq<Chunk>, ghost tail: Data, n: nat) returns (fs: seq<Frame>)
    requires reader.Valid() && CleanChunks(cs) && n == |cs|
    requires reader.Rest() == Stream(cs, tail)
    modifies reader
    ensures reader.Valid() && reader.Rest() == tail
    ensures fs == FramesOf(cs)
  {
    fs := [];
    for i := 0 to n
      invariant reader.Valid() && reader.Rest() == Stream(cs[i..], tail)
      invariant fs == FramesOf(cs)[..i]
    {
      ghost var before := reader.Rest();
      ghost var c := cs[i];
      ghost var after := Stream(cs[i + 1..], tail);
      assert cs[i..][1..] == cs[i + 1..];
      assert Splits(before, c.junk, c.frame, after);
      var r := reader.ReadFrame();
      if r.ReadError? { assert false; }
      ghost var junk :| Splits(before, junk, r.frame, reader.Rest());
      SplitsUnique(before, junk, r.frame, reader.Rest(), c.junk, c.frame, after);
      fs := fs + [r.frame];
    }
  }

  /** Two ways to lay out the same number of frames over the same bytes are the same way. */
  lemma {:induction false} StreamUnique(cs: seq<Chunk>, tail: Data, ds: seq<Chunk>, end: Data)
    requires CleanChunks(cs) && CleanChunks(ds) && |cs| == |ds|
    requires Stream(cs, tail) == Stream(ds, end)
    ensures cs == ds && tail == end
  {
    if cs != [] {
      var input := Stream(cs, tail);
      var restC, restD := Stream(cs[1..], tail), Stream(ds[1..], end);
      assert Splits(input, cs[0].junk, cs[0].frame, restC);
      assert Splits(input, ds[0].junk, ds[0].frame, restD);
      SplitsUnique(input, cs[0].junk, cs[0].frame, restC, ds[0].junk, ds[0].frame, restD);
      StreamUnique(cs[1..], tail, ds[1..], end);
      assert cs == [cs[0]] + cs[1..] && ds == [ds[0]] + ds[1..];
    }
  }
}
