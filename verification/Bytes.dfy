/** Byte strings as they travel on the wire: little-endian integers and the XOR checksum. */
module Bytes {

  type Byte = x: int | 0 <= x < 256

  type Data = seq<Byte>

  datatype Option<+T> = None | Some(value: T)

  // ---- little-endian integers ----

  /** The `width` low bytes of `n`, least significant first. */
  function ToLE(n: nat, width: nat): (s: Data)
    ensures |s| == width
    decreases width
  {
    if width == 0 then [] else [n % 256] + ToLE(n / 256, width - 1)
  }

  function FromLE(s: Data): nat {
    if s == [] then 0 else s[0] + 256 * FromLE(s[1..])
  }

  function Pow256(width: nat): nat {
    if width == 0 then 1 else 256 * Pow256(width - 1)
  }

  lemma Pow256Values()
    ensures Pow256(2) == 0x1_0000
    ensures Pow256(4) == 0x1_0000_0000
    ensures Pow256(8) == 0x1_0000_0000_0000_0000
  {
    assert Pow256(4) == 256 * (256 * Pow256(2));
    assert Pow256(8) == 256 * (256 * (256 * (256 * Pow256(4))));
  }

  lemma {:induction false} FromToLE(n: nat, width: nat)
    requires n < Pow256(width)
    ensures FromLE(ToLE(n, width)) == n
    decreases width
  {
    if width > 0 {
      FromToLE(n / 256, width - 1);
      assert ToLE(n, width)[1..] == ToLE(n / 256, width - 1);
    }
  }

  lemma {:induction false} ToFromLE(s: Data)
    ensures FromLE(s) < Pow256(|s|)
    ensures ToLE(FromLE(s), |s|) == s
  {
    if s != [] {
      ToFromLE(s[1..]);
      assert FromLE(s) % 256 == s[0] && FromLE(s) / 256 == FromLE(s[1..]);
      assert s == [s[0]] + s[1..];
    }
  }

  /** Earlier bytes weigh less: a string is worth its front plus 256 to the length of the front times its rest. */
  lemma {:induction false} FromLEConcat(a: Data, b: Data)
    ensures FromLE(a + b) == FromLE(a) + Pow256(|a|) * FromLE(b)
    ensures |a| == 1 ==> FromLE(a) == a[0]
  {
    if a == [] {
      assert a + b == b;
    } else {
      FromLEConcat(a[1..], b);
      assert (a + b)[1..] == a[1..] + b;
      Weigh(a[0], FromLE(a[1..]), Pow256(|a| - 1), FromLE(b));
      if |a| == 1 { assert a[1..] == []; }
    }
  }

  lemma Weigh(h: nat, x: nat, p: nat, y: nat)
    ensures h + 256 * (x + p * y) == h + 256 * x + 256 * p * y
  {}

  // ---- exclusive or ----

  /** Bitwise exclusive or. */
  function XorNat(a: nat, b: nat): nat {
    if a == 0 && b == 0 then 0
    else (if a % 2 == b % 2 then 0 else 1) + 2 * XorNat(a / 2, b / 2)
  }

  function Pow2(width: nat): nat {
    if width == 0 then 1 else 2 * Pow2(width - 1)
  }

  lemma {:induction false} XorNatBound(a: nat, b: nat, width: nat)
    requires a < Pow2(width) && b < Pow2(width)
    ensures XorNat(a, b) < Pow2(width)
    decreases width
  {
    if width > 0 { XorNatBound(a / 2, b / 2, width - 1); }
  }

  lemma XorNatStep(a: nat, b: nat)
    ensures XorNat(a, b) % 2 == 0 <==> a % 2 == b % 2
    ensures XorNat(a, b) / 2 == XorNat(a / 2, b / 2)
  {}

  lemma {:induction false} XorNatAssoc(a: nat, b: nat, c: nat)
    ensures XorNat(XorNat(a, b), c) == XorNat(a, XorNat(b, c))
    decreases a + b + c
  {
    if a + b + c > 0 {
      XorNatAssoc(a / 2, b / 2, c / 2);
      XorNatStep(a, b);
      XorNatStep(b, c);
      XorNatStep(XorNat(a, b), c);
      XorNatStep(a, XorNat(b, c));
    }
  }

  lemma {:induction false} XorNatComm(a: nat, b: nat)
    ensures XorNat(a, b) == XorNat(b, a)
  {
    if a + b > 0 { XorNatComm(a / 2, b / 2); }
  }

  lemma {:induction false} XorNatSelf(a: nat)
    ensures XorNat(a, a) == 0
  {
    if a > 0 { XorNatSelf(a / 2); }
  }

  lemma {:induction false} XorNatZero(a: nat)
    ensures XorNat(a, 0) == a
  {
    if a > 0 { XorNatZero(a / 2); }
  }

  /** Go's `^` on bytes. */
  function Xor(a: Byte, b: Byte): (r: Byte)
    ensures r == XorNat(a, b)
  {
    assert Pow2(8) == 16 * Pow2(4);
    XorNatBound(a, b, 8);
    XorNat(a, b)
  }

  /** Bytes under exclusive or are a commutative group in which every byte is its own inverse. */
  lemma XorLaws(a: Byte, b: Byte, c: Byte)
    ensures Xor(Xor(a, b), c) == Xor(a, Xor(b, c))
    ensures Xor(a, b) == Xor(b, a)
    ensures Xor(a, a) == 0
    ensures Xor(a, 0) == a
  {
    XorNatAssoc(a, b, c);
    XorNatComm(a, b);
    XorNatSelf(a);
    XorNatZero(a);
  }

  /** The XOR of all bytes, 0 for the empty string. */
  function XorAll(s: Data): Byte {
    if s == [] then 0 else Xor(XorAll(s[..|s| - 1]), s[|s| - 1])
  }

  /** Binary digit `k`. */
  function Bit(n: nat, k: nat): nat {
    if k == 0 then n % 2 else Bit(n / 2, k - 1)
  }

  lemma {:induction false} XorBit(a: nat, b: nat, k: nat)
    ensures Bit(XorNat(a, b), k) == (Bit(a, k) + Bit(b, k)) % 2
  {
    XorNatStep(a, b);
    if k > 0 { XorBit(a / 2, b / 2, k - 1); }
  }

  /** How many of the bytes have bit `k` set. */
  function Ones(s: Data, k: nat): nat {
    if s == [] then 0 else Ones(s[..|s| - 1], k) + Bit(s[|s| - 1], k)
  }

  lemma {:induction false} ZeroBits(k: nat)
    ensures Bit(0, k) == 0
  {
    if k > 0 { ZeroBits(k - 1); }
  }

  /** Each bit of the checksum is the parity of that bit over all bytes. */
  lemma {:induction false} ChecksumBits(s: Data, k: nat)
    ensures Bit(XorAll(s), k) == Ones(s, k) % 2
  {
    if s == [] {
      ZeroBits(k);
    } else {
      ChecksumBits(s[..|s| - 1], k);
      XorBit(XorAll(s[..|s| - 1]), s[|s| - 1], k);
    }
  }

  /** Replacing one byte changes the checksum by exactly the bits in which that byte changed. */
  lemma {:induction false} XorAllReplace(s: Data, i: nat, v: Byte)
    requires i < |s|
    ensures XorAll(s[i := v]) == Xor(XorAll(s), Xor(s[i], v))
  {
    var n := |s| - 1;
    var front := XorAll(s[..n]);
    if i < n {
      XorAllReplace(s[..n], i, v);
      assert s[i := v][..n] == s[..n][i := v];
      var d := Xor(s[i], v);
      XorLaws(front, d, s[n]);
      XorLaws(d, s[n], 0);
      XorLaws(front, s[n], d);
    } else {
      assert s[i := v][..n] == s[..n];
      XorLaws(front, s[n], Xor(s[n], v));
      XorLaws(s[n], s[n], v);
      XorLaws(v, 0, 0);
      XorLaws(0, v, 0);
    }
  }

  /** Go's `copy(dst[at:], src)` for a source that fits. */
  method Copy(dst: array<Byte>, at: nat, src: Data)
    requires at + |src| <= dst.Length
    modifies dst
    ensures dst[..] == old(dst[..])[..at] + src + old(dst[..])[at + |src|..]
  {
    ghost var was := dst[..];
    for i := 0 to |src|
      invariant dst[..] == was[..at] + src[..i] + was[at + i..]
    {
      dst[at + i] := src[i];
    }
  }
}
