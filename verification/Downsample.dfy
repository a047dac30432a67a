/** Chart points (internal/store/measurement_store.go): samples masked by their validity flags and averaged in
    contiguous buckets. Offsets are reals with one value for everything that is not finite; a 32-bit validity mask is
    the set of its bits. */
module Downsample {
  import opened Bytes
  import opened Instants
  import opened Sequences
  import LeastSquares

  datatype Offset = Finite(v: real) | NotFinite

  datatype Slot = First | Second | Third

  /** A stored sample; instants are nanoseconds. */
  datatype Raw = Raw(ts: int, receivedAt: int, off1: Offset, off2: Offset, off3: Offset, validity: Mask)

  /** A chart point; times are milliseconds, a missing offset is a gap. */
  datatype ChartPoint = ChartPoint(
    ts: int,
    receivedAt: int,
    off1: Option<real>,
    off2: Option<real>,
    off3: Option<real>,
    validity: Mask,
    n: nat)

  function OffsetOf(r: Raw, slot: Slot): Offset {
    match slot
    case First => r.off1
    case Second => r.off2
    case Third => r.off3
  }

  function PointOffset(p: ChartPoint, slot: Slot): Option<real> {
    match slot
    case First => p.off1
    case Second => p.off2
    case Third => p.off3
  }

  // ---- validity ----

  type Mask = bits: set<nat> | forall i :: i in bits ==> i < 32

  const ALL_BITS: Mask := set i: nat | i < 32

  function BitOf(slot: Slot): nat {
    match slot
    case First => 0
    case Second => 1
    case Third => 2
  }

  predicate Flagged(r: Raw, slot: Slot) {
    BitOf(slot) in r.validity
  }

  /** applyValidity. */
  function ApplyValidity(r: Raw): (p: Raw)
    ensures forall slot :: OffsetOf(p, slot) == if Flagged(r, slot) then OffsetOf(r, slot) else NotFinite
    ensures p.off1 == if 0 in r.validity then r.off1 else NotFinite
    ensures p.off2 == if 1 in r.validity then r.off2 else NotFinite
    ensures p.off3 == if 2 in r.validity then r.off3 else NotFinite
    ensures p.ts == r.ts && p.receivedAt == r.receivedAt && p.validity == r.validity
  {
    var p := if 0 !in r.validity then r.(off1 := NotFinite) else r;
    var q := if 1 !in p.validity then p.(off2 := NotFinite) else p;
    if 2 !in q.validity then q.(off3 := NotFinite) else q
  }

  // ---- averages ----

  /** The finite values of one slot. */
  function Values(b: seq<Raw>, slot: Slot): seq<real> {
    if b == [] then []
    else
      var o := OffsetOf(b[|b| - 1], slot);
      if o.Finite? then Values(b[..|b| - 1], slot) + [o.v] else Values(b[..|b| - 1], slot)
  }

  /** The values of one slot that are both flagged valid and finite. */
  function Usable(b: seq<Raw>, slot: Slot): seq<real> {
    if b == [] then []
    else
      var r := b[|b| - 1];
      if Flagged(r, slot) && OffsetOf(r, slot).Finite? then Usable(b[..|b| - 1], slot) + [OffsetOf(r, slot).v]
      else Usable(b[..|b| - 1], slot)
  }

  /** No value means a gap; otherwise the mean times the count is the sum. */
  predicate IsMean(m: Option<real>, vs: seq<real>) {
    (m.None? <==> vs == []) && (m.Some? ==> LeastSquares.ScaledBy(LeastSquares.Sum(vs), |vs| as real, m.value))
  }

  /** n times lo, sum and n times hi are in this order. */
  predicate Between(n: real, lo: real, sum: real, hi: real) {
    n * lo <= sum <= n * hi
  }

  lemma BetweenStep(n: real, lo: real, sum: real, hi: real, v: real)
    requires Between(n, lo, sum, hi) && lo <= v <= hi
    ensures Between(n + 1.0, lo, sum + v, hi)
  {}

  lemma {:induction false} SumBetween(vs: seq<real>, lo: real, hi: real)
    requires forall i :: 0 <= i < |vs| ==> lo <= vs[i] <= hi
    ensures Between(|vs| as real, lo, LeastSquares.Sum(vs), hi)
  {
    if vs != [] {
      var n := |vs| - 1;
      SumBetween(vs[..n], lo, hi);
      BetweenStep(n as real, lo, LeastSquares.Sum(vs[..n]), hi, vs[n]);
    }
  }

  /** A mean lies between any bounds of the values. */
  lemma MeanBetween(m: Option<real>, vs: seq<real>, lo: real, hi: real)
    requires IsMean(m, vs) && m.Some? && forall i :: 0 <= i < |vs| ==> lo <= vs[i] <= hi
    ensures lo <= m.value <= hi
  {
    SumBetween(vs, lo, hi);
    Divide(|vs| as real, lo, LeastSquares.Sum(vs), hi, m.value);
  }

  lemma Divide(n: real, lo: real, sum: real, hi: real, m: real)
    requires n > 0.0 && Between(n, lo, sum, hi) && LeastSquares.ScaledBy(sum, n, m)
    ensures lo <= m <= hi
  {
    assert m < lo ==> n * (lo - m) > 0.0;
    assert m > hi ==> n * (m - hi) > 0.0;
  }

  /** avgOff. */
  method AvgOff(b: seq<Raw>, slot: Slot) returns (m: Option<real>)
    ensures IsMean(m, Values(b, slot))
  {
    var sum, n := 0.0, 0;
    for i := 0 to |b|
      invariant n == |Values(b[..i], slot)| && sum == LeastSquares.Sum(Values(b[..i], slot))
    {
      assert b[..i + 1][..i] == b[..i];
      var o := OffsetOf(b[i], slot);
      if o.NotFinite? { continue; }
      sum := sum + o.v;
      n := n + 1;
    }
    assert b[..|b|] == b;
    if n == 0 { return None; }
    return Some(sum / n as real);
  }

  // ---- buckets ----

  /** The bits common to all samples. */
  ghost predicate CommonBits(v: Mask, b: seq<Raw>) {
    forall bit: nat :: bit in v <==> bit < 32 && forall i :: 0 <= i < |b| ==> bit in b[i].validity
  }

  /** `p` stands for the samples of `b`. */
  ghost predicate Summary(p: ChartPoint, b: seq<Raw>) {
    && b != [] && p.n == |b|
    && p.ts == Millis(b[0].ts) && p.receivedAt == Millis(b[0].receivedAt)
    && (forall slot :: IsMean(PointOffset(p, slot), Values(b, slot)))
    && CommonBits(p.validity, b)
  }

  ghost predicate Summaries(out: seq<ChartPoint>, bs: seq<seq<Raw>>) {
    |out| == |bs| && forall k :: 0 <= k < |out| ==> Summary(out[k], bs[k])
  }

  /** Contiguous buckets of `size` samples, the last one possibly shorter. */
  function Split(raw: seq<Raw>, size: nat): seq<seq<Raw>>
    requires size > 0
  {
    if raw == [] then []
    else if |raw| <= size then [raw]
    else [raw[..size]] + Split(raw[size..], size)
  }

  /** One sample a bucket unless there are more samples than points; then the smallest size that is enough. */
  function BucketSize(n: nat, maxPoints: int): (size: nat)
    ensures size > 0
    ensures 0 < maxPoints < n ==> size * maxPoints >= n > (size - 1) * maxPoints
  {
    if maxPoints <= 0 || n <= maxPoints then 1 else (n + maxPoints - 1) / maxPoints
  }

  function Flatten(bs: seq<seq<Raw>>): seq<Raw> {
    if bs == [] then [] else bs[0] + Flatten(bs[1..])
  }

  /** The buckets in order are the samples: every sample is in exactly one, in its place. */
  lemma {:induction false} SplitPartitions(raw: seq<Raw>, size: nat)
    requires size > 0
    ensures Flatten(Split(raw, size)) == raw
    ensures forall k :: 0 <= k < |Split(raw, size)| ==> 1 <= |Split(raw, size)[k]| <= size
  {
    if |raw| > size {
      SplitPartitions(raw[size..], size);
      assert Split(raw, size)[1..] == Split(raw[size..], size);
      assert raw == raw[..size] + raw[size..];
    } else if raw != [] {
      assert Flatten([raw]) == raw + Flatten([]);
    }
  }

  predicate AtMost(k: int, size: nat, n: nat) {
    k * size <= n
  }

  /** All buckets but the last are full. */
  lemma {:induction false} SplitCount(raw: seq<Raw>, size: nat)
    requires size > 0
    ensures raw != [] ==> Split(raw, size) != [] && AtMost(|Split(raw, size)| - 1, size, |raw| - 1)
  {
    if |raw| > size {
      SplitCount(raw[size..], size);
      assert |raw[size..]| == |raw| - size;
      Distribute(|Split(raw[size..], size)| - 1, size, |raw| - size - 1);
    }
  }

  lemma Distribute(k: int, size: nat, n: nat)
    requires AtMost(k, size, n)
    ensures AtMost(k + 1, size, n + size)
  {}

  lemma FewEnough(n: nat, maxPoints: nat, count: nat)
    requires 0 < maxPoints < n && AtMost(count - 1, BucketSize(n, maxPoints), n - 1)
    ensures count <= maxPoints
  {
    var size := BucketSize(n, maxPoints);
    assert size * maxPoints >= n;
    if count > maxPoints {
      Times(maxPoints, count - 1, size);
    }
  }

  lemma Times(a: int, b: int, size: nat)
    requires a <= b
    ensures a * size <= b * size
  {}

  function TotalN(out: seq<ChartPoint>): nat {
    if out == [] then 0 else out[0].n + TotalN(out[1..])
  }

  lemma {:induction false} TotalIsLength(out: seq<ChartPoint>, bs: seq<seq<Raw>>)
    requires Summaries(out, bs)
    ensures TotalN(out) == |Flatten(bs)|
  {
    if out != [] { TotalIsLength(out[1..], bs[1..]); }
  }

  predicate SortedByReceipt(raw: seq<Raw>) {
    forall i, j :: 0 <= i < j < |raw| ==> raw[i].receivedAt <= raw[j].receivedAt
  }

  predicate PointsSorted(out: seq<ChartPoint>) {
    forall i, j :: 0 <= i < j < |out| ==> out[i].receivedAt <= out[j].receivedAt
  }

  lemma {:induction false} HeadsInOrder(raw: seq<Raw>, size: nat, k: nat)
    requires size > 0 && SortedByReceipt(raw) && k < |Split(raw, size)|
    ensures Split(raw, size)[k] != [] && raw != [] && Split(raw, size)[k][0] in raw
    ensures raw[0].receivedAt <= Split(raw, size)[k][0].receivedAt
  {
    if |raw| > size && k > 0 {
      HeadsInOrder(raw[size..], size, k - 1);
    }
  }

  lemma {:induction false} BucketsSorted(raw: seq<Raw>, size: nat, i: nat, j: nat)
    requires size > 0 && SortedByReceipt(raw) && i < j < |Split(raw, size)|
    ensures Split(raw, size)[i] != [] && Split(raw, size)[j] != []
    ensures Split(raw, size)[i][0].receivedAt <= Split(raw, size)[j][0].receivedAt
  {
    if i == 0 {
      HeadsInOrder(raw, size, 0);
      HeadsInOrder(raw, size, j);
    } else {
      BucketsSorted(raw[size..], size, i - 1, j - 1);
    }
  }

  /** Where bucket `k` is. */
  lemma {:induction false} BucketAt(raw: seq<Raw>, size: nat, k: nat)
    requires size > 0 && k < |Split(raw, size)|
    ensures var start := k * size;
            && 0 <= start < |raw|
            && Split(raw, size)[k] == raw[start..if start + size < |raw| then start + size else |raw|]
  {
    if k > 0 {
      BucketAt(raw[size..], size, k - 1);
      assert (k - 1) * size + size == k * size;
    }
  }

  /** What any summary of the buckets has: few enough points, every sample counted once, times in order. */
  lemma SummaryShape(raw: seq<Raw>, maxPoints: int, out: seq<ChartPoint>)
    requires Summaries(out, Split(raw, BucketSize(|raw|, maxPoints)))
    ensures maxPoints > 0 ==> |out| <= maxPoints
    ensures maxPoints <= 0 || |raw| <= maxPoints ==> |out| == |raw|
    ensures TotalN(out) == |raw|
    ensures SortedByReceipt(raw) ==> PointsSorted(out)
  {
    var size := BucketSize(|raw|, maxPoints);
    var bs := Split(raw, size);
    SplitPartitions(raw, size);
    TotalIsLength(out, bs);
    if maxPoints <= 0 || |raw| <= maxPoints {
      Singles(raw);
    } else if raw != [] {
      SplitCount(raw, size);
      FewEnough(|raw|, maxPoints, |bs|);
    }
    if SortedByReceipt(raw) {
      forall i, j | 0 <= i < j < |out| ensures out[i].receivedAt <= out[j].receivedAt {
        BucketsSorted(raw, size, i, j);
      }
    }
  }

  lemma {:induction false} Singles(raw: seq<Raw>)
    ensures |Split(raw, 1)| == |raw|
    ensures forall i :: 0 <= i < |raw| ==> Split(raw, 1)[i] == [raw[i]]
  {
    if |raw| > 1 { Singles(raw[1..]); }
  }

  // ---- downsample ----

  function F2p(o: Offset): Option<real> {
    if o.Finite? then Some(o.v) else None
  }

  lemma SingleMean(r: Raw, slot: Slot)
    ensures IsMean(F2p(OffsetOf(r, slot)), Values([r], slot))
  {
    assert [r][..0] == [];
    var o := OffsetOf(r, slot);
    if o.Finite? {
      assert Values([r], slot) == [] + [o.v];
      SingleSum(o.v);
    }
  }

  lemma SingleSum(v: real)
    ensures LeastSquares.ScaledBy(LeastSquares.Sum([v]), 1.0, v)
  {
    assert [v][..0] == [];
  }

  function Single(r: Raw): ChartPoint {
    ChartPoint(Millis(r.ts), Millis(r.receivedAt), F2p(r.off1), F2p(r.off2), F2p(r.off3), r.validity, 1)
  }

  lemma SingleSummary(r: Raw)
    ensures Summary(Single(r), [r])
  {
    forall slot ensures IsMean(PointOffset(Single(r), slot), Values([r], slot)) { SingleMean(r, slot); }
    SingleBits(r);
  }

  lemma SingleBits(r: Raw)
    ensures CommonBits(r.validity, [r])
  {
    assert [r][0] == r;
  }

  /** rawToPoints: a point for each sample. */
  method RawToPoints(raw: seq<Raw>) returns (out: seq<ChartPoint>)
    ensures Summaries(out, Split(raw, 1))
  {
    out := [];
    for i := 0 to |raw|
      invariant |out| == i && forall k :: 0 <= k < i ==> out[k] == Single(raw[k])
    {
      out := out + [Single(raw[i])];
    }
    Singles(raw);
    forall k | 0 <= k < |raw| ensures Summary(out[k], Split(raw, 1)[k]) { SingleSummary(raw[k]); }
  }

  /** One bucket of downsample. */
  method Summarise(b: seq<Raw>) returns (p: ChartPoint)
    requires b != []
    ensures Summary(p, b)
  {
    var off1 := AvgOff(b, First);
    var off2 := AvgOff(b, Second);
    var off3 := AvgOff(b, Third);
    var validity := CommonValidity(b);
    return ChartPoint(Millis(b[0].ts), Millis(b[0].receivedAt), off1, off2, off3, validity, |b|);
  }

  method CommonValidity(b: seq<Raw>) returns (v: Mask)
    ensures CommonBits(v, b)
  {
    v := ALL_BITS;
    for i := 0 to |b|
      invariant CommonBits(v, b[..i])
    {
      CommonStep(v, b, i);
      v := v * b[i].validity;
    }
    assert b[..|b|] == b;
  }

  lemma CommonStep(v: Mask, b: seq<Raw>, i: nat)
    requires i < |b| && CommonBits(v, b[..i])
    ensures CommonBits(v * b[i].validity, b[..i + 1])
  {
    var c := b[..i + 1];
    forall bit: nat
      ensures bit in v * b[i].validity <==> bit < 32 && forall k :: 0 <= k < |c| ==> bit in c[k].validity
    {
      assert forall k :: 0 <= k < i ==> b[..i][k] == c[k];
    }
  }

  /** downsample. */
  method Downsample(raw: seq<Raw>, maxPoints: int) returns (out: seq<ChartPoint>)
    ensures Summaries(out, Split(raw, BucketSize(|raw|, maxPoints)))
  {
    if |raw| == 0 { return []; }
    if maxPoints <= 0 || |raw| <= maxPoints {
      out := RawToPoints(raw);
      return;
    }
    out := Buckets(raw, (|raw| + maxPoints - 1) / maxPoints);
  }

  /** The loop of downsample. */
  method Buckets(raw: seq<Raw>, bucketSize: nat) returns (out: seq<ChartPoint>)
    requires bucketSize > 0
    ensures Summaries(out, Split(raw, bucketSize))
  {
    out := [];
    var i := 0;
    ghost var done, all := [], Split(raw, bucketSize);
    assert raw[0..] == raw;
    while i < |raw|
      invariant 0 <= i <= |raw| && Summaries(out, done)
      invariant done + Split(raw[i..], bucketSize) == all
    {
      var end := if i + bucketSize > |raw| then |raw| else i + bucketSize;
      var p := Summarise(raw[i..end]);
      NextBucket(raw, i, end, bucketSize);
      Regroup(done, [raw[i..end]], Split(raw[end..], bucketSize));
      out := out + [p];
      done := done + [raw[i..end]];
      i := end;
    }
  }

  lemma NextBucket(raw: seq<Raw>, i: nat, end: nat, size: nat)
    requires size > 0 && i < |raw| && end == (if i + size > |raw| then |raw| else i + size)
    ensures Split(raw[i..], size) == [raw[i..end]] + Split(raw[end..], size)
  {
    var rest := raw[i..];
    if |rest| > size {
      assert rest[..size] == raw[i..end] && rest[size..] == raw[end..];
    } else {
      assert rest == raw[i..end] && raw[end..] == [];
    }
  }

  // ---- the query ----

  function Applied(rows: seq<Raw>): (s: seq<Raw>)
    ensures |s| == |rows|
  {
    seq(|rows|, i requires 0 <= i < |rows| => ApplyValidity(rows[i]))
  }

  /** After the mask the finite values are those that were flagged and finite. */
  lemma {:induction false} AppliedValues(rows: seq<Raw>, slot: Slot)
    ensures Values(Applied(rows), slot) == Usable(rows, slot)
  {
    if rows != [] {
      var n := |rows| - 1;
      AppliedValues(rows[..n], slot);
      assert Applied(rows)[..n] == Applied(rows[..n]);
    }
  }

  /** `p` stands for the stored rows `b`: a gap exactly where no row is both flagged and finite, else their mean. */
  ghost predicate RowSummary(p: ChartPoint, b: seq<Raw>) {
    && b != [] && p.n == |b|
    && p.ts == Millis(b[0].ts) && p.receivedAt == Millis(b[0].receivedAt)
    && (forall slot :: IsMean(PointOffset(p, slot), Usable(b, slot)))
    && CommonBits(p.validity, b)
  }

  lemma MaskedSummary(p: ChartPoint, b: seq<Raw>)
    requires Summary(p, Applied(b))
    ensures RowSummary(p, b)
  {
    forall slot ensures IsMean(PointOffset(p, slot), Usable(b, slot)) { AppliedValues(b, slot); }
    assert forall i :: 0 <= i < |b| ==> Applied(b)[i].validity == b[i].validity;
  }

  lemma {:induction false} SplitApplied(rows: seq<Raw>, size: nat)
    requires size > 0
    ensures |Split(Applied(rows), size)| == |Split(rows, size)|
    ensures forall k :: 0 <= k < |Split(rows, size)| ==> Split(Applied(rows), size)[k] == Applied(Split(rows, size)[k])
  {
    if |rows| > size {
      SplitApplied(rows[size..], size);
      assert Applied(rows)[..size] == Applied(rows[..size]);
      assert Applied(rows)[size..] == Applied(rows[size..]);
    }
  }

  /** The times of the point are those of the row `i`, in milliseconds. */
  predicate StartsAt(p: ChartPoint, rows: seq<Raw>, i: int) {
    0 <= i < |rows| && p.ts == Millis(rows[i].ts) && p.receivedAt == Millis(rows[i].receivedAt)
  }

  /** QueryRange on the rows the database returned: their points, bucket by bucket. */
  method QueryRange(rows: seq<Raw>, maxPoints: int) returns (out: seq<ChartPoint>)
    ensures var bs := Split(rows, BucketSize(|rows|, maxPoints));
            |out| == |bs| && forall k :: 0 <= k < |out| ==> RowSummary(out[k], bs[k])
    ensures (maxPoints > 0 ==> |out| <= maxPoints) && TotalN(out) == |rows|
    ensures SortedByReceipt(rows) ==> PointsSorted(out)
    ensures forall k :: 0 <= k < |out| ==> StartsAt(out[k], rows, k * BucketSize(|rows|, maxPoints))
  {
    var raw: seq<Raw> := [];
    for i := 0 to |rows|
      invariant raw == Applied(rows[..i])
    {
      raw := raw + [ApplyValidity(rows[i])];
    }
    assert rows[..|rows|] == rows;
    out := Downsample(raw, maxPoints);
    SummaryShape(raw, maxPoints, out);
    SplitApplied(rows, BucketSize(|rows|, maxPoints));
    forall k | 0 <= k < |out| ensures RowSummary(out[k], Split(rows, BucketSize(|rows|, maxPoints))[k]) {
      MaskedSummary(out[k], Split(rows, BucketSize(|rows|, maxPoints))[k]);
    }
    forall k | 0 <= k < |out| ensures StartsAt(out[k], rows, k * BucketSize(|rows|, maxPoints)) {
      BucketAt(rows, BucketSize(|rows|, maxPoints), k);
    }
  }
}
