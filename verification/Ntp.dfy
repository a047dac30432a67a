/** The NTP-disciplined clock (internal/ntp/ntp.go). Times and durations are integer nanoseconds; the code's
    float64 is `real`. */
module Ntp {
  import opened Bytes
  import opened Sequences
  import opened Sorting
  import opened LeastSquares

  const SECOND: real := 1000000000.0
  const MAX_SAMPLES := 8

  datatype Sample = Sample(at: int, off: int)

  /** The published correction: offset at time `ref` and drift. */
  datatype Estimate = Estimate(offset: int, slope: real, ref: int)

  // ---- the fit ----

  /** Go's conversion of a float64 to an integer: truncation toward zero. */
  function Trunc(r: real): int {
    if r >= 0.0 then r.Floor else -((-r).Floor)
  }

  function Seconds(d: int): real {
    d as real / SECOND
  }

  /** The samples in seconds, with time measured from `ref`. */
  function Points(ss: seq<Sample>, ref: int): (ps: seq<Point>)
    ensures |ps| == |ss|
  {
    seq(|ss|, i requires 0 <= i < |ss| => Point(Seconds(ss[i].at - ref), Seconds(ss[i].off)))
  }

  function PointsOf(ss: seq<Sample>): seq<Point>
    requires ss != []
  {
    Points(ss, ss[|ss| - 1].at)
  }

  /** The estimate the clock publishes for these samples. */
  function EstimateOf(ss: seq<Sample>): Estimate
    requires ss != []
  {
    Estimate(Trunc(Intercept(PointsOf(ss)) * SECOND), Slope(PointsOf(ss)), ss[|ss| - 1].at)
  }

  lemma SumSnoc(xs: seq<real>, i: nat)
    requires i < |xs|
    ensures Sum(xs[..i + 1]) == Sum(xs[..i]) + xs[i]
  {
    assert xs[..i + 1][..i] == xs[..i];
  }

  lemma SingleFit(p: Point)
    requires p.x == 0.0
    ensures Intercept([p]) == p.y && Slope([p]) == 0.0
  {
    assert Xs([p]) == [0.0] && Ys([p]) == [p.y];
    assert Times([0.0], [0.0]) == [0.0] && Times([0.0], [p.y]) == [0.0];
    assert Sum([0.0]) == 0.0 && Sum([p.y]) == p.y by {
      assert [0.0][..0] == [] && [p.y][..0] == [];
    }
  }

  lemma SecondsExact(d: int)
    ensures Trunc(Seconds(d) * SECOND) == d
  {
    assert Seconds(d) * SECOND == d as real;
  }

  /** The sums over the first `i` samples. */
  ghost predicate SumsUpTo(ps: seq<Point>, i: nat, sx: real, sy: real, sxx: real, sxy: real)
    requires i <= |ps|
  {
    && sx == Sum(Xs(ps)[..i]) && sy == Sum(Ys(ps)[..i])
    && sxx == Sum(Times(Xs(ps), Xs(ps))[..i]) && sxy == Sum(Times(Xs(ps), Ys(ps))[..i])
  }

  lemma SumsStep(ps: seq<Point>, i: nat, sx: real, sy: real, sxx: real, sxy: real, xx: real, xy: real)
    requires i < |ps| && SumsUpTo(ps, i, sx, sy, sxx, sxy)
    requires ScaledBy(xx, ps[i].x, ps[i].x) && ScaledBy(xy, ps[i].x, ps[i].y)
    ensures SumsUpTo(ps, i + 1, sx + ps[i].x, sy + ps[i].y, sxx + xx, sxy + xy)
  {
    SumSnoc(Xs(ps), i);
    SumSnoc(Ys(ps), i);
    SumSnoc(Times(Xs(ps), Xs(ps)), i);
    SumSnoc(Times(Xs(ps), Ys(ps)), i);
    TimesAt(Xs(ps), Xs(ps), i, xx);
    TimesAt(Xs(ps), Ys(ps), i, xy);
  }

  lemma TimesAt(xs: seq<real>, ys: seq<real>, i: nat, q: real)
    requires |xs| == |ys| && i < |xs| && ScaledBy(q, xs[i], ys[i])
    ensures Times(xs, ys)[i] == q
  {}

  lemma SumsAll(ps: seq<Point>, sx: real, sy: real, sxx: real, sxy: real)
    requires SumsUpTo(ps, |ps|, sx, sy, sxx, sxy)
    ensures sx == Sx(ps) && sy == Sy(ps) && sxx == Sxx(ps) && sxy == Sxy(ps)
  {
    assert Xs(ps)[..|ps|] == Xs(ps) && Ys(ps)[..|ps|] == Ys(ps);
    assert Times(Xs(ps), Xs(ps))[..|ps|] == Times(Xs(ps), Xs(ps));
    assert Times(Xs(ps), Ys(ps))[..|ps|] == Times(Xs(ps), Ys(ps));
  }

  /** The accumulation loop of fit. */
  method Sums(ss: seq<Sample>, ref: int) returns (sx: real, sy: real, sxx: real, sxy: real)
    ensures var ps := Points(ss, ref); sx == Sx(ps) && sy == Sy(ps) && sxx == Sxx(ps) && sxy == Sxy(ps)
  {
    ghost var ps := Points(ss, ref);
    sx, sy, sxx, sxy := 0.0, 0.0, 0.0, 0.0;
    for i := 0 to |ss|
      invariant SumsUpTo(ps, i, sx, sy, sxx, sxy)
    {
      var x, y := Seconds(ss[i].at - ref), Seconds(ss[i].off);
      SumsStep(ps, i, sx, sy, sxx, sxy, x * x, x * y);
      sx, sy, sxx, sxy := sx + x, sy + y, sxx + x * x, sxy + x * y;
    }
    SumsAll(ps, sx, sy, sxx, sxy);
  }

  /** The line fit computes from its sums. */
  method Line(n: real, sx: real, sy: real, sxx: real, sxy: real) returns (intercept: real, slope: real)
    requires n != 0.0
    ensures slope == SlopeOf(n, sx, sy, sxx, sxy) && intercept == InterceptOf(n, sx, sy, slope)
  {
    var denom := n * sxx - sx * sx;
    slope := 0.0;
    if denom != 0.0 {
      slope := (n * sxy - sx * sy) / denom;
    }
    intercept := (sy - slope * sx) / n;
  }

  /** fit: offset and drift of the least-squares line through the samples, offset truncated to nanoseconds. */
  method Fit(ss: seq<Sample>) returns (off: int, slope: real)
    ensures ss == [] ==> off == 0 && slope == 0.0
    ensures ss != [] ==> off == Trunc(Intercept(PointsOf(ss)) * SECOND) && slope == Slope(PointsOf(ss))
    ensures ss != [] ==> EstimateOf(ss) == Estimate(off, slope, ss[|ss| - 1].at)
  {
    if |ss| == 0 { return 0, 0.0; }
    if |ss| < 2 {
      var p := Point(0.0, Seconds(ss[0].off));
      assert PointsOf(ss) == [p];
      SingleFit(p);
      SecondsExact(ss[0].off);
      return ss[0].off, 0.0;
    }
    var sx, sy, sxx, sxy := Sums(ss, ss[|ss| - 1].at);
    var intercept;
    intercept, slope := Line(|ss| as real, sx, sy, sxx, sxy);
    off := Trunc(intercept * SECOND);
  }

  // ---- the correction ----

  /** Correct: the identity before the first synchronisation. */
  function Correct(st: Option<Estimate>, t: int): int {
    match st
    case None => t
    case Some(e) => t + e.offset + Trunc(e.slope * (t - e.ref) as real)
  }

  lemma TruncShift(r: real, s: real, d: nat)
    requires s >= r - d as real
    ensures Trunc(s) >= Trunc(r) - d
  {}

  lemma SlopeShift(slope: real, t1: int, t2: int, ref: int)
    requires slope >= -1.0 && t1 <= t2
    ensures slope * (t2 - ref) as real >= slope * (t1 - ref) as real - (t2 - t1) as real
  {
    var d := (t2 - t1) as real;
    assert (t2 - ref) as real == (t1 - ref) as real + d;
    assert (slope + 1.0) * d >= 0.0;
  }

  /** A slope of at least -1 keeps corrected times in order, truncation included. */
  lemma CorrectMonotone(st: Option<Estimate>, t1: int, t2: int)
    requires t1 <= t2
    requires st.Some? ==> st.value.slope >= -1.0
    ensures Correct(st, t1) <= Correct(st, t2)
  {
    if st.Some? {
      var e := st.value;
      SlopeShift(e.slope, t1, t2, e.ref);
      TruncShift(e.slope * (t1 - e.ref) as real, e.slope * (t2 - e.ref) as real, t2 - t1);
    }
  }

  ghost predicate Monotone(st: Option<Estimate>) {
    forall t1, t2 :: t1 <= t2 ==> Correct(st, t1) <= Correct(st, t2)
  }

  lemma SteepSlope(slope: real, n: nat)
    requires slope < -1.0 && n as real * (-1.0 - slope) >= 1.0
    ensures n + Trunc(slope * n as real) < 0
  {
    assert slope * n as real == -(n as real) - n as real * (-1.0 - slope);
  }

  /** Exactly the estimates with a slope of at least -1 never reorder times. */
  lemma MonotoneExactly(e: Estimate)
    ensures Monotone(Some(e)) <==> e.slope >= -1.0
  {
    if e.slope >= -1.0 {
      forall t1, t2 | t1 <= t2 ensures Correct(Some(e), t1) <= Correct(Some(e), t2) {
        CorrectMonotone(Some(e), t1, t2);
      }
    } else {
      var eps := -1.0 - e.slope;
      var n: nat := (1.0 / eps).Floor + 1;
      assert n as real * eps >= 1.0 by {
        var q := 1.0 / eps;
        assert q * eps == 1.0;
        assert n as real >= q;
        assert (n as real - q) * eps >= 0.0;
      }
      SteepSlope(e.slope, n);
      assert e.slope * 0.0 == 0.0;
      assert Correct(Some(e), e.ref) == e.ref + e.offset;
      assert Correct(Some(e), e.ref + n) < Correct(Some(e), e.ref);
    }
  }

  // ---- the median of a round ----

  predicate IntLe(x: int, y: int) {
    x <= y
  }

  function Answered(answers: seq<Option<int>>): seq<int> {
    if answers == [] then []
    else
      var front := Answered(answers[..|answers| - 1]);
      match answers[|answers| - 1]
      case None => front
      case Some(off) => front + [off]
  }

  function Median(offs: seq<int>): int
    requires offs != []
  {
    SortLength(offs);
    Sort(offs, IntLe)[|offs| / 2]
  }

  /** How many of the values lie in [lo, hi]. */
  function Inside(s: seq<int>, lo: int, hi: int): nat {
    if s == [] then 0 else (if lo <= s[0] <= hi then 1 else 0) + Inside(s[1..], lo, hi)
  }

  lemma {:induction false} InsideInsert(x: int, s: seq<int>, lo: int, hi: int)
    ensures Inside(Insert(x, s, IntLe), lo, hi) == Inside(s, lo, hi) + if lo <= x <= hi then 1 else 0
  {
    var r := Insert(x, s, IntLe);
    if s == [] {
      assert r[1..] == [];
    } else if x <= s[0] {
      assert r[1..] == s;
    } else {
      InsideInsert(x, s[1..], lo, hi);
      assert r[1..] == Insert(x, s[1..], IntLe);
    }
  }

  lemma {:induction false} InsideSort(s: seq<int>, lo: int, hi: int)
    ensures Inside(Sort(s, IntLe), lo, hi) == Inside(s, lo, hi)
  {
    if s != [] {
      InsideSort(s[1..], lo, hi);
      InsideInsert(s[0], Sort(s[1..], IntLe), lo, hi);
    }
  }

  /** Values outside the interval at either end bound the count. */
  lemma {:induction false} InsideBound(s: seq<int>, lo: int, hi: int, from: nat, upto: nat)
    requires from <= upto <= |s|
    requires forall i :: 0 <= i < |s| && !(from <= i < upto) ==> !(lo <= s[i] <= hi)
    ensures Inside(s, lo, hi) <= upto - from
  {
    if s != [] {
      if from > 0 {
        InsideBound(s[1..], lo, hi, from - 1, upto - 1);
      } else if upto > 0 {
        InsideBound(s[1..], lo, hi, 0, upto - 1);
      } else {
        InsideBound(s[1..], lo, hi, 0, 0);
      }
    }
  }

  lemma SortLength(offs: seq<int>)
    ensures |Sort(offs, IntLe)| == |offs|
  {
    var s := Sort(offs, IntLe);
    assert |s| == |multiset(s)| == |multiset(offs)| == |offs|;
  }

  lemma MiddleMajority(s: seq<int>, lo: int, hi: int)
    requires Sorted(s, IntLe) && 2 * Inside(s, lo, hi) > |s|
    ensures s != [] && lo <= s[|s| / 2] <= hi
  {
    if s != [] {
      var k := |s| / 2;
      if s[k] < lo {
        assert forall i :: 0 <= i < k ==> IntLe(s[i], s[k]);
        InsideBound(s, lo, hi, k + 1, |s|);
      }
      if s[k] > hi {
        assert forall i :: k < i < |s| ==> IntLe(s[k], s[i]);
        InsideBound(s, lo, hi, 0, k);
      }
    }
  }

  lemma {:induction false} InsidePrefix(s: seq<int>, lo: int, hi: int, upto: nat)
    requires upto <= |s| && forall i :: 0 <= i < upto ==> lo <= s[i] <= hi
    ensures Inside(s, lo, hi) >= upto
  {
    if upto > 0 { InsidePrefix(s[1..], lo, hi, upto - 1); }
  }

  /** The median is the upper middle: at most half of the answers, rounded down, are smaller, and more than that many
      are no larger. */
  lemma MedianUpper(offs: seq<int>, lo: int)
    requires offs != [] && forall i :: 0 <= i < |offs| ==> lo <= offs[i]
    ensures Inside(offs, lo, Median(offs) - 1) <= |offs| / 2 < Inside(offs, lo, Median(offs))
  {
    var s := Sort(offs, IntLe);
    SortLength(offs);
    SortSorts(offs, IntLe);
    SortBounded(offs, lo);
    InsideSort(offs, lo, Median(offs) - 1);
    InsideSort(offs, lo, Median(offs));
    MiddleRank(s, lo, |offs| / 2);
  }

  lemma SortBounded(offs: seq<int>, lo: int)
    requires forall i :: 0 <= i < |offs| ==> lo <= offs[i]
    ensures forall i :: 0 <= i < |Sort(offs, IntLe)| ==> lo <= Sort(offs, IntLe)[i]
  {
    var s := Sort(offs, IntLe);
    forall i | 0 <= i < |s| ensures lo <= s[i] { assert s[i] in multiset(s) && s[i] in multiset(offs); }
  }

  lemma MiddleRank(s: seq<int>, lo: int, k: nat)
    requires Sorted(s, IntLe) && k < |s| && forall i :: 0 <= i < |s| ==> lo <= s[i]
    ensures Inside(s, lo, s[k] - 1) <= k < Inside(s, lo, s[k])
  {
    forall i | k <= i < |s| ensures !(lo <= s[i] <= s[k] - 1) { assert k < i ==> IntLe(s[k], s[i]); }
    InsideBound(s, lo, s[k] - 1, 0, k);
    forall i | 0 <= i < k + 1 ensures lo <= s[i] <= s[k] { assert i < k ==> IntLe(s[i], s[k]); }
    InsidePrefix(s, lo, s[k], k + 1);
  }

  /** Every answer is kept, in order, and nothing else. */
  lemma {:induction false} AnsweredIs(a: seq<Option<int>>, b: seq<Option<int>>)
    ensures Answered(a + b) == Answered(a) + Answered(b)
    ensures forall off :: Answered([Some(off)]) == [off]
    ensures Answered([None]) == []
  {
    assert Answered([]) == [];
    forall off: Option<int> ensures [off][..0] == [] {}
    if b == [] {
      assert a + b == a;
    } else {
      var n := |b| - 1;
      AnsweredIs(a, b[..n]);
      assert (a + b)[..|a + b| - 1] == a + b[..n];
    }
  }

  /** The median lies in every interval that holds a strict majority of the answers. */
  lemma MedianMajority(offs: seq<int>, lo: int, hi: int)
    requires 2 * Inside(offs, lo, hi) > |offs|
    ensures offs != [] && lo <= Median(offs) <= hi
  {
    var s := Sort(offs, IntLe);
    SortLength(offs);
    SortSorts(offs, IntLe);
    InsideSort(offs, lo, hi);
    MiddleMajority(s, lo, hi);
  }

  // ---- the correction follows the line ----

  /** The value at `d` nanoseconds of the line with intercept `a` in seconds and slope `b`, in nanoseconds. */
  function LineAt(a: real, b: real, d: int): real {
    (a + b * Seconds(d)) * SECOND
  }

  /** What an offset of `base` has become after drifting for `d` nanoseconds. */
  function DriftAt(base: real, drift: real, d: int): real {
    base + drift * d as real
  }

  /** `r` is off `t` by less than two nanoseconds more or less than the fitted line's value at `t`. */
  predicate OnFittedLine(ss: seq<Sample>, t: int, r: int)
    requires ss != []
  {
    Near(r - t, LineAt(Intercept(PointsOf(ss)), Slope(PointsOf(ss)), t - ss[|ss| - 1].at), 2.0)
  }

  lemma LineInNanos(a: real, b: real, d: int)
    ensures LineAt(a, b, d) == DriftAt(a * SECOND, b, d)
  {
    assert Seconds(d) * SECOND == d as real;
    assert b * Seconds(d) * SECOND == b * (Seconds(d) * SECOND);
  }

  /** Truncation goes toward zero and by less than one. */
  lemma TruncNear(r: real)
    ensures r >= 0.0 ==> Trunc(r) as real <= r < Trunc(r) as real + 1.0
    ensures r < 0.0 ==> Trunc(r) as real - 1.0 < r <= Trunc(r) as real
  {}

  predicate Near(n: int, x: real, eps: real) {
    -eps < n as real - x < eps
  }

  lemma NearSum(m: int, x: real, n: int, y: real, z: real)
    requires Near(m, x, 1.0) && Near(n, y, 1.0) && z == x + y
    ensures Near(m + n, z, 2.0)
  {}

  lemma EstimateNear(e: Estimate, x: real, t: int)
    requires e.offset == Trunc(x)
    ensures Near(Correct(Some(e), t) - t, DriftAt(x, e.slope, t - e.ref), 2.0)
  {
    var y := e.slope * (t - e.ref) as real;
    TruncNear(x);
    TruncNear(y);
    NearSum(Trunc(x), x, Trunc(y), y, x + y);
    assert Correct(Some(e), t) == t + Trunc(x) + Trunc(y);
  }

  lemma CorrectNearLine(ss: seq<Sample>, t: int)
    requires ss != []
    ensures OnFittedLine(ss, t, Correct(Some(EstimateOf(ss)), t))
  {
    LineNear(EstimateOf(ss), Intercept(PointsOf(ss)), t);
  }

  lemma LineNear(e: Estimate, a: real, t: int)
    requires e.offset == Trunc(a * SECOND)
    ensures Near(Correct(Some(e), t) - t, LineAt(a, e.slope, t - e.ref), 2.0)
  {
    EstimateNear(e, a * SECOND, t);
    LineInNanos(a, e.slope, t - e.ref);
  }

  /** After one round every time moves by exactly the offset measured. */
  lemma OneRound(s: Sample, t: int)
    ensures Correct(Some(EstimateOf([s])), t) == t + s.off
  {
    assert PointsOf([s]) == [Point(0.0, Seconds(s.off))];
    SingleFit(Point(0.0, Seconds(s.off)));
    SecondsExact(s.off);
    assert 0.0 * (t - s.at) as real == 0.0;
  }

  /** `off` is `base` plus `drift` for each of `d` nanoseconds. */
  predicate Drifted(off: int, base: real, drift: real, d: int) {
    off as real == base + drift * d as real
  }

  /** The offset measured at each sample's time is `base` plus `drift` for each nanosecond since the last sample. */
  predicate Drifting(ss: seq<Sample>, base: real, drift: real)
    requires ss != []
  {
    forall i :: 0 <= i < |ss| ==> Drifted(ss[i].off, base, drift, ss[i].at - ss[|ss| - 1].at)
  }

  lemma DriftedOnLine(off: int, base: real, drift: real, d: int)
    requires Drifted(off, base, drift, d)
    ensures OnLine(Point(Seconds(d), Seconds(off)), base / SECOND, drift)
  {
    assert (base + drift * d as real) / SECOND == base / SECOND + drift * (d as real / SECOND);
  }

  lemma DriftingLine(ss: seq<Sample>, base: real, drift: real)
    requires ss != [] && Drifting(ss, base, drift) && exists i, j :: 0 <= i < j < |ss| && ss[i].at != ss[j].at
    ensures Intercept(PointsOf(ss)) == base / SECOND && Slope(PointsOf(ss)) == drift
  {
    var ps := PointsOf(ss);
    forall i | 0 <= i < |ps| ensures OnLine(ps[i], base / SECOND, drift) {
      assert Drifted(ss[i].off, base, drift, ss[i].at - ss[|ss| - 1].at);
      DriftedOnLine(ss[i].off, base, drift, ss[i].at - ss[|ss| - 1].at);
    }
    var i, j :| 0 <= i < j < |ss| && ss[i].at != ss[j].at;
    assert ps[i].x != ps[j].x;
    CollinearRecovered(ps, base / SECOND, drift);
  }

  lemma ThereAndBack(x: real)
    ensures x / SECOND * SECOND == x
  {}

  lemma DriftingEstimate(ss: seq<Sample>, base: real, drift: real)
    requires ss != [] && Drifting(ss, base, drift) && exists i, j :: 0 <= i < j < |ss| && ss[i].at != ss[j].at
    ensures EstimateOf(ss) == Estimate(Trunc(base), drift, ss[|ss| - 1].at)
  {
    DriftingLine(ss, base, drift);
    ThereAndBack(base);
  }

  /** Offsets that drift evenly are recovered: every time moves by what they were or will be at that time, up to less
      than two nanoseconds. */
  lemma DriftRecovered(ss: seq<Sample>, base: real, drift: real, t: int)
    requires ss != [] && Drifting(ss, base, drift) && exists i, j :: 0 <= i < j < |ss| && ss[i].at != ss[j].at
    ensures Near(Correct(Some(EstimateOf(ss)), t) - t, DriftAt(base, drift, t - ss[|ss| - 1].at), 2.0)
  {
    DriftingEstimate(ss, base, drift);
    EstimateNear(Estimate(Trunc(base), drift, ss[|ss| - 1].at), base, t);
  }

  lemma CorrectFollows(history: seq<Sample>, t: int)
    requires history != []
    ensures var ss := LastN(history, MAX_SAMPLES);
            && ss != [] && ss[|ss| - 1] == history[|history| - 1]
            && OnFittedLine(ss, t, Correct(Some(EstimateOf(ss)), t))
            && (|history| == 1 ==> Correct(Some(EstimateOf(ss)), t) == t + history[0].off)
  {
    var ss := LastN(history, MAX_SAMPLES);
    CorrectNearLine(ss, t);
    if |history| == 1 {
      assert ss == [history[0]];
      OneRound(history[0], t);
    }
  }

  // ---- the clock ----

  class Clock {
    var samples: seq<Sample>
    var st: Option<Estimate>
    ghost var history: seq<Sample>  // every successful round, oldest first

    /** The window is the last eight successful rounds and the estimate is fitted to it. */
    ghost predicate Valid()
      reads this
    {
      && samples == LastN(history, MAX_SAMPLES)
      && if history == [] then st == None
         else st == Some(EstimateOf(samples))
    }

    constructor ()
      ensures Valid() && history == []
    {
      samples, st, history := [], None, [];
    }

    method AddSample(s: Sample)
      requires Valid()
      modifies this
      ensures Valid() && history == old(history) + [s]
    {
      samples := samples + [s];
      if |samples| > MAX_SAMPLES {
        samples := samples[1..];
      }
      history := history + [s];
      assert samples == LastN(history, MAX_SAMPLES);
      var off, slope := Fit(samples);
      st := Some(Estimate(off, slope, samples[|samples| - 1].at));
    }

    /** One round; a server that does not answer is skipped, a round without answers changes nothing. */
    method Sync(answers: seq<Option<int>>, now: int)
      requires Valid()
      modifies this
      ensures Valid()
      ensures Answered(answers) == [] ==> unchanged(this)
      ensures Answered(answers) != [] ==> history == old(history) + [Sample(now, Median(Answered(answers)))]
    {
      var offs := [];
      for i := 0 to |answers|
        invariant offs == Answered(answers[..i])
      {
        assert answers[..i + 1][..i] == answers[..i];
        if answers[i].Some? { offs := offs + [answers[i].value]; }
      }
      assert answers[..|answers|] == answers;
      if |offs| == 0 { return; }
      var sorted := Sort(offs, IntLe);
      SortLength(offs);
      AddSample(Sample(now, sorted[|sorted| / 2]));
    }

    /** Before the first round the time stays as it is; after one it moves by that offset; in general it moves by what
        the least-squares line of the window says for that time, up to two truncations. */
    method CorrectNow(t: int) returns (r: int)
      requires Valid()
      ensures r == Correct(st, t)
      ensures history == [] ==> r == t
      ensures |history| == 1 ==> r == t + history[0].off
      ensures history != [] ==> OnFittedLine(LastN(history, 8), t, r)
    {
      if history != [] { CorrectFollows(history, t); }
      r := Correct(st, t);
    }
  }

  // ---- a clock that swaps times ----

  /** Two samples at distinct times are fitted by the line through them. */
  lemma TwoSamples(a: Sample, b: Sample, slope: real)
    requires a.at < b.at && Seconds(a.off) == Seconds(b.off) + slope * Seconds(a.at - b.at)
    ensures Slope(PointsOf([a, b])) == slope && Intercept(PointsOf([a, b])) == Seconds(b.off)
  {
    var ps := PointsOf([a, b]);
    assert ps[0] == Point(Seconds(a.at - b.at), Seconds(a.off)) && ps[1] == Point(Seconds(0), Seconds(b.off));
    assert OnLine(ps[1], Seconds(b.off), slope);
    assert ps[0].x < ps[1].x;
    CollinearRecovered(ps, Seconds(b.off), slope);
  }

  const NANOS := 1000000000

  function SteepHistory(t: int): seq<Sample> {
    [Sample(t, 0), Sample(t + NANOS, -2 * NANOS)]
  }

  function SteepEstimate(t: int): Estimate {
    Estimate(-2 * NANOS, -2.0, t + NANOS)
  }

  lemma SteepSamples(t: int)
    ensures var ps := PointsOf(SteepHistory(t)); Slope(ps) == -2.0 && Trunc(Intercept(ps) * SECOND) == -2 * NANOS
  {
    var a, b := Sample(t, 0), Sample(t + NANOS, -2 * NANOS);
    assert Seconds(a.off) == 0.0 && Seconds(b.off) == -2.0 && Seconds(a.at - b.at) == -1.0;
    TwoSamples(a, b, -2.0);
    SecondsExact(b.off);
  }

  lemma SteepSwaps(t: int)
    ensures Correct(Some(SteepEstimate(t)), t + NANOS) == t - NANOS
    ensures Correct(Some(SteepEstimate(t)), t + NANOS + 1) == t - NANOS - 1
  {}

  /** Two rounds of a new clock. */
  method SteepClock(t: int) returns (clock: Clock)
    ensures fresh(clock) && clock.Valid() && clock.st == Some(SteepEstimate(t))
  {
    clock := new Clock();
    AnsweredOne(0);
    AnsweredOne(-2 * NANOS);
    clock.Sync([Some(0)], t);
    clock.Sync([Some(-2 * NANOS)], t + NANOS);
    assert clock.history == SteepHistory(t);
    SteepSamples(t);
  }

  /** Two rounds a second apart whose servers answer with offsets 0 and -2 s give a slope of -2: the clock then puts the
      instant after the second round before that round. */
  method ClockSwapsTimes(t: int) returns (slope: real, round: int, next: int)
    ensures slope == -2.0
    ensures round == t - NANOS && next == round - 1
  {
    var clock := SteepClock(t);
    SteepSwaps(t);
    slope := clock.st.value.slope;
    round := clock.CorrectNow(t + NANOS);
    next := clock.CorrectNow(t + NANOS + 1);
  }

  lemma AnsweredOne(off: int)
    ensures Answered([Some(off)]) == [off] && Median([off]) == off
  {
    assert [Some(off)][..0] == [];
    assert Sort([off], IntLe) == [off];
  }
}
