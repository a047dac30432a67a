/** Ring histories of the web server (internal/web/timelog.go, internal/web/logs.go): cells that are overwritten in
    turn must read back as "the last N". */
module Rings {
  import opened Bytes
  import opened Sequences

  // ---- the last n ----

  function Repeat<T>(x: T, n: nat): (s: seq<T>)
    ensures |s| == n
  {
    seq(n, _ => x)
  }

  lemma LastNPush<T>(xs: seq<T>, x: T, n: nat)
    requires 0 < n <= |xs|
    ensures LastN(xs + [x], n) == LastN(xs, n)[1..] + [x]
  {}

  /** Padding in front only shows while there are fewer than n. */
  lemma LastNPadded<T>(pad: T, xs: seq<T>, n: nat)
    ensures LastN(Repeat(pad, n) + xs, n) == Repeat(pad, n - |LastN(xs, n)|) + LastN(xs, n)
  {}

  // ---- the ring ----

  /** A ring of cells with the cell that is next to be written, which is also the oldest. */
  class Ring<T> {
    const cells: array<T>
    var at: nat

    ghost predicate Valid()
      reads this
    {
      at < cells.Length
    }

    /** The cells from the oldest on. */
    ghost function Order(): seq<T>
      reads this, cells
      requires Valid()
    {
      cells[at..] + cells[..at]
    }

    constructor (size: nat, x: T)
      requires size > 0
      ensures Valid() && fresh(cells) && cells.Length == size && Order() == Repeat(x, size)
    {
      cells := new T[size](_ => x);
      at := 0;
    }

    /** r.Value = x, then r.Next(). */
    method Push(x: T)
      requires Valid()
      modifies this`at, cells
      ensures Valid() && Order() == old(Order())[1..] + [x]
    {
      cells[at] := x;
      at := if at + 1 == cells.Length then 0 else at + 1;
    }
  }

  // ---- one history for all events ----

  const MAX_LOGS := 100

  function NonEmpty(xs: seq<string>): seq<string> {
    if xs == [] then []
    else if xs[|xs| - 1] != "" then NonEmpty(xs[..|xs| - 1]) + [xs[|xs| - 1]]
    else NonEmpty(xs[..|xs| - 1])
  }

  lemma {:induction false} NonEmptyPadded(n: nat, xs: seq<string>)
    ensures NonEmpty(Repeat("", n) + xs) == NonEmpty(xs)
  {
    var s := Repeat("", n) + xs;
    if xs != [] {
      var k := |xs| - 1;
      NonEmptyPadded(n, xs[..k]);
      assert s[..|s| - 1] == Repeat("", n) + xs[..k];
    } else if n > 0 {
      NonEmptyPadded(n - 1, []);
      assert s[..n - 1] == Repeat("", n - 1) + [];
    }
  }

  /** Exactly the messages that are not empty, in order, each as often as it occurs. */
  lemma {:induction false} NonEmptyIs(xs: seq<string>)
    ensures Subsequence(NonEmpty(xs), xs)
    ensures forall s :: multiset(NonEmpty(xs))[s] == if s == "" then 0 else multiset(xs)[s]
  {
    if xs != [] {
      var n := |xs| - 1;
      NonEmptyIs(xs[..n]);
      assert xs == xs[..n] + [xs[n]];
      var kept := NonEmpty(xs);
      if xs[n] != "" { assert kept[..|kept| - 1] == NonEmpty(xs[..n]); }
    }
  }

  class LogServer {
    const history: Ring<string>
    ghost var pushed: seq<string>

    ghost predicate Valid()
      reads this, history, history.cells
    {
      && history.Valid() && history.cells.Length == MAX_LOGS
      && history.Order() == LastN(Repeat("", MAX_LOGS) + pushed, MAX_LOGS)
    }

    constructor ()
      ensures Valid() && pushed == [] && fresh(history) && fresh(history.cells)
    {
      history := new Ring(MAX_LOGS, "");
      pushed := [];
    }

    /** addToHistory. */
    method AddToHistory(msg: string)
      requires Valid()
      modifies this`pushed, history, history.cells
      ensures Valid() && pushed == old(pushed) + [msg]
    {
      LastNPush(Repeat("", MAX_LOGS) + pushed, msg, MAX_LOGS);
      assert Repeat("", MAX_LOGS) + (pushed + [msg]) == Repeat("", MAX_LOGS) + pushed + [msg];
      history.Push(msg);
      pushed := pushed + [msg];
    }

    /** getHistory: the messages that are not empty among the last 100 pushed, in order. */
    method GetHistory() returns (result: seq<string>)
      requires Valid()
      ensures result == NonEmpty(LastN(pushed, 100))
    {
      result := [];
      var r := history.at;
      ghost var order := history.Order();
      for i := 0 to MAX_LOGS
        invariant r == (if history.at + i < MAX_LOGS then history.at + i else history.at + i - MAX_LOGS)
        invariant i < MAX_LOGS ==> r < MAX_LOGS
        invariant result == NonEmpty(order[..i])
      {
        var v := history.cells[r];
        assert v == order[i] && order[..i + 1][..i] == order[..i];
        if v != "" {
          result := result + [v];
        }
        r := if r + 1 == MAX_LOGS then 0 else r + 1;
      }
      assert order[..MAX_LOGS] == order;
      LastNPadded("", pushed, MAX_LOGS);
      NonEmptyPadded(MAX_LOGS - |LastN(pushed, MAX_LOGS)|, LastN(pushed, MAX_LOGS));
    }
  }

  // ---- a history for each device ----

  const MAX_TIME_LOGS := 500

  datatype TimeEntry<P> = TimeEntry(device: string, payload: P)

  /** The entries of one device, in order. */
  function Of<P>(es: seq<TimeEntry<P>>, d: string): seq<TimeEntry<P>> {
    if es == [] then []
    else if es[|es| - 1].device == d then Of(es[..|es| - 1], d) + [es[|es| - 1]]
    else Of(es[..|es| - 1], d)
  }

  /** Exactly the entries of that device, in order, each as often as it occurs. */
  lemma {:induction false} OfIs<P(!new)>(es: seq<TimeEntry<P>>, d: string)
    ensures Subsequence(Of(es, d), es)
    ensures forall e :: multiset(Of(es, d))[e] == if e.device == d then multiset(es)[e] else 0
  {
    if es != [] {
      var n := |es| - 1;
      OfIs(es[..n], d);
      assert es == es[..n] + [es[n]];
      var kept := Of(es, d);
      if es[n].device == d { assert kept[..|kept| - 1] == Of(es[..n], d); }
    }
  }

  lemma OfPush<P>(es: seq<TimeEntry<P>>, e: TimeEntry<P>, d: string)
    ensures Of(es + [e], d) == if e.device == d then Of(es, d) + [e] else Of(es, d)
  {
    assert (es + [e])[..|es|] == es;
  }

  /** The written cells. */
  function Present<T>(xs: seq<Option<T>>): seq<T> {
    if xs == [] then []
    else if xs[|xs| - 1].Some? then Present(xs[..|xs| - 1]) + [xs[|xs| - 1].value]
    else Present(xs[..|xs| - 1])
  }

  function Somes<T>(xs: seq<T>): (s: seq<Option<T>>)
    ensures |s| == |xs|
  {
    seq(|xs|, i requires 0 <= i < |xs| => Some(xs[i]))
  }

  lemma {:induction false} PresentPadded<T>(n: nat, xs: seq<T>)
    ensures Present(Repeat(None, n) + Somes(xs)) == xs
  {
    var s := Repeat(None, n) + Somes(xs);
    if xs != [] {
      var k := |xs| - 1;
      PresentPadded(n, xs[..k]);
      assert s[..|s| - 1] == Repeat(None, n) + Somes(xs[..k]);
    } else if n > 0 {
      PresentPadded<T>(n - 1, []);
      assert s[..n - 1] == Repeat(None, n - 1) + Somes<T>([]);
    }
  }

  /** What the ring of a device holds after its entries `es`. */
  function RingAfter<P>(es: seq<TimeEntry<P>>): seq<Option<TimeEntry<P>>> {
    LastN(Repeat(None, MAX_TIME_LOGS) + Somes(es), MAX_TIME_LOGS)
  }

  lemma RingAfterPush<P>(es: seq<TimeEntry<P>>, e: TimeEntry<P>)
    ensures |RingAfter(es)| == MAX_TIME_LOGS && RingAfter(es + [e]) == RingAfter(es)[1..] + [Some(e)]
  {
    var pad := Repeat(None, MAX_TIME_LOGS);
    LastNPush(pad + Somes(es), Some(e), MAX_TIME_LOGS);
    assert pad + Somes(es + [e]) == pad + Somes(es) + [Some(e)];
  }

  lemma RingReads<P>(es: seq<TimeEntry<P>>)
    ensures Present(RingAfter(es)) == LastN(es, MAX_TIME_LOGS)
  {
    LastNPadded(None, Somes(es), MAX_TIME_LOGS);
    assert LastN(Somes(es), MAX_TIME_LOGS) == Somes(LastN(es, MAX_TIME_LOGS));
    PresentPadded(MAX_TIME_LOGS - |LastN(es, MAX_TIME_LOGS)|, LastN(es, MAX_TIME_LOGS));
  }

  class TimeLogServer<P> {
    var rings: map<string, Ring<Option<TimeEntry<P>>>>
    ghost var seen: seq<TimeEntry<P>>
    ghost var repr: set<object>

    ghost predicate RingOk(d: string)
      requires d in rings
      reads this, repr
    {
      var r := rings[d];
      && r in repr && r.cells in repr
      && r.Valid() && r.cells.Length == MAX_TIME_LOGS
      && r.Order() == RingAfter(Of(seen, d))
    }

    ghost predicate Valid()
      reads this, repr
    {
      && this !in repr
      && (forall d :: d in rings ==> RingOk(d))
      && (forall d, e :: d in rings && e in rings && d != e ==>
            rings[d] != rings[e] && rings[d].cells != rings[e].cells)
      && (forall d :: d !in rings ==> Of(seen, d) == [])
    }

    constructor ()
      ensures Valid() && seen == [] && fresh(repr)
    {
      rings, seen, repr := map[], [], {};
    }

    /** broadcastLoop, for one entry: the device's ring is made on first use, then written. */
    method OnEntry(e: TimeEntry<P>)
      requires Valid()
      modifies this, repr
      ensures Valid() && seen == old(seen) + [e] && fresh(repr - old(repr))
    {
      if e.device !in rings { AddRing(e.device); }
      Write(e);
    }

    method Write(e: TimeEntry<P>)
      requires Valid() && e.device in rings
      modifies this`seen, rings[e.device], rings[e.device].cells
      ensures Valid() && seen == old(seen) + [e]
    {
      var r := rings[e.device];
      assert RingOk(e.device);
      RingAfterPush(Of(seen, e.device), e);
      r.Push(Some(e));
      seen := seen + [e];
      forall d ensures Of(seen, d) == if e.device == d then Of(old(seen), d) + [e] else Of(old(seen), d) {
        OfPush(old(seen), e, d);
      }
      forall d | d in rings ensures RingOk(d) {
        assert old(RingOk(d));
      }
    }

    method AddRing(device: string)
      requires Valid() && device !in rings
      modifies this`rings, this`repr
      ensures Valid() && device in rings && fresh(repr - old(repr)) && old(repr) <= repr
    {
      var r := new Ring<Option<TimeEntry<P>>>(MAX_TIME_LOGS, None);
      FreshRing<P>();
      rings := rings[device := r];
      repr := repr + {r, r.cells};
    }

    /** history: the last 500 entries of this device, in order, whatever other devices sent. */
    method History(device: string) returns (out: seq<TimeEntry<P>>)
      requires Valid()
      ensures out == LastN(Of(seen, device), 500)
    {
      out := [];
      if device !in rings { return; }
      var ring := rings[device];
      assert RingOk(device);
      var r := ring.at;
      ghost var order := ring.Order();
      for i := 0 to MAX_TIME_LOGS
        invariant r == (if ring.at + i < MAX_TIME_LOGS then ring.at + i else ring.at + i - MAX_TIME_LOGS)
        invariant out == Present(order[..i])
      {
        var v := ring.cells[r];
        assert v == order[i] && order[..i + 1][..i] == order[..i];
        if v.Some? { out := out + [v.value]; }
        r := if r + 1 == MAX_TIME_LOGS then 0 else r + 1;
      }
      assert order[..MAX_TIME_LOGS] == order;
      RingReads(Of(seen, device));
    }
  }

  lemma FreshRing<P>()
    ensures RingAfter<P>([]) == Repeat(None, MAX_TIME_LOGS)
  {
    assert Repeat(None, MAX_TIME_LOGS) + Somes<TimeEntry<P>>([]) == Repeat(None, MAX_TIME_LOGS);
  }
}
