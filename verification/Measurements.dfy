/** The measurement pipeline (internal/store/measurement_store.go): a bounded queue that drops when full, and one loop
    that moves measurements from it into batches for the database. */
module Measurements {

  const QUEUE_SIZE := 2048
  const BATCH_SIZE := 512

  /** `inserted` lists the batches handed to insertBatch so far. */
  datatype State<M> = State(queue: seq<M>, batch: seq<M>, dropped: nat, inserted: seq<seq<M>>, running: bool)

  function Initial<M>(): State<M> {
    State([], [], 0, [], true)
  }

  datatype Event<M> =
    | Enqueue(m: M) // a device connection offers a measurement
    | Receive       // the loop takes one from the queue
    | Tick          // the flush timer fires
    | Quit          // the loop sees the closed quit channel and ends

  /** The loop serves its channels, in any order, until it quits; callers may offer at any time. */
  predicate Enabled<M>(s: State<M>, e: Event<M>) {
    match e
    case Enqueue(_) => true
    case Receive => s.running && s.queue != []
    case Tick => s.running
    case Quit => s.running
  }

  function Flushed<M>(s: State<M>): State<M> {
    if s.batch == [] then s else s.(batch := [], inserted := s.inserted + [s.batch])
  }

  function Apply<M>(s: State<M>, e: Event<M>): State<M>
    requires Enabled(s, e)
  {
    match e
    case Enqueue(m) =>
      if |s.queue| < QUEUE_SIZE then s.(queue := s.queue + [m]) else s.(dropped := s.dropped + 1)
    case Receive =>
      var t := s.(queue := s.queue[1..], batch := s.batch + [s.queue[0]]);
      if |t.batch| >= BATCH_SIZE then Flushed(t) else t
    case Tick => Flushed(s)
    case Quit => Flushed(s).(running := false)
  }

  // ---- runs ----

  ghost predicate Possible<M>(trace: seq<Event<M>>)
    decreases |trace|, 0
  {
    trace != [] ==> Possible(trace[..|trace| - 1]) && Enabled(Replay(trace[..|trace| - 1]), trace[|trace| - 1])
  }

  ghost function Replay<M>(trace: seq<Event<M>>): State<M>
    requires Possible(trace)
    decreases |trace|
  {
    if trace == [] then Initial() else Apply(Replay(trace[..|trace| - 1]), trace[|trace| - 1])
  }

  /** The measurements offered while the queue had room, in order. */
  ghost function Accepted<M>(trace: seq<Event<M>>): seq<M>
    requires Possible(trace)
  {
    if trace == [] then []
    else
      var before, e := trace[..|trace| - 1], trace[|trace| - 1];
      if e.Enqueue? && |Replay(before).queue| < 2048 then Accepted(before) + [e.m] else Accepted(before)
  }

  /** Calls of Enqueue. */
  function Offers<M>(trace: seq<Event<M>>): nat {
    if trace == [] then 0
    else Offers(trace[..|trace| - 1]) + if trace[|trace| - 1].Enqueue? then 1 else 0
  }

  function Concat<M>(batches: seq<seq<M>>): seq<M> {
    if batches == [] then [] else Concat(batches[..|batches| - 1]) + batches[|batches| - 1]
  }

  /** Everything accepted, in the order the pipeline holds it. */
  function Held<M>(s: State<M>): seq<M> {
    Concat(s.inserted) + s.batch + s.queue
  }

  ghost predicate Bounds<M>(s: State<M>) {
    && |s.queue| <= 2048
    && |s.batch| < 512
    && (forall i :: 0 <= i < |s.inserted| ==> 1 <= |s.inserted[i]| <= 512)
    && (!s.running ==> s.batch == [])
  }

  lemma FlushHolds<M>(s: State<M>)
    ensures Held(Flushed(s)) == Held(s)
  {
    if s.batch != [] {
      var t := Flushed(s);
      assert t.inserted[..|s.inserted|] == s.inserted;
      assert Concat(t.inserted) == Concat(s.inserted) + s.batch;
      assert Concat(t.inserted) + [] == Concat(t.inserted);
    }
  }

  lemma ReceiveHolds<M>(s: State<M>)
    requires s.queue != []
    ensures Held(s.(queue := s.queue[1..], batch := s.batch + [s.queue[0]])) == Held(s)
  {
    assert s.queue == [s.queue[0]] + s.queue[1..];
    assert s.batch + [s.queue[0]] + s.queue[1..] == s.batch + s.queue;
    assert Concat(s.inserted) + (s.batch + [s.queue[0]]) + s.queue[1..] == Concat(s.inserted) + (s.batch + s.queue);
  }

  lemma StepHolds<M>(s: State<M>, e: Event<M>)
    requires Enabled(s, e)
    ensures Held(Apply(s, e)) == if e.Enqueue? && |s.queue| < QUEUE_SIZE then Held(s) + [e.m] else Held(s)
  {
    match e
    case Enqueue(_) =>
    case Receive =>
      ReceiveHolds(s);
      FlushHolds(s.(queue := s.queue[1..], batch := s.batch + [s.queue[0]]));
    case Tick => FlushHolds(s);
    case Quit =>
      FlushHolds(s);
      assert Held(Apply(s, e)) == Held(Flushed(s));
  }

  lemma StepBounds<M>(s: State<M>, e: Event<M>)
    requires Enabled(s, e) && Bounds(s)
    ensures Bounds(Apply(s, e))
  {}

  /** Conservation over every interleaving: what was accepted is, in order, exactly what was handed to the database,
      then the batch, then the queue; every offer is either accepted or counted as dropped; batches and the queue keep
      their bounds; and the batch is empty once the loop has ended. */
  lemma {:induction false} Conservation<M>(trace: seq<Event<M>>)
    requires Possible(trace)
    ensures Held(Replay(trace)) == Accepted(trace)
    ensures |Accepted(trace)| + Replay(trace).dropped == Offers(trace)
    ensures Bounds(Replay(trace))
  {
    if trace != [] {
      var n := |trace| - 1;
      var s := Replay(trace[..n]);
      Conservation(trace[..n]);
      StepHolds(s, trace[n]);
      StepBounds(s, trace[n]);
      assert Replay(trace) == Apply(s, trace[n]);
    }
  }

  lemma RunExtend<M>(trace: seq<Event<M>>, e: Event<M>)
    requires Possible(trace) && Enabled(Replay(trace), e)
    ensures Possible(trace + [e]) && Replay(trace + [e]) == Apply(Replay(trace), e)
    ensures Accepted(trace + [e]) ==
              if e.Enqueue? && |Replay(trace).queue| < QUEUE_SIZE then Accepted(trace) + [e.m] else Accepted(trace)
  {
    assert (trace + [e])[..|trace|] == trace;
  }

  /** After a tick everything accepted is either with the database or still in the queue. */
  lemma AfterTick<M>(trace: seq<Event<M>>)
    requires Possible(trace) && Replay(trace).running
    ensures Possible(trace + [Tick])
    ensures var s := Replay(trace + [Tick]); s.batch == [] && Concat(s.inserted) + s.queue == Accepted(trace)
  {
    RunExtend(trace, Tick);
    Conservation(trace);
    FlushHolds(Replay(trace));
    NoBatchHeld(Flushed(Replay(trace)));
  }

  lemma NoBatchHeld<M>(s: State<M>)
    requires s.batch == []
    ensures Held(s) == Concat(s.inserted) + s.queue
  {
    assert Concat(s.inserted) + [] == Concat(s.inserted);
  }

  /** Taking a measurement from the queue hands over a batch exactly when it is the 512th, and then all 512. */
  lemma ReceiveHandsOver<M>(trace: seq<Event<M>>)
    requires Possible(trace) && Enabled(Replay(trace), Receive)
    ensures var s, t := Replay(trace), Apply(Replay(trace), Receive);
            && t.queue == s.queue[1..]
            && if |s.batch| + 1 == 512 then t.inserted == s.inserted + [s.batch + [s.queue[0]]] && t.batch == []
               else t.inserted == s.inserted && t.batch == s.batch + [s.queue[0]]
  {
    Conservation(trace);
  }

  /** What is still queued when the loop ends is never inserted, whatever is offered afterwards. */
  lemma {:induction false} QueueLeftAtQuit<M>(trace: seq<Event<M>>, k: nat)
    requires Possible(trace) && k <= |trace| && Possible(trace[..k]) && !Replay(trace[..k]).running
    ensures Replay(trace).inserted == Replay(trace[..k]).inserted && !Replay(trace).running
    ensures Replay(trace[..k]).queue <= Replay(trace).queue
  {
    if k < |trace| {
      var n := |trace| - 1;
      assert trace[..n][..k] == trace[..k];
      QueueLeftAtQuit(trace[..n], k);
    } else {
      assert trace[..k] == trace;
    }
  }

  /** The claim that quitting flushes everything accepted is false: one measurement queued at quit is lost. It holds
      exactly when the queue is empty. */
  lemma QuitLosesQueue<M>(m: M)
    ensures Possible([Enqueue(m), Quit]) && Replay([Enqueue(m), Quit]).inserted == []
    ensures Accepted([Enqueue(m), Quit]) == [m]
  {
    var empty: seq<Event<M>> := [];
    assert Possible(empty) && Replay(empty) == Initial();
    RunExtend(empty, Enqueue(m));
    assert empty + [Enqueue(m)] == [Enqueue(m)];
    assert [Enqueue(m)][..0] == empty;
    RunExtend([Enqueue(m)], Quit);
    assert [Enqueue(m)] + [Quit] == [Enqueue(m), Quit];
    assert [Enqueue(m), Quit][..1] == [Enqueue(m)];
  }

  lemma QuitFlushesExactly<M>(trace: seq<Event<M>>)
    requires Possible(trace) && Replay(trace).running
    ensures Possible(trace + [Quit])
    ensures Concat(Replay(trace + [Quit]).inserted) == Accepted(trace) <==> Replay(trace).queue == []
  {
    RunExtend(trace, Quit);
    Conservation(trace);
    FlushLeaves(Replay(trace));
  }

  lemma FlushLeaves<M>(s: State<M>)
    ensures Concat(Flushed(s).inserted) == Held(s) <==> s.queue == []
  {
    FlushHolds(s);
    var t := Flushed(s);
    assert Held(s) == Concat(t.inserted) + s.queue;
    assert |Held(s)| == |Concat(t.inserted)| + |s.queue|;
  }

  // ---- the store ----

  class MeasurementStore<M> {
    var queue: seq<M>
    var batch: seq<M>
    var dropped: nat
    var inserted: seq<seq<M>>
    var running: bool

    ghost function Now(): State<M>
      reads this
    {
      State(queue, batch, dropped, inserted, running)
    }

    constructor ()
      ensures Now() == Initial()
    {
      queue, batch, dropped, inserted, running := [], [], 0, [], true;
    }

    /** Enqueue never blocks: a full queue drops the measurement. */
    method Enqueue(m: M)
      modifies this`queue, this`dropped
      ensures Now() == Apply(old(Now()), Event.Enqueue(m))
    {
      if |queue| < QUEUE_SIZE { queue := queue + [m]; } else { dropped := dropped + 1; }
    }

    method Flush()
      modifies this`batch, this`inserted
      ensures Now() == Flushed(old(Now()))
    {
      if |batch| == 0 { return; }
      inserted := inserted + [batch];
      batch := [];
    }

    method OnReceive()
      requires running && queue != []
      modifies this`queue, this`batch, this`inserted
      ensures Now() == Apply(old(Now()), Receive)
    {
      var m := queue[0];
      queue := queue[1..];
      batch := batch + [m];
      if |batch| >= BATCH_SIZE { Flush(); }
    }

    method OnTick()
      requires running
      modifies this`batch, this`inserted
      ensures Now() == Apply(old(Now()), Tick)
    {
      Flush();
    }

    method OnQuit()
      requires running
      modifies this`batch, this`inserted, this`running
      ensures Now() == Apply(old(Now()), Quit)
    {
      Flush();
      running := false;
    }
  }
}
