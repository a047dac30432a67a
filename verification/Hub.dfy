/** The in-memory broadcaster (internal/hub/hub.go): one event loop that owns the subscriber map, lossy
    bounded channels to the subscribers, and the trace-level meaning of "lossy broadcast". */
module Hub {
  import opened Bytes
  import opened Sequences
  import opened Sorting

  type SubId = nat

  const SUBSCRIBER_BUFFER := 64

  /** A subscriber channel: what is buffered, what its reader has taken so far, and whether it is closed. */
  datatype Channel = Channel(buffer: seq<Data>, taken: seq<Data>, closed: bool)

  /** `waiting` holds subscribers blocked in Subscribe between taking an id and being registered. */
  datatype State = State(
    nextId: nat,
    waiting: map<SubId, Data>,
    subscribers: map<SubId, Data>,
    channels: map<SubId, Channel>,
    subCount: int,
    msgCount: nat,
    running: bool)

  const INITIAL := State(0, map[], map[], map[], 0, 0, true)

  datatype Event =
    | Allocate(device: Data)               // Subscribe takes an id and makes the channel
    | Register(id: SubId)                  // Run receives the new subscriber
    | Unregister(id: SubId)                // Run receives a departing subscriber
    | Broadcast(data: Data, sender: SubId) // Run receives a message
    | Receive(id: SubId)                   // the reader of a channel takes one message
    | Quit                                 // Run sees the closed quit channel and ends

  /** Which events can happen: Run serves its channels until it quits, a subscriber is registered by the
      Subscribe call that made it, and only a subscriber that Subscribe returned can be unsubscribed. */
  predicate Enabled(s: State, e: Event) {
    match e
    case Allocate(_) => true
    case Register(id) => s.running && id in s.waiting
    case Unregister(id) => s.running && id in s.channels && id !in s.waiting
    case Broadcast(_, _) => s.running
    case Receive(id) => id in s.channels && s.channels[id].buffer != []
    case Quit => s.running
  }

  predicate Accepts(s: State, id: SubId, sender: SubId) {
    && id in s.subscribers && id != sender
    && id in s.channels && |s.channels[id].buffer| < SUBSCRIBER_BUFFER
  }

  function Pushed(s: State, id: SubId, data: Data, sender: SubId): Channel
    requires id in s.channels
  {
    if Accepts(s, id, sender) then s.channels[id].(buffer := s.channels[id].buffer + [data]) else s.channels[id]
  }

  function ClosedFor(channels: map<SubId, Channel>, ids: set<SubId>): map<SubId, Channel> {
    map id | id in channels :: if id in ids then channels[id].(closed := true) else channels[id]
  }

  function Apply(s: State, e: Event): State
    requires Enabled(s, e)
  {
    match e
    case Allocate(device) =>
      var id := s.nextId + 1;
      s.(nextId := id, waiting := s.waiting[id := device], channels := s.channels[id := Channel([], [], false)])
    case Register(id) =>
      s.(waiting := s.waiting - {id}, subscribers := s.subscribers[id := s.waiting[id]], subCount := s.subCount + 1)
    case Unregister(id) =>
      if id in s.subscribers then
        s.(subscribers := s.subscribers - {id},
           channels := s.channels[id := s.channels[id].(closed := true)],
           subCount := s.subCount - 1)
      else s
    case Broadcast(data, sender) =>
      s.(msgCount := s.msgCount + 1,
         channels := map id | id in s.channels :: Pushed(s, id, data, sender))
    case Receive(id) =>
      var c := s.channels[id];
      s.(channels := s.channels[id := c.(buffer := c.buffer[1..], taken := c.taken + [c.buffer[0]])])
    case Quit =>
      s.(running := false,
         channels := ClosedFor(s.channels, s.subscribers.Keys))
  }

  /** What holds of each channel; in a running hub exactly the channels of departed subscribers are closed. */
  ghost predicate ChannelOk(s: State, id: SubId)
    requires id in s.channels
  {
    var c := s.channels[id];
    && 0 < id <= s.nextId
    && |c.buffer| <= SUBSCRIBER_BUFFER
    && (id in s.waiting ==> c == Channel([], [], false) && id !in s.subscribers)
    && (s.running ==> (c.closed <==> id !in s.waiting && id !in s.subscribers))
  }

  /** What every event keeps. */
  ghost predicate Inv(s: State) {
    && s.waiting.Keys <= s.channels.Keys && s.subscribers.Keys <= s.channels.Keys
    && (forall id :: id in s.channels ==> ChannelOk(s, id))
    && s.subCount == |s.subscribers|
  }

  lemma InvStep(s: State, e: Event)
    requires Inv(s) && Enabled(s, e)
    ensures Inv(Apply(s, e))
  {
    var t := Apply(s, e);
    forall id | id in t.channels ensures ChannelOk(t, id) {
      assert id in s.channels ==> ChannelOk(s, id);
    }
    SubCountStep(s, e);
  }

  lemma SubCountStep(s: State, e: Event)
    requires Inv(s) && Enabled(s, e)
    ensures Apply(s, e).subCount == |Apply(s, e).subscribers|
    ensures Apply(s, e).subscribers.Keys <= Apply(s, e).channels.Keys
    ensures Apply(s, e).waiting.Keys <= Apply(s, e).channels.Keys
  {
    var t := Apply(s, e);
    match e
    case Register(id) =>
      assert ChannelOk(s, id);
      assert t.subscribers.Keys == s.subscribers.Keys + {id};
    case Unregister(id) =>
      if id in s.subscribers { assert t.subscribers.Keys == s.subscribers.Keys - {id}; }
    case _ =>
  }

  // ---- runs ----

  /** A possible history of the hub. */
  ghost predicate Run(trace: seq<Event>)
    decreases |trace|, 0
  {
    trace != [] ==> Run(trace[..|trace| - 1]) && Enabled(Replay(trace[..|trace| - 1]), trace[|trace| - 1])
  }

  ghost function Replay(trace: seq<Event>): State
    requires Run(trace)
    decreases |trace|, 1
  {
    if trace == [] then INITIAL
    else Apply(Replay(trace[..|trace| - 1]), trace[|trace| - 1])
  }

  lemma RunExtend(trace: seq<Event>, e: Event)
    requires Run(trace) && Enabled(Replay(trace), e)
    ensures Run(trace + [e]) && Replay(trace + [e]) == Apply(Replay(trace), e)
  {
    assert (trace + [e])[..|trace|] == trace;
  }

  lemma {:induction false} InvHolds(trace: seq<Event>)
    requires Run(trace)
    ensures Inv(Replay(trace))
  {
    if trace != [] {
      var before := trace[..|trace| - 1];
      InvHolds(before);
      InvStep(Replay(before), trace[|trace| - 1]);
    }
  }

  function CountBroadcasts(trace: seq<Event>): nat {
    if trace == [] then 0
    else CountBroadcasts(trace[..|trace| - 1]) + if trace[|trace| - 1].Broadcast? then 1 else 0
  }

  /** The message counter is the number of broadcasts handled. */
  lemma {:induction false} MessagesCounted(trace: seq<Event>)
    requires Run(trace)
    ensures Replay(trace).msgCount == CountBroadcasts(trace)
  {
    if trace != [] { MessagesCounted(trace[..|trace| - 1]); }
  }

  // ---- lossy broadcast, read off the history alone ----

  /** `id` joined and has neither left nor seen the hub end. */
  predicate Subscribed(trace: seq<Event>, id: SubId) {
    if trace == [] then false
    else
      var was := Subscribed(trace[..|trace| - 1], id);
      match trace[|trace| - 1]
      case Register(i) => i == id || was
      case Unregister(i) => i != id && was
      case Quit => false
      case _ => was
  }

  /** How many messages the reader of `id` has taken. */
  function Drained(trace: seq<Event>, id: SubId): nat {
    if trace == [] then 0
    else Drained(trace[..|trace| - 1], id) + if trace[|trace| - 1] == Receive(id) then 1 else 0
  }

  /** The messages others broadcast while `id` was joined and had room. */
  function Delivered(trace: seq<Event>, id: SubId): seq<Data> {
    if trace == [] then []
    else
      var before := trace[..|trace| - 1];
      match trace[|trace| - 1]
      case Broadcast(data, sender) =>
        if sender != id && Subscribed(before, id) && |Delivered(before, id)| - Drained(before, id) < 64
        then Delivered(before, id) + [data]
        else Delivered(before, id)
      case _ => Delivered(before, id)
  }

  /** How often the channel of `id` has been closed. */
  function Closings(trace: seq<Event>, id: SubId): nat {
    if trace == [] then 0
    else
      var before, e := trace[..|trace| - 1], trace[|trace| - 1];
      Closings(before, id) + if Subscribed(before, id) && (e == Unregister(id) || e == Quit) then 1 else 0
  }

  /** The channel of `id` and the history of `id` say the same. */
  ghost predicate Matches(s: State, trace: seq<Event>, id: SubId) {
    && (s.running && id in s.subscribers <==> Subscribed(trace, id))
    && if id in s.channels then
         var c := s.channels[id];
         && c.taken + c.buffer == Delivered(trace, id)
         && |c.taken| == Drained(trace, id)
         && |c.buffer| <= 64
         && Closings(trace, id) == if c.closed then 1 else 0
       else
         Delivered(trace, id) == [] && Drained(trace, id) == 0 && Closings(trace, id) == 0
  }

  lemma MatchesBroadcast(s: State, trace: seq<Event>, data: Data, sender: SubId, id: SubId)
    requires Inv(s) && s.running && Matches(s, trace, id)
    ensures Matches(Apply(s, Broadcast(data, sender)), trace + [Broadcast(data, sender)], id)
  {
    var e := Broadcast(data, sender);
    assert (trace + [e])[..|trace|] == trace;
    if id in s.channels {
      var c, d := s.channels[id], Apply(s, e).channels[id];
      assert |c.buffer| == |Delivered(trace, id)| - Drained(trace, id);
      if Accepts(s, id, sender) {
        assert d.taken + d.buffer == (c.taken + c.buffer) + [data];
      }
    }
  }

  lemma MatchesReceive(s: State, trace: seq<Event>, i: SubId, id: SubId)
    requires Inv(s) && Enabled(s, Receive(i)) && Matches(s, trace, id)
    ensures Matches(Apply(s, Receive(i)), trace + [Receive(i)], id)
  {
    assert (trace + [Receive(i)])[..|trace|] == trace;
    if i == id {
      var c := s.channels[id];
      assert c.taken + c.buffer == (c.taken + [c.buffer[0]]) + c.buffer[1..];
    }
  }

  lemma MatchesMembership(s: State, trace: seq<Event>, e: Event, id: SubId)
    requires Inv(s) && Enabled(s, e) && !e.Broadcast? && !e.Receive? && Matches(s, trace, id)
    ensures Matches(Apply(s, e), trace + [e], id)
  {
    assert (trace + [e])[..|trace|] == trace;
    assert id in s.channels ==> ChannelOk(s, id);
    assert Delivered(trace + [e], id) == Delivered(trace, id);
    assert Drained(trace + [e], id) == Drained(trace, id);
    match e
    case Unregister(i) =>
    case _ =>
  }

  lemma MatchesStep(s: State, trace: seq<Event>, e: Event, id: SubId)
    requires Inv(s) && Enabled(s, e) && Matches(s, trace, id)
    ensures Matches(Apply(s, e), trace + [e], id)
  {
    match e
    case Broadcast(data, sender) => MatchesBroadcast(s, trace, data, sender, id);
    case Receive(i) => MatchesReceive(s, trace, i, id);
    case _ => MatchesMembership(s, trace, e, id);
  }

  /** The hub refines lossy broadcast: for every subscriber of every run, what its reader took followed by
      what is buffered is exactly, in order, what others broadcast while it was joined and had room; the
      buffer is bounded, and its channel is closed once, when it leaves. */
  lemma {:induction false} RefinesLossyBroadcast(trace: seq<Event>, id: SubId)
    requires Run(trace)
    ensures Matches(Replay(trace), trace, id)
  {
    if trace != [] {
      var before, e := trace[..|trace| - 1], trace[|trace| - 1];
      RefinesLossyBroadcast(before, id);
      InvHolds(before);
      MatchesStep(Replay(before), before, e, id);
      assert before + [e] == trace;
    }
  }

  /** Everything broadcast by others, in the order the hub handled it. */
  function FromOthers(trace: seq<Event>, id: SubId): seq<Data> {
    if trace == [] then []
    else
      var before := FromOthers(trace[..|trace| - 1], id);
      match trace[|trace| - 1]
      case Broadcast(data, sender) => if sender != id then before + [data] else before
      case _ => before
  }

  lemma {:induction false} DeliveredFromOthers(trace: seq<Event>, id: SubId)
    ensures Subsequence(Delivered(trace, id), FromOthers(trace, id))
  {
    if trace != [] {
      var before := trace[..|trace| - 1];
      DeliveredFromOthers(before, id);
      if trace[|trace| - 1].Broadcast? && trace[|trace| - 1].sender != id {
        var ys := FromOthers(trace, id);
        assert ys[..|ys| - 1] == FromOthers(before, id);
        var xs := Delivered(trace, id);
        if xs != Delivered(before, id) { assert xs[..|xs| - 1] == Delivered(before, id); }
      }
    }
  }

  /** Where in the history the messages delivered to `id` were broadcast. */
  function DeliveredAt(trace: seq<Event>, id: SubId): seq<nat> {
    if trace == [] then []
    else
      var before := trace[..|trace| - 1];
      if |Delivered(trace, id)| > |Delivered(before, id)| then DeliveredAt(before, id) + [|before|]
      else DeliveredAt(before, id)
  }

  /** In order, each the broadcast of another. */
  ghost predicate Positions(ks: seq<nat>, trace: seq<Event>, id: SubId, ms: seq<Data>) {
    && |ks| == |ms|
    && (forall m :: 0 <= m < |ks| ==>
          ks[m] < |trace| && trace[ks[m]].Broadcast? && trace[ks[m]].data == ms[m] && trace[ks[m]].sender != id)
    && (forall m, n :: 0 <= m < n < |ks| ==> ks[m] < ks[n])
  }

  lemma {:induction false} DeliveredPositions(trace: seq<Event>, id: SubId)
    ensures Positions(DeliveredAt(trace, id), trace, id, Delivered(trace, id))
  {
    if trace != [] {
      var before := trace[..|trace| - 1];
      DeliveredPositions(before, id);
      assert forall k :: 0 <= k < |before| ==> before[k] == trace[k];
    }
  }

  // ---- device id order ----

  /** Byte-wise lexicographic order, the order of sort.Strings. */
  predicate TextLe(a: Data, b: Data) {
    a == [] || (b != [] && (a[0] < b[0] || (a[0] == b[0] && TextLe(a[1..], b[1..]))))
  }

  lemma {:induction false} TextLeTotal(a: Data, b: Data)
    ensures TextLe(a, b) || TextLe(b, a)
    ensures TextLe(a, b) && TextLe(b, a) ==> a == b
  {
    if a != [] && b != [] && a[0] == b[0] {
      TextLeTotal(a[1..], b[1..]);
      assert a == [a[0]] + a[1..] && b == [b[0]] + b[1..];
    }
  }

  lemma {:induction false} TextLeTransitive(a: Data, b: Data, c: Data)
    requires TextLe(a, b) && TextLe(b, c)
    ensures TextLe(a, c)
  {
    if a != [] && a[0] == b[0] == c[0] { TextLeTransitive(a[1..], b[1..], c[1..]); }
  }

  lemma TextOrder()
    ensures TotalOrder(TextLe)
  {
    forall a, b ensures TextLe(a, b) || TextLe(b, a) { TextLeTotal(a, b); }
    forall a, b | TextLe(a, b) && TextLe(b, a) ensures a == b { TextLeTotal(a, b); }
    forall a, b, c | TextLe(a, b) && TextLe(b, c) ensures TextLe(a, c) { TextLeTransitive(a, b, c); }
  }

  /** What the order means: a prefix comes first, otherwise the smaller of the first bytes that differ. */
  lemma {:induction false} TextLeIs(a: Data, b: Data)
    ensures TextLe(a, b) <==> a <= b || Differs(a, b)
  {
    if a != [] && b != [] && a[0] == b[0] {
      TextLeIs(a[1..], b[1..]);
      assert a <= b <==> a[1..] <= b[1..] by { assert a == [a[0]] + a[1..] && b == [b[0]] + b[1..]; }
      DiffersAfter(a, b);
    } else if a != [] && b != [] {
      if a[0] < b[0] { assert a[..0] == b[..0]; }
      if Differs(a, b) {
        var i: nat :| i < |a| && i < |b| && a[..i] == b[..i] && a[i] < b[i];
        if i > 0 { assert a[0] == a[..i][0] == b[..i][0]; }
      }
    }
  }

  /** The first bytes that differ are smaller in `a`. */
  ghost predicate Differs(a: Data, b: Data) {
    exists i: nat :: i < |a| && i < |b| && a[..i] == b[..i] && a[i] < b[i]
  }

  lemma DiffersAfter(a: Data, b: Data)
    requires a != [] && b != [] && a[0] == b[0]
    ensures Differs(a, b) <==> Differs(a[1..], b[1..])
  {
    if Differs(a, b) {
      var i: nat :| i < |a| && i < |b| && a[..i] == b[..i] && a[i] < b[i];
      assert a[1..][..i - 1] == a[..i][1..] && b[1..][..i - 1] == b[..i][1..];
      assert a[1..][i - 1] < b[1..][i - 1];
    }
    if Differs(a[1..], b[1..]) {
      var i: nat :| i < |a[1..]| && i < |b[1..]| && a[1..][..i] == b[1..][..i] && a[1..][i] < b[1..][i];
      assert a[..i + 1] == [a[0]] + a[1..][..i] && b[..i + 1] == [b[0]] + b[1..][..i];
      assert a[i + 1] < b[i + 1];
    }
  }

  // ---- the event loop ----

  /** `order` visits every id of `ids` once: an iteration order of a map with these keys. */
  ghost predicate Enumerates(order: seq<SubId>, ids: set<SubId>) {
    && (forall id :: id in order <==> id in ids)
    && (forall i, j :: 0 <= i < j < |order| ==> order[i] != order[j])
  }

  /** The devices of those visited ids that are in `chosen`, in visiting order. */
  function Devices(order: seq<SubId>, chosen: set<SubId>, subscribers: map<SubId, Data>): seq<Data> {
    if order == [] then []
    else
      var id := order[|order| - 1];
      var front := Devices(order[..|order| - 1], chosen, subscribers);
      if id in chosen && id in subscribers then front + [subscribers[id]] else front
  }

  lemma DevicesVisit(order: seq<SubId>, id: SubId, chosen: set<SubId>, subscribers: map<SubId, Data>)
    requires id in subscribers
    ensures Devices(order + [id], chosen, subscribers) ==
            if id in chosen then Devices(order, chosen, subscribers) + [subscribers[id]]
            else Devices(order, chosen, subscribers)
  {
    assert (order + [id])[..|order|] == order;
  }

  ghost function Addressed(s: State, sender: SubId): set<SubId> {
    set id | id in s.subscribers && id != sender
  }

  ghost function Accepting(s: State, sender: SubId): set<SubId> {
    set id | id in s.subscribers && Accepts(s, id, sender)
  }

  /** The chosen ids among the visited ones that belong to device `d`. */
  ghost function IdsOf(order: seq<SubId>, chosen: set<SubId>, subscribers: map<SubId, Data>, d: Data): set<SubId> {
    set id | id in order && id in chosen && id in subscribers && subscribers[id] == d
  }

  /** Each device is named once for each of its chosen ids. */
  lemma {:induction false} DevicesCount(order: seq<SubId>, chosen: set<SubId>, subscribers: map<SubId, Data>, d: Data)
    requires forall i, j :: 0 <= i < j < |order| ==> order[i] != order[j]
    ensures multiset(Devices(order, chosen, subscribers))[d] == |IdsOf(order, chosen, subscribers, d)|
  {
    if order != [] {
      var front, id := order[..|order| - 1], order[|order| - 1];
      DevicesCount(front, chosen, subscribers, d);
      IdsOfVisit(order, chosen, subscribers, d);
      assert Devices(order, chosen, subscribers) == Devices(front, chosen, subscribers)
             + if id in chosen && id in subscribers then [subscribers[id]] else [];
    }
  }

  lemma IdsOfVisit(order: seq<SubId>, chosen: set<SubId>, subscribers: map<SubId, Data>, d: Data)
    requires order != [] && forall i, j :: 0 <= i < j < |order| ==> order[i] != order[j]
    ensures var front, id := order[..|order| - 1], order[|order| - 1];
            |IdsOf(order, chosen, subscribers, d)| == |IdsOf(front, chosen, subscribers, d)|
              + if id in chosen && id in subscribers && subscribers[id] == d then 1 else 0
  {
    var front, id := order[..|order| - 1], order[|order| - 1];
    var less := IdsOf(front, chosen, subscribers, d);
    assert forall i :: i in order <==> i in front || i == id;
    if id in chosen && id in subscribers && subscribers[id] == d {
      assert IdsOf(order, chosen, subscribers, d) == less + {id};
    } else {
      assert IdsOf(order, chosen, subscribers, d) == less;
    }
  }

  /** Fewer chosen ids name fewer devices. */
  lemma {:induction false} DevicesFewer(order: seq<SubId>, some: set<SubId>, all: set<SubId>,
                                        subscribers: map<SubId, Data>)
    requires some <= all
    ensures multiset(Devices(order, some, subscribers)) <= multiset(Devices(order, all, subscribers))
  {
    if order != [] { DevicesFewer(order[..|order| - 1], some, all, subscribers); }
  }

  /** The reply of a broadcast is the same for every iteration order of the map: the sorted list in which
      each device appears once for each of its chosen subscribers. */
  lemma ReplyIgnoresOrder(a: seq<SubId>, b: seq<SubId>, chosen: set<SubId>, subscribers: map<SubId, Data>)
    requires Enumerates(a, subscribers.Keys) && Enumerates(b, subscribers.Keys)
    ensures Sort(Devices(a, chosen, subscribers), TextLe) == Sort(Devices(b, chosen, subscribers), TextLe)
    ensures Sorted(Sort(Devices(a, chosen, subscribers), TextLe), TextLe)
    ensures forall d :: multiset(Sort(Devices(a, chosen, subscribers), TextLe))[d] ==
                        |set id | id in chosen && id in subscribers && subscribers[id] == d|
  {
    var x, y := Devices(a, chosen, subscribers), Devices(b, chosen, subscribers);
    forall d
      ensures multiset(x)[d] == multiset(y)[d] ==
              |set id | id in chosen && id in subscribers && subscribers[id] == d|
    {
      DevicesCount(a, chosen, subscribers, d);
      DevicesCount(b, chosen, subscribers, d);
      assert IdsOf(a, chosen, subscribers, d) == set id | id in chosen && id in subscribers && subscribers[id] == d;
      assert IdsOf(b, chosen, subscribers, d) == IdsOf(a, chosen, subscribers, d);
    }
    assert multiset(x) == multiset(y);
    TextOrder();
    SortSorts(x, TextLe);
    SortSorts(y, TextLe);
    SortedUnique(Sort(x, TextLe), Sort(y, TextLe), TextLe);
  }

  /** The subscribers of device `d` that a message of `sender` is addressed to, and those of them with room for it. */
  ghost function SentTo(s: State, sender: SubId, d: Data): set<SubId> {
    set id | id in s.subscribers && id != sender && s.subscribers[id] == d
  }

  ghost function RoomAt(s: State, sender: SubId, d: Data): set<SubId> {
    set id | id in SentTo(s, sender, d) && id in s.channels && |s.channels[id].buffer| < 64
  }

  /** Each device is listed once for each of its subscribers but the sender, or once for each of these with room. */
  ghost predicate ReplyLists(s: State, sender: SubId, sent: seq<Data>, delivered: seq<Data>) {
    && Sorted(sent, TextLe) && Sorted(delivered, TextLe)
    && (forall d :: multiset(sent)[d] == |SentTo(s, sender, d)|)
    && (forall d :: multiset(delivered)[d] == |RoomAt(s, sender, d)|)
  }

  lemma SentExactly(s: State, order: seq<SubId>, sender: SubId, d: Data)
    requires Enumerates(order, s.subscribers.Keys)
    ensures multiset(Devices(order, Addressed(s, sender), s.subscribers))[d] == |SentTo(s, sender, d)|
  {
    DevicesCount(order, Addressed(s, sender), s.subscribers, d);
    assert IdsOf(order, Addressed(s, sender), s.subscribers, d) == SentTo(s, sender, d);
  }

  lemma DeliveredExactly(s: State, order: seq<SubId>, sender: SubId, d: Data)
    requires Enumerates(order, s.subscribers.Keys)
    ensures multiset(Devices(order, Accepting(s, sender), s.subscribers))[d] == |RoomAt(s, sender, d)|
  {
    DevicesCount(order, Accepting(s, sender), s.subscribers, d);
    assert IdsOf(order, Accepting(s, sender), s.subscribers, d) == RoomAt(s, sender, d);
  }

  lemma SortedReply(list: seq<Data>)
    ensures Sorted(Sort(list, TextLe), TextLe) && multiset(Sort(list, TextLe)) == multiset(list)
  {
    TextOrder();
    SortSorts(list, TextLe);
  }

  lemma ReplyExactly(s: State, order: seq<SubId>, sender: SubId)
    requires Enumerates(order, s.subscribers.Keys)
    ensures ReplyLists(s, sender,
                       Sort(Devices(order, Addressed(s, sender), s.subscribers), TextLe),
                       Sort(Devices(order, Accepting(s, sender), s.subscribers), TextLe))
  {
    SortedReply(Devices(order, Addressed(s, sender), s.subscribers));
    SortedReply(Devices(order, Accepting(s, sender), s.subscribers));
    forall d { SentExactly(s, order, sender, d); }
    forall d { DeliveredExactly(s, order, sender, d); }
  }

  /** `now` are the channels once the subscribers in `seen` have been offered the message. */
  ghost predicate Offered(s: State, seen: set<SubId>, now: map<SubId, Channel>, data: Data, sender: SubId) {
    && now.Keys == s.channels.Keys
    && forall id :: id in s.channels ==>
         now[id] == if id in seen then Pushed(s, id, data, sender) else s.channels[id]
  }

  function Push(c: Channel, data: Data): Channel {
    if |c.buffer| < SUBSCRIBER_BUFFER then c.(buffer := c.buffer + [data]) else c
  }

  lemma OfferedStep(s: State, seen: set<SubId>, now: map<SubId, Channel>, data: Data, sender: SubId, id: SubId)
    requires Offered(s, seen, now, data, sender)
    requires id in s.subscribers && id in s.channels && id !in seen
    ensures now[id] == s.channels[id]
    ensures id == sender ==> Offered(s, seen + {id}, now, data, sender)
    ensures id != sender ==> Offered(s, seen + {id}, now[id := Push(now[id], data)], data, sender)
  {}

  lemma OfferedAll(s: State, now: map<SubId, Channel>, data: Data, sender: SubId)
    requires s.running && Offered(s, s.subscribers.Keys, now, data, sender)
    ensures Apply(s, Broadcast(data, sender)) == s.(msgCount := s.msgCount + 1, channels := now)
  {}

  /** No send and no close of a running hub meets a closed channel. */
  lemma SubscribersOpen(s: State)
    requires Inv(s) && s.running
    ensures forall id :: id in s.subscribers ==> id in s.channels && !s.channels[id].closed
  {
    forall id | id in s.subscribers ensures id in s.channels && !s.channels[id].closed { assert ChannelOk(s, id); }
  }

  class Hub {
    var nextId: nat
    var waiting: map<SubId, Data>
    var subscribers: map<SubId, Data>
    var channels: map<SubId, Channel>
    var subCount: int
    var msgCount: nat
    var running: bool

    ghost function View(): (s: State)
      reads this
    {
      State(nextId, waiting, subscribers, channels, subCount, msgCount, running)
    }

    constructor ()
      ensures View() == INITIAL && Inv(View())
    {
      nextId, waiting, subscribers, channels := 0, map[], map[], map[];
      subCount, msgCount, running := 0, 0, true;
    }

    /** close(s.C); closing twice is a panic. */
    method CloseChannel(id: SubId)
      requires id in channels && !channels[id].closed
      modifies this`channels
      ensures channels == old(channels)[id := old(channels)[id].(closed := true)]
    {
      channels := channels[id := channels[id].(closed := true)];
    }

    /** The non-blocking send; sending on a closed channel is a panic. */
    method TrySend(id: SubId, data: Data) returns (ok: bool)
      requires id in channels && !channels[id].closed
      modifies this`channels
      ensures ok <==> |old(channels)[id].buffer| < SUBSCRIBER_BUFFER
      ensures channels == old(channels)[id := Push(old(channels)[id], data)]
    {
      ok := |channels[id].buffer| < SUBSCRIBER_BUFFER;
      if ok { channels := channels[id := channels[id].(buffer := channels[id].buffer + [data])]; }
    }

    method OnRegister(id: SubId)
      requires Inv(View()) && Enabled(View(), Register(id))
      modifies this
      ensures Inv(View()) && View() == Apply(old(View()), Register(id))
    {
      InvStep(View(), Register(id));
      subscribers := subscribers[id := waiting[id]];
      waiting := waiting - {id};
      subCount := subCount + 1;
    }

    method OnUnregister(id: SubId)
      requires Inv(View()) && Enabled(View(), Unregister(id))
      modifies this
      ensures Inv(View()) && View() == Apply(old(View()), Unregister(id))
    {
      InvStep(View(), Unregister(id));
      if id in subscribers {
        subscribers := subscribers - {id};
        CloseChannel(id);
        subCount := subCount - 1;
      }
    }

    /** One broadcast, visiting the map in an arbitrary order. */
    method OnBroadcast(data: Data, sender: SubId)
      returns (sent: seq<Data>, delivered: seq<Data>, ghost order: seq<SubId>)
      requires Inv(View()) && Enabled(View(), Broadcast(data, sender))
      modifies this
      ensures View() == Apply(old(View()), Broadcast(data, sender)) && Inv(View())
      ensures Enumerates(order, old(subscribers).Keys)
      ensures sent == Sort(Devices(order, Addressed(old(View()), sender), old(subscribers)), TextLe)
      ensures delivered == Sort(Devices(order, Accepting(old(View()), sender), old(subscribers)), TextLe)
      ensures multiset(delivered) <= multiset(sent)
      ensures ReplyLists(old(View()), sender, sent, delivered)
    {
      ghost var s := View();
      InvStep(s, Broadcast(data, sender));
      sent, delivered, order := Distribute(data, sender);
      DevicesFewer(order, Accepting(old(View()), sender), Addressed(old(View()), sender), subscribers);
      ReplyExactly(s, order, sender);
      sent, delivered := Sort(sent, TextLe), Sort(delivered, TextLe);
    }

    /** The same before the lists are sorted. */
    method Distribute(data: Data, sender: SubId)
      returns (sent: seq<Data>, delivered: seq<Data>, ghost order: seq<SubId>)
      requires Inv(View()) && Enabled(View(), Broadcast(data, sender))
      modifies this`msgCount, this`channels
      ensures View() == Apply(old(View()), Broadcast(data, sender))
      ensures Enumerates(order, subscribers.Keys)
      ensures sent == Devices(order, Addressed(old(View()), sender), subscribers)
      ensures delivered == Devices(order, Accepting(old(View()), sender), subscribers)
    {
      ghost var s := View();
      SubscribersOpen(s);
      sent, delivered, order := FanOut(data, sender);
      msgCount := msgCount + 1;
      OfferedAll(s, channels, data, sender);
    }

    /** The loop over the map. */
    method FanOut(data: Data, sender: SubId) returns (sent: seq<Data>, delivered: seq<Data>, ghost order: seq<SubId>)
      requires subscribers.Keys <= channels.Keys
      requires forall id :: id in subscribers ==> !channels[id].closed
      modifies this`channels
      ensures Offered(old(View()), subscribers.Keys, channels, data, sender)
      ensures Enumerates(order, subscribers.Keys)
      ensures sent == Devices(order, Addressed(old(View()), sender), subscribers)
      ensures delivered == Devices(order, Accepting(old(View()), sender), subscribers)
    {
      ghost var s := View();
      sent, delivered, order := [], [], [];
      var todo := subscribers.Keys;
      while todo != {}
        invariant todo <= subscribers.Keys
        invariant Enumerates(order, subscribers.Keys - todo)
        invariant Offered(s, subscribers.Keys - todo, channels, data, sender)
        invariant sent == Devices(order, Addressed(s, sender), subscribers)
        invariant delivered == Devices(order, Accepting(s, sender), subscribers)
      {
        var id :| id in todo;
        ghost var seen := subscribers.Keys - todo;
        todo := todo - {id};
        assert subscribers.Keys - todo == seen + {id};
        OfferedStep(s, seen, channels, data, sender, id);
        DevicesVisit(order, id, Addressed(s, sender), subscribers);
        DevicesVisit(order, id, Accepting(s, sender), subscribers);
        order := order + [id];
        sent, delivered := Offer(id, data, sender, sent, delivered);
      }
    }

    /** The body of that loop. */
    method Offer(id: SubId, data: Data, sender: SubId, sent: seq<Data>, delivered: seq<Data>)
      returns (sent': seq<Data>, delivered': seq<Data>)
      requires id in subscribers && id in channels && !channels[id].closed
      modifies this`channels
      ensures channels == if id == sender then old(channels) else old(channels)[id := Push(old(channels)[id], data)]
      ensures sent' == if id == sender then sent else sent + [subscribers[id]]
      ensures delivered' == if old(Accepts(View(), id, sender)) then delivered + [subscribers[id]] else delivered
    {
      sent', delivered' := sent, delivered;
      if id == sender { return; }
      sent' := sent' + [subscribers[id]];
      var ok := TrySend(id, data);
      if ok { delivered' := delivered' + [subscribers[id]]; }
    }

    /** The end of Run: every remaining channel is closed, each once. */
    method OnQuit()
      requires Inv(View()) && Enabled(View(), Quit)
      modifies this
      ensures View() == Apply(old(View()), Quit) && Inv(View())
    {
      ghost var s := View();
      SubscribersOpen(s);
      CloseAll();
      running := false;
      InvStep(s, Quit);
    }

    method CloseAll()
      requires subscribers.Keys <= channels.Keys
      requires forall id :: id in subscribers ==> !channels[id].closed
      modifies this`channels
      ensures channels == ClosedFor(old(channels), subscribers.Keys)
    {
      ghost var before := channels;
      var todo := subscribers.Keys;
      while todo != {}
        invariant todo <= subscribers.Keys
        invariant channels == ClosedFor(before, subscribers.Keys - todo)
      {
        var id :| id in todo;
        todo := todo - {id};
        CloseChannel(id);
      }
    }

    /** Subscribe up to the blocking send on the register channel. */
    method Allocate(device: Data) returns (id: SubId)
      requires Inv(View())
      modifies this
      ensures Inv(View()) && View() == Apply(old(View()), Event.Allocate(device))
      ensures id == old(nextId) + 1 && id !in old(channels)
    {
      InvStep(View(), Event.Allocate(device));
      id := nextId + 1;
      nextId := id;
      channels := channels[id := Channel([], [], false)];
      waiting := waiting[id := device];
    }
  }
}
