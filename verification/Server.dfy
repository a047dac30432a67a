/** Any number of connections and their subscriber goroutines sharing one hub, interleaved arbitrarily
    (handleConnection of internal/tcp/crypto_server.go with internal/hub/hub.go). The hub is represented by
    the history of events its loop has handled. */
module Server {
  import opened Bytes
  import opened Sequences
  import opened Frames
  import opened Challenges
  import opened Auth
  import opened Hub
  import opened Transcript
  import opened Connection

  type ConnId = nat

  /** Where the read loop stands between two atomic steps. */
  datatype Pc =
    | Head                                          // top of the loop
    | Joining(out: Option<Frame>)                   // about to call Subscribe
    | Registering(id: SubId, out: Option<Frame>)    // blocked on the register channel
    | Publishing(frame: Frame)                      // about to call Broadcast
    | Closed                                        // returned

  /** The subscriber goroutine. */
  datatype Feeder = Idle | Waiting | Holding(data: Data) | Leaving | Gone

  datatype Conn = Conn(session: Session, sub: Option<SubId>, pc: Pc, feeder: Feeder)

  datatype System = System(conns: map<ConnId, Conn>, trace: seq<Event>)

  datatype Action =
    | Accept(c: ConnId)
    | FrameIn(c: ConnId, fr: Frame, env: Env)  // ReadFrame returned, the frame is dispatched
    | Hangup(c: ConnId)                        // ReadFrame failed
    | TakeId(c: ConnId)                        // first half of Subscribe
    | Enroll(c: ConnId)                        // the hub registers, Subscribe returns, the goroutine starts
    | Publish(c: ConnId)                       // the hub handles the broadcast
    | PublishLost(c: ConnId)                   // Broadcast returns because the hub is stopping
    | Fetch(c: ConnId)                         // the goroutine receives from its channel
    | Deliver(c: ConnId, ok: bool)             // the goroutine writes to the socket
    | Depart(c: ConnId)                        // connDone or the closed channel ends the goroutine
    | Leave(c: ConnId)                         // Unsubscribe reaches the hub
    | LeaveLost(c: ConnId)                     // Unsubscribe returns because the hub is stopping
    | HubQuit

  function AfterJoin(out: Option<Frame>): Pc {
    match out
    case None => Head
    case Some(f) => Publishing(f)
  }

  function SenderId(conn: Conn): SubId {
    match conn.sub
    case None => 0
    case Some(id) => id
  }

  /** The event the hub handles in this action, if any. */
  ghost function HubEvent(sys: System, a: Action): Option<Event>
    requires a.HubQuit? || a.Accept? || a.c in sys.conns
  {
    if a.HubQuit? then Some(Quit) else if a.Accept? then None else
    var conn := sys.conns[a.c];
    match a
    case TakeId(_) => Some(Allocate(conn.session.ctxDevice))
    case Enroll(_) => if conn.pc.Registering? then Some(Register(conn.pc.id)) else None
    case Publish(_) => if conn.pc.Publishing? then Some(Broadcast(Wire(Relay(conn.pc.frame)), SenderId(conn))) else None
    case Fetch(_) => Some(Receive(SenderId(conn)))
    case Leave(_) => Some(Unregister(SenderId(conn)))
    case _ => None
  }

  /** When an action can happen. That the hub is stopping is seen by callers at any time before its loop sees it. */
  ghost predicate Ready(conn: Conn, a: Action, hub: State) {
    match a
    case FrameIn(_, fr, _) => conn.pc == Head && ValidFrame(fr)
    case Hangup(_) => conn.pc == Head
    case TakeId(_) => conn.pc.Joining?
    case Enroll(_) => conn.pc.Registering?
    case Publish(_) => conn.pc.Publishing?
    case PublishLost(_) => conn.pc.Publishing?
    case Fetch(_) => conn.feeder == Waiting
    case Deliver(_, _) => conn.feeder.Holding?
    case Depart(_) => conn.feeder == Waiting &&
                      (conn.pc == Closed || (SenderId(conn) in hub.channels && hub.channels[SenderId(conn)].closed))
    case Leave(_) => conn.feeder == Leaving
    case LeaveLost(_) => conn.feeder == Leaving
    case _ => false
  }

  ghost predicate Can(sys: System, a: Action) {
    && Run(sys.trace)
    && (match a
        case HubQuit => true
        case Accept(c) => c !in sys.conns
        case _ => a.c in sys.conns && Ready(sys.conns[a.c], a, Replay(sys.trace)))
    && (HubEvent(sys, a).Some? ==> Enabled(Replay(sys.trace), HubEvent(sys, a).value))
  }

  /** The acting connection after the action. */
  ghost function Moved(conn: Conn, a: Action, hub: State, crypto: Crypto): Conn {
    match a
    case FrameIn(_, fr, env) =>
      var r := Turn(conn.session, fr, env, crypto);
      var conn' := conn.(session := r.session);
      if !r.ok then conn'.(pc := if r.session.authenticated then Head else Closed)
      else if r.session.authenticated && conn.sub.None? then conn'.(pc := Joining(r.out))
      else conn'.(pc := AfterJoin(r.out))
    case Hangup(_) => conn.(pc := Closed)
    case TakeId(_) => if conn.pc.Joining? then conn.(pc := Registering(hub.nextId + 1, conn.pc.out)) else conn
    case Enroll(_) =>
      if conn.pc.Registering?
      then conn.(sub := Some(conn.pc.id), pc := AfterJoin(conn.pc.out), feeder := Waiting)
      else conn
    case Publish(_) =>
      if conn.pc.Publishing?
      then conn.(pc := Head, session := Add(conn.session, Published(conn.pc.frame, Wire(Relay(conn.pc.frame)))))
      else conn
    case PublishLost(_) =>
      if conn.pc.Publishing? then conn.(pc := Head, session := Add(conn.session, Lost(conn.pc.frame))) else conn
    case Fetch(_) =>
      var id := SenderId(conn);
      if id in hub.channels && hub.channels[id].buffer != []
      then conn.(feeder := Holding(hub.channels[id].buffer[0]))
      else conn
    case Deliver(_, ok) =>
      if conn.feeder.Holding?
      then conn.(session := Add(conn.session, Relayed(Rebuild(conn.feeder.data))),
                 feeder := if ok then Waiting else Leaving)
      else conn
    case Depart(_) => conn.(feeder := Leaving)
    case Leave(_) => conn.(feeder := Gone)
    case LeaveLost(_) => conn.(feeder := Gone)
    case _ => conn
  }

  const NEW_CONN := Conn(FRESH_SESSION, None, Head, Idle)

  ghost function Do(sys: System, a: Action, crypto: Crypto): System
    requires Can(sys, a)
  {
    var trace := match HubEvent(sys, a) { case None => sys.trace case Some(e) => sys.trace + [e] };
    match a
    case HubQuit => System(sys.conns, trace)
    case Accept(c) => System(sys.conns[c := NEW_CONN], trace)
    case _ => System(sys.conns[a.c := Moved(sys.conns[a.c], a, Replay(sys.trace), crypto)], trace)
  }

  // ---- what every reachable system satisfies ----

  function BroadcastsBy(trace: seq<Event>, id: SubId): seq<Data> {
    if trace == [] then []
    else
      var front := BroadcastsBy(trace[..|trace| - 1], id);
      match trace[|trace| - 1]
      case Broadcast(data, sender) => if sender == id then front + [data] else front
      case _ => front
  }

  /** What the subscriber goroutine wrote, as hub messages. */
  function RelayedMessages(log: seq<Entry>): seq<Data> {
    if log == [] then []
    else
      var front := RelayedMessages(log[..|log| - 1]);
      match log[|log| - 1]
      case Relayed(f) => front + [Wire(f)]
      case _ => front
  }

  function InHand(feeder: Feeder): seq<Data> {
    match feeder
    case Holding(data) => [data]
    case _ => []
  }

  /** Hub messages made from a readable 0x59/0x76 frame. */
  predicate WireOk(data: Data) {
    2 <= |data| <= 2 + MAX_DATA_LEN && data[0] == ADDR_BROADCAST && data[1] == CMD_REGULAR
  }

  /** The subscriber id a connection holds or waits with. */
  function IdOf(conn: Conn): Option<SubId> {
    if conn.pc.Registering? then Some(conn.pc.id) else conn.sub
  }

  /** Five pieces of state in different places agree: step, authenticated flag, device id, subscription, hub. */
  ghost predicate PcOk(conn: Conn, p: Phase) {
    var s := conn.session;
    match conn.pc
    case Head => conn.sub.Some? <==> s.step == Done
    case Joining(out) => s.step == Done && conn.sub.None? && out.None?
    case Registering(_, out) => s.step == Done && conn.sub.None? && out.None?
    case Publishing(f) =>
      s.step == Done && conn.sub.Some? && Regular(f) && ValidFrame(f) && p.Authorised? && p.pending == Some(f)
    case Closed => true
  }

  ghost predicate SubOk(conn: Conn, trace: seq<Event>, id: SubId)
    requires Run(trace)
  {
    var hub, log := Replay(trace), conn.session.log;
    && id in hub.channels && id !in hub.waiting
    && (id in hub.subscribers ==> hub.subscribers[id] == conn.session.ctxDevice)
    && (hub.running && conn.feeder != Gone ==> id in hub.subscribers)
    && RelayedMessages(log) + InHand(conn.feeder) == hub.channels[id].taken
    && BroadcastsBy(trace, id) == PublishedMessages(log)
  }

  ghost predicate ConnOk(conn: Conn, trace: seq<Event>, crypto: Crypto)
    requires Run(trace)
  {
    var p, log := PhaseOf(conn.session.log, crypto), conn.session.log;
    && p != Broken
    && (conn.pc != Closed ==> Linked(conn.session, crypto))
    && PcOk(conn, p)
    && (conn.feeder == Idle <==> conn.sub.None?)
    && (conn.feeder.Holding? ==> WireOk(conn.feeder.data))
    && (conn.pc.Registering? ==>
          conn.pc.id in Replay(trace).waiting && Replay(trace).waiting[conn.pc.id] == conn.session.ctxDevice)
    && (conn.sub.None? ==> RelayedMessages(log) == [] && PublishedMessages(log) == [])
    && (conn.sub.Some? ==>
          p.Authorised? && p.device == conn.session.ctxDevice && SubOk(conn, trace, conn.sub.value))
  }

  ghost predicate Owned(conns: map<ConnId, Conn>, e: Event) {
    e.Broadcast? ==> WireOk(e.data) && exists c :: c in conns && conns[c].sub == Some(e.sender)
  }

  /** No two connections share a subscriber id. */
  ghost predicate Distinct(conns: map<ConnId, Conn>) {
    forall c, d | c in conns && d in conns && c != d :: IdOf(conns[c]).Some? ==> IdOf(conns[c]) != IdOf(conns[d])
  }

  ghost predicate SysInv(sys: System, crypto: Crypto) {
    && Run(sys.trace)
    && (forall c :: c in sys.conns ==> ConnOk(sys.conns[c], sys.trace, crypto))
    && Distinct(sys.conns)
    && (forall i :: 0 <= i < |sys.trace| ==> Owned(sys.conns, sys.trace[i]))
  }

  // ---- extending logs and traces ----

  lemma {:induction false} GrewMessages(a: seq<Entry>, b: seq<Entry>)
    requires Grew(a, b)
    ensures RelayedMessages(b) == RelayedMessages(a) && PublishedMessages(b) == PublishedMessages(a)
  {
    if |a| == |b| {
      assert a == b;
    } else {
      var front := b[..|b| - 1];
      assert Grew(a, front);
      GrewMessages(a, front);
    }
  }

  lemma SnocMessages(log: seq<Entry>, e: Entry)
    ensures RelayedMessages(log + [e]) == RelayedMessages(log) + (if e.Relayed? then [Wire(e.frame)] else [])
    ensures PublishedMessages(log + [e]) == PublishedMessages(log) + (if e.Published? then [e.message] else [])
  {
    assert (log + [e])[..|log|] == log;
  }

  lemma SnocBroadcasts(trace: seq<Event>, e: Event, id: SubId)
    ensures BroadcastsBy(trace + [e], id) ==
            BroadcastsBy(trace, id) + if e.Broadcast? && e.sender == id then [e.data] else []
  {
    assert (trace + [e])[..|trace|] == trace;
  }

  /** Whom a hub event is about. */
  function Concerns(e: Event): Option<SubId> {
    match e
    case Register(id) => Some(id)
    case Unregister(id) => Some(id)
    case Receive(id) => Some(id)
    case Broadcast(_, sender) => Some(sender)
    case _ => None
  }

  /** A hub event about someone else leaves a subscriber's share of the hub alone. */
  lemma SubStable(conn: Conn, trace: seq<Event>, e: Event, id: SubId)
    requires Run(trace) && Enabled(Replay(trace), e) && Run(trace + [e])
    requires SubOk(conn, trace, id) && Concerns(e) != Some(id)
    ensures SubOk(conn, trace + [e], id)
  {
    InvHolds(trace);
    RunExtend(trace, e);
    SnocBroadcasts(trace, e, id);
    assert ChannelOk(Replay(trace), id);
  }

  lemma ConnStable(conn: Conn, trace: seq<Event>, e: Event, crypto: Crypto)
    requires Run(trace) && Enabled(Replay(trace), e) && Run(trace + [e])
    requires ConnOk(conn, trace, crypto) && (IdOf(conn).Some? ==> Concerns(e) != IdOf(conn))
    ensures ConnOk(conn, trace + [e], crypto)
  {
    RunExtend(trace, e);
    if conn.sub.Some? { SubStable(conn, trace, e, conn.sub.value); }
    if conn.pc.Registering? {
      InvHolds(trace);
      assert ChannelOk(Replay(trace), conn.pc.id);
    }
  }

  /** The system after one connection moved, with at most one hub event, and that about itself. */
  lemma MoveOk(sys: System, c: ConnId, conn: Conn, event: Option<Event>, crypto: Crypto)
    requires SysInv(sys, crypto)
    requires event.Some? ==> Enabled(Replay(sys.trace), event.value)
    requires var trace := if event.Some? then sys.trace + [event.value] else sys.trace;
             Run(trace) && ConnOk(conn, trace, crypto)
    requires event.Some? && Concerns(event.value).Some? ==> IdOf(conn) == Concerns(event.value)
    requires event.Some? ==> Owned(sys.conns[c := conn], event.value)
    requires c in sys.conns && sys.conns[c].sub.Some? ==> conn.sub == sys.conns[c].sub
    requires IdOf(conn).Some? ==> forall d :: d in sys.conns && d != c ==> IdOf(sys.conns[d]) != IdOf(conn)
    ensures SysInv(System(sys.conns[c := conn], if event.Some? then sys.trace + [event.value] else sys.trace), crypto)
  {
    var trace := if event.Some? then sys.trace + [event.value] else sys.trace;
    var conns := sys.conns[c := conn];
    forall d | d in conns ensures ConnOk(conns[d], trace, crypto) {
      if d != c && event.Some? { ConnStable(sys.conns[d], sys.trace, event.value, crypto); }
    }
    forall i | 0 <= i < |trace| ensures Owned(conns, trace[i]) {
      if i < |sys.trace| { OwnedStays(sys.conns, c, conn, sys.trace[i]); }
    }
  }

  lemma OwnedStays(conns: map<ConnId, Conn>, c: ConnId, conn: Conn, e: Event)
    requires Owned(conns, e)
    requires c in conns && conns[c].sub.Some? ==> conn.sub == conns[c].sub
    ensures Owned(conns[c := conn], e)
  {
    if e.Broadcast? {
      var o :| o in conns && conns[o].sub == Some(e.sender);
      assert conns[c := conn][o].sub == Some(e.sender);
    }
  }

  // ---- each action ----

  lemma TurnMessages(s: Session, fr: Frame, env: Env, crypto: Crypto)
    ensures RelayedMessages(Turn(s, fr, env, crypto).session.log) == RelayedMessages(s.log)
    ensures PublishedMessages(Turn(s, fr, env, crypto).session.log) == PublishedMessages(s.log)
  {
    TurnGrew(s, fr, env, crypto);
    SnocMessages(s.log, Read(fr));
    GrewMessages(Add(s, Read(fr)).log, Turn(s, fr, env, crypto).session.log);
  }

  lemma FrameInOk(conn: Conn, trace: seq<Event>, fr: Frame, env: Env, crypto: Crypto, c: ConnId)
    requires Run(trace) && ConnOk(conn, trace, crypto) && conn.pc == Head && ValidFrame(fr)
    ensures ConnOk(Moved(conn, FrameIn(c, fr, env), Replay(trace), crypto), trace, crypto)
  {
    TurnFollows(conn.session, fr, env, crypto);
    TurnMessages(conn.session, fr, env, crypto);
  }

  /** A waiting id has not published anything yet. */
  lemma {:induction false} NoBroadcastsYet(trace: seq<Event>, id: SubId)
    requires forall i :: 0 <= i < |trace| ==> !(trace[i].Broadcast? && trace[i].sender == id)
    ensures BroadcastsBy(trace, id) == []
  {
    if trace != [] { NoBroadcastsYet(trace[..|trace| - 1], id); }
  }

  lemma EnrollOk(sys: System, c: ConnId, crypto: Crypto)
    requires SysInv(sys, crypto) && c in sys.conns && sys.conns[c].pc.Registering?
    requires Enabled(Replay(sys.trace), Register(sys.conns[c].pc.id))
    ensures var e := Register(sys.conns[c].pc.id);
            && Run(sys.trace + [e])
            && ConnOk(Moved(sys.conns[c], Enroll(c), Replay(sys.trace), crypto), sys.trace + [e], crypto)
  {
    var conn := sys.conns[c];
    var id := conn.pc.id;
    var e := Register(id);
    InvHolds(sys.trace);
    RunExtend(sys.trace, e);
    assert ChannelOk(Replay(sys.trace), id);
    forall i | 0 <= i < |sys.trace| ensures !(sys.trace[i].Broadcast? && sys.trace[i].sender == id) {
      assert Owned(sys.conns, sys.trace[i]);
    }
    NoBroadcastsYet(sys.trace, id);
    SnocBroadcasts(sys.trace, e, id);
  }

  lemma PublishSub(conn: Conn, trace: seq<Event>, f: Frame, id: SubId)
    requires Run(trace) && SubOk(conn, trace, id) && Replay(trace).running
    ensures var e, m := Broadcast(Wire(Relay(f)), id), Wire(Relay(f));
            && Run(trace + [e]) && Replay(trace + [e]) == Apply(Replay(trace), e)
            && SubOk(conn.(pc := Head, session := Add(conn.session, Published(f, m))), trace + [e], id)
            && id > 0
  {
    var e := Broadcast(Wire(Relay(f)), id);
    InvHolds(trace);
    assert ChannelOk(Replay(trace), id);
    RunExtend(trace, e);
    SnocMessages(conn.session.log, Published(f, Wire(Relay(f))));
    SnocBroadcasts(trace, e, id);
  }

  lemma PublishOk(conn: Conn, trace: seq<Event>, crypto: Crypto, c: ConnId)
    requires Run(trace) && ConnOk(conn, trace, crypto) && conn.pc.Publishing? && Replay(trace).running
    ensures var e := Broadcast(Wire(Relay(conn.pc.frame)), SenderId(conn));
            && Run(trace + [e])
            && ConnOk(Moved(conn, Publish(c), Replay(trace), crypto), trace + [e], crypto)
            && WireOk(e.data) && e.sender > 0
  {
    var f := conn.pc.frame;
    PublishSub(conn, trace, f, conn.sub.value);
    PhaseSnoc(conn.session.log, Published(f, Wire(Relay(f))), crypto);
  }

  lemma {:induction false} DeliveredWireOk(trace: seq<Event>, id: SubId, conns: map<ConnId, Conn>)
    requires forall i :: 0 <= i < |trace| ==> Owned(conns, trace[i])
    ensures forall k :: 0 <= k < |Delivered(trace, id)| ==> WireOk(Delivered(trace, id)[k])
  {
    if trace != [] {
      DeliveredWireOk(trace[..|trace| - 1], id, conns);
      assert Owned(conns, trace[|trace| - 1]);
    }
  }

  lemma FetchOk(sys: System, c: ConnId, crypto: Crypto)
    requires SysInv(sys, crypto) && c in sys.conns && sys.conns[c].feeder == Waiting
    requires Enabled(Replay(sys.trace), Receive(SenderId(sys.conns[c])))
    ensures var e := Receive(SenderId(sys.conns[c]));
            && Run(sys.trace + [e])
            && ConnOk(Moved(sys.conns[c], Fetch(c), Replay(sys.trace), crypto), sys.trace + [e], crypto)
  {
    var conn := sys.conns[c];
    var id := conn.sub.value;
    var e, ch := Receive(id), Replay(sys.trace).channels[id];
    RunExtend(sys.trace, e);
    RefinesLossyBroadcast(sys.trace, id);
    DeliveredWireOk(sys.trace, id, sys.conns);
    assert ch.buffer[0] == Delivered(sys.trace, id)[|ch.taken|];
    SnocBroadcasts(sys.trace, e, id);
    assert RelayedMessages(conn.session.log) + [] == RelayedMessages(conn.session.log);
  }

  lemma DeliverSub(conn: Conn, trace: seq<Event>, id: SubId, next: Feeder)
    requires Run(trace) && SubOk(conn, trace, id) && conn.feeder.Holding? && WireOk(conn.feeder.data)
    requires next == Waiting || next == Leaving
    ensures var f := Rebuild(conn.feeder.data);
            && ValidFrame(f) && f.addr == ADDR_BROADCAST && f.cmd == CMD_REGULAR
            && SubOk(conn.(session := Add(conn.session, Relayed(f)), feeder := next), trace, id)
  {
    var data := conn.feeder.data;
    var f := Rebuild(data);
    SnocMessages(conn.session.log, Relayed(f));
    assert Wire(f) == data;
    assert RelayedMessages(conn.session.log) + [data] + [] == RelayedMessages(conn.session.log) + [data];
  }

  /** The goroutine's short-data branch and the panic of EncodeFrame are never reached. */
  lemma DeliverOk(conn: Conn, trace: seq<Event>, ok: bool, crypto: Crypto, c: ConnId)
    requires Run(trace) && ConnOk(conn, trace, crypto) && conn.feeder.Holding?
    ensures ConnOk(Moved(conn, Deliver(c, ok), Replay(trace), crypto), trace, crypto)
    ensures |conn.feeder.data| >= 2 && ValidFrame(Rebuild(conn.feeder.data))
  {
    var f, next := Rebuild(conn.feeder.data), if ok then Waiting else Leaving;
    DeliverSub(conn, trace, conn.sub.value, next);
    RelayPhase(conn.session, f, crypto);
    assert Moved(conn, Deliver(c, ok), Replay(trace), crypto) ==
           conn.(session := Add(conn.session, Relayed(f)), feeder := next);
  }

  lemma RelayPhase(s: Session, f: Frame, crypto: Crypto)
    requires PhaseOf(s.log, crypto).Authorised? && f.addr == ADDR_BROADCAST && f.cmd == CMD_REGULAR
    ensures PhaseOf(Add(s, Relayed(f)).log, crypto) == PhaseOf(s.log, crypto)
    ensures Linked(s, crypto) ==> Linked(Add(s, Relayed(f)), crypto)
  {
    PhaseSnoc(s.log, Relayed(f), crypto);
  }

  /** Steps of one connection without a hub event. */
  lemma LocalOk(conn: Conn, trace: seq<Event>, a: Action, crypto: Crypto)
    requires Run(trace) && ConnOk(conn, trace, crypto) && Ready(conn, a, Replay(trace))
    requires a.FrameIn? || a.Hangup? || a.PublishLost? || a.Deliver? || a.Depart? || a.Leave? || a.LeaveLost?
    ensures ConnOk(Moved(conn, a, Replay(trace), crypto), trace, crypto)
  {
    match a
    case FrameIn(c, fr, env) => FrameInOk(conn, trace, fr, env, crypto, c);
    case Deliver(c, ok) => DeliverOk(conn, trace, ok, crypto, c);
    case PublishLost(c) =>
      SnocMessages(conn.session.log, Lost(conn.pc.frame));
      PhaseSnoc(conn.session.log, Lost(conn.pc.frame), crypto);
    case _ =>
  }

  lemma TakeIdOk(sys: System, c: ConnId, crypto: Crypto)
    requires SysInv(sys, crypto) && c in sys.conns && sys.conns[c].pc.Joining?
    ensures var e := Allocate(sys.conns[c].session.ctxDevice);
            var conn := Moved(sys.conns[c], TakeId(c), Replay(sys.trace), crypto);
            && Run(sys.trace + [e])
            && ConnOk(conn, sys.trace + [e], crypto)
            && forall d :: d in sys.conns && d != c ==> IdOf(sys.conns[d]) != IdOf(conn)
  {
    InvHolds(sys.trace);
    var hub := Replay(sys.trace);
    RunExtend(sys.trace, Allocate(sys.conns[c].session.ctxDevice));
    forall d | d in sys.conns && d != c ensures IdOf(sys.conns[d]) != Some(hub.nextId + 1) {
      assert ConnOk(sys.conns[d], sys.trace, crypto);
      if IdOf(sys.conns[d]).Some? { assert ChannelOk(hub, IdOf(sys.conns[d]).value); }
    }
  }

  lemma HubQuitOk(sys: System, crypto: Crypto)
    requires SysInv(sys, crypto) && Enabled(Replay(sys.trace), Quit)
    ensures SysInv(System(sys.conns, sys.trace + [Quit]), crypto)
  {
    RunExtend(sys.trace, Quit);
    forall d | d in sys.conns ensures ConnOk(sys.conns[d], sys.trace + [Quit], crypto) {
      ConnStable(sys.conns[d], sys.trace, Quit, crypto);
    }
  }

  lemma AcceptOk(sys: System, c: ConnId, crypto: Crypto)
    requires SysInv(sys, crypto) && c !in sys.conns
    ensures SysInv(System(sys.conns[c := NEW_CONN], sys.trace), crypto)
  {
    MoveOk(sys, c, NEW_CONN, None, crypto);
  }

  lemma LocalStep(sys: System, a: Action, crypto: Crypto)
    requires SysInv(sys, crypto) && Can(sys, a)
    requires a.FrameIn? || a.Hangup? || a.PublishLost? || a.Deliver? || a.Depart? || a.LeaveLost?
    ensures SysInv(Do(sys, a, crypto), crypto)
  {
    LocalOk(sys.conns[a.c], sys.trace, a, crypto);
    LocalIds(sys.conns[a.c], a, Replay(sys.trace), crypto);
    MoveOk(sys, a.c, Moved(sys.conns[a.c], a, Replay(sys.trace), crypto), None, crypto);
  }

  lemma LocalIds(conn: Conn, a: Action, hub: State, crypto: Crypto)
    requires Ready(conn, a, hub)
    requires a.FrameIn? || a.Hangup? || a.PublishLost? || a.Deliver? || a.Depart? || a.Leave? || a.LeaveLost?
    ensures Moved(conn, a, hub, crypto).sub == conn.sub
    ensures IdOf(Moved(conn, a, hub, crypto)) == IdOf(conn)
  {}

  lemma TakeIdStep(sys: System, c: ConnId, crypto: Crypto)
    requires SysInv(sys, crypto) && Can(sys, TakeId(c))
    ensures SysInv(Do(sys, TakeId(c), crypto), crypto)
  {
    TakeIdOk(sys, c, crypto);
    MoveOk(sys, c, Moved(sys.conns[c], TakeId(c), Replay(sys.trace), crypto), HubEvent(sys, TakeId(c)), crypto);
  }

  lemma EnrollStep(sys: System, c: ConnId, crypto: Crypto)
    requires SysInv(sys, crypto) && Can(sys, Enroll(c))
    ensures SysInv(Do(sys, Enroll(c), crypto), crypto)
  {
    EnrollOk(sys, c, crypto);
    MoveOk(sys, c, Moved(sys.conns[c], Enroll(c), Replay(sys.trace), crypto), HubEvent(sys, Enroll(c)), crypto);
  }

  lemma PublishStep(sys: System, c: ConnId, crypto: Crypto)
    requires SysInv(sys, crypto) && Can(sys, Publish(c))
    ensures SysInv(Do(sys, Publish(c), crypto), crypto)
  {
    var conn := sys.conns[c];
    var moved := Moved(conn, Publish(c), Replay(sys.trace), crypto);
    PublishOk(conn, sys.trace, crypto, c);
    assert sys.conns[c := moved][c].sub == Some(SenderId(conn));
    MoveOk(sys, c, moved, HubEvent(sys, Publish(c)), crypto);
  }

  lemma FetchStep(sys: System, c: ConnId, crypto: Crypto)
    requires SysInv(sys, crypto) && Can(sys, Fetch(c))
    ensures SysInv(Do(sys, Fetch(c), crypto), crypto)
  {
    FetchOk(sys, c, crypto);
    MoveOk(sys, c, Moved(sys.conns[c], Fetch(c), Replay(sys.trace), crypto), HubEvent(sys, Fetch(c)), crypto);
  }

  lemma LeaveOk(conn: Conn, trace: seq<Event>, crypto: Crypto)
    requires Run(trace) && ConnOk(conn, trace, crypto) && conn.feeder == Gone
    requires Enabled(Replay(trace), Unregister(SenderId(conn)))
    ensures Run(trace + [Unregister(SenderId(conn))]) && ConnOk(conn, trace + [Unregister(SenderId(conn))], crypto)
  {
    var id := conn.sub.value;
    InvHolds(trace);
    RunExtend(trace, Unregister(id));
    SnocBroadcasts(trace, Unregister(id), id);
  }

  lemma LeaveStep(sys: System, c: ConnId, crypto: Crypto)
    requires SysInv(sys, crypto) && Can(sys, Leave(c))
    ensures SysInv(Do(sys, Leave(c), crypto), crypto)
  {
    var moved, event := Moved(sys.conns[c], Leave(c), Replay(sys.trace), crypto), HubEvent(sys, Leave(c));
    LocalOk(sys.conns[c], sys.trace, Leave(c), crypto);
    LocalIds(sys.conns[c], Leave(c), Replay(sys.trace), crypto);
    LeaveOk(moved, sys.trace, crypto);
    MoveOk(sys, c, moved, event, crypto);
  }

  lemma StepOk(sys: System, a: Action, crypto: Crypto)
    requires SysInv(sys, crypto) && Can(sys, a)
    ensures SysInv(Do(sys, a, crypto), crypto)
  {
    match a
    case HubQuit => HubQuitOk(sys, crypto);
    case Accept(c) => AcceptOk(sys, c, crypto);
    case TakeId(c) => TakeIdStep(sys, c, crypto);
    case Enroll(c) => EnrollStep(sys, c, crypto);
    case Publish(c) => PublishStep(sys, c, crypto);
    case Fetch(c) => FetchStep(sys, c, crypto);
    case Leave(c) => LeaveStep(sys, c, crypto);
    case _ => LocalStep(sys, a, crypto);
  }

  // ---- runs ----

  ghost predicate Behaviour(actions: seq<Action>, crypto: Crypto)
    decreases |actions|, 0
  {
    actions != [] ==>
      var front := actions[..|actions| - 1];
      Behaviour(front, crypto) && Can(StateAfter(front, crypto), actions[|actions| - 1])
  }

  ghost function StateAfter(actions: seq<Action>, crypto: Crypto): System
    requires Behaviour(actions, crypto)
    decreases |actions|, 1
  {
    if actions == [] then System(map[], [])
    else Do(StateAfter(actions[..|actions| - 1], crypto), actions[|actions| - 1], crypto)
  }

  /** The invariant holds after every sequence of actions of any number of connections. */
  lemma {:induction false} Invariant(actions: seq<Action>, crypto: Crypto)
    requires Behaviour(actions, crypto)
    ensures SysInv(StateAfter(actions, crypto), crypto)
  {
    if actions != [] {
      var front := actions[..|actions| - 1];
      Invariant(front, crypto);
      StepOk(StateAfter(front, crypto), actions[|actions| - 1], crypto);
    }
  }

  /** At the head of the read loop: authenticated, step Done and subscribed are one and the same, and until its
      goroutine is gone a subscribed connection is in the map of a running hub, under its own device id. */
  lemma LoopHead(actions: seq<Action>, c: ConnId, crypto: Crypto)
    requires Behaviour(actions, crypto) && c in StateAfter(actions, crypto).conns
    requires StateAfter(actions, crypto).conns[c].pc == Head
    ensures var conn := StateAfter(actions, crypto).conns[c];
            && (conn.session.authenticated <==> conn.session.step == Done)
            && (conn.session.step == Done <==> conn.sub.Some?)
            && (conn.sub.Some? ==> conn.sub.value > 0)
            && Run(StateAfter(actions, crypto).trace)
            && var hub := Replay(StateAfter(actions, crypto).trace);
               hub.running && conn.sub.Some? && conn.feeder != Gone ==>
                 conn.sub.value in hub.subscribers && hub.subscribers[conn.sub.value] == conn.session.ctxDevice
  {
    Invariant(actions, crypto);
    var sys := StateAfter(actions, crypto);
    var conn := sys.conns[c];
    assert ConnOk(conn, sys.trace, crypto);
    if conn.sub.Some? {
      InvHolds(sys.trace);
      assert ChannelOk(Replay(sys.trace), conn.sub.value);
    }
  }

  /** Earlier broadcasts stay where they are in the list. */
  lemma {:induction false} BroadcastsPrefix(trace: seq<Event>, k: nat, id: SubId)
    requires k <= |trace|
    ensures BroadcastsBy(trace[..k], id) <= BroadcastsBy(trace, id)
  {
    if k == |trace| {
      assert trace[..k] == trace;
    } else {
      var front := trace[..|trace| - 1];
      BroadcastsPrefix(front, k, id);
      assert front[..k] == trace[..k];
    }
  }

  /** How many messages the sender of event `k` had broadcast before. */
  function Earlier(trace: seq<Event>, k: nat): nat
    requires k < |trace| && trace[k].Broadcast?
  {
    |BroadcastsBy(trace[..k], trace[k].sender)|
  }

  lemma EarlierBroadcasts(trace: seq<Event>, k: nat)
    requires k < |trace| && trace[k].Broadcast?
    ensures var all, n := BroadcastsBy(trace, trace[k].sender), Earlier(trace, k);
            n < |all| && all[n] == trace[k].data && all[..n] == BroadcastsBy(trace[..k], trace[k].sender)
  {
    var id := trace[k].sender;
    assert trace[..k + 1] == trace[..k] + [trace[k]];
    SnocBroadcasts(trace[..k], trace[k], id);
    BroadcastsPrefix(trace, k + 1, id);
  }

  lemma EarlierGrows(trace: seq<Event>, j: nat, k: nat)
    requires j < k < |trace| && trace[j].Broadcast? && trace[k].Broadcast? && trace[j].sender == trace[k].sender
    ensures Earlier(trace, j) < Earlier(trace, k)
  {
    var front := trace[..k];
    assert front[..j] == trace[..j];
    EarlierBroadcasts(front, j);
  }

  /** Where the `n`-th publication is in a log. */
  lemma {:induction false} NthPublication(log: seq<Entry>, n: nat) returns (i: nat)
    requires n < |PublishedMessages(log)|
    ensures i < |log| && log[i].Published? && log[i].message == PublishedMessages(log)[n]
    ensures PublishedMessages(log[..i]) == PublishedMessages(log)[..n]
  {
    var front := log[..|log| - 1];
    if n < |PublishedMessages(front)| {
      i := NthPublication(front, n);
      assert front[..i] == log[..i];
    } else {
      i := |front|;
    }
  }

  lemma {:induction false} PublishedPrefix(log: seq<Entry>, i: nat)
    requires i <= |log|
    ensures |PublishedMessages(log[..i])| <= |PublishedMessages(log)|
  {
    if i == |log| {
      assert log[..i] == log;
    } else {
      PublishedPrefix(log[..|log| - 1], i);
      assert log[..|log| - 1][..i] == log[..i];
    }
  }

  /** `log[i]`, in the log of connection `c`, is the publication that became event `k`: as many came before it in the
      log as broadcasts of its sender before the event, with the same messages. */
  ghost predicate Became(sys: System, c: ConnId, i: nat, k: nat) {
    && k < |sys.trace| && sys.trace[k].Broadcast? && c in sys.conns && sys.conns[c].sub == Some(sys.trace[k].sender)
    && var log := sys.conns[c].session.log;
       && i < |log| && log[i].Published? && log[i].message == sys.trace[k].data
       && PublishedMessages(log[..i]) == BroadcastsBy(sys.trace[..k], sys.trace[k].sender)
  }

  /** The connection that published the `k`-th hub event, and the place of that publication in its log. */
  lemma Publisher(sys: System, k: nat, crypto: Crypto) returns (c: ConnId, i: nat)
    requires SysInv(sys, crypto) && k < |sys.trace| && sys.trace[k].Broadcast?
    ensures Became(sys, c, i, k)
  {
    var e := sys.trace[k];
    assert Owned(sys.conns, e);
    c :| c in sys.conns && sys.conns[c].sub == Some(e.sender);
    assert ConnOk(sys.conns[c], sys.trace, crypto);
    EarlierBroadcasts(sys.trace, k);
    i := NthPublication(sys.conns[c].session.log, Earlier(sys.trace, k));
  }

  /** Publications of one connection become events in the order of its log. */
  lemma PublicationsInOrder(sys: System, c: ConnId, i: nat, j: nat, k: nat, n: nat)
    requires Became(sys, c, i, k) && Became(sys, c, j, n) && k < n
    ensures i < j
  {
    var log := sys.conns[c].session.log;
    EarlierGrows(sys.trace, k, n);
    if j <= i {
      assert log[..i][..j] == log[..j];
      PublishedPrefix(log[..i], j);
    }
  }

  /** `log[i]` was published on the strength of the authorisation of `device` documented at `t`. */
  ghost predicate PublishedUnder(log: seq<Entry>, i: nat, device: Data, t: Trail, crypto: Crypto)
    requires i < |log|
  {
    var p := PhaseOf(log[..i], crypto);
    && log[i].Published? && p.Authorised? && p.device == device && Evidence(log[..i], p, t, crypto)
    && CountChallenges(log) == 1 && CountChecks(log) == 1 && CountGrants(log) == 1
  }

  /** Every message the hub handles was published by a connection whose log shows, before that point and in
      order: the key of its device found, that device in service, one challenge sent to it, a signature over
      exactly that challenge verified under exactly that key within the challenge's lifetime, and status
      0x01. The device id of that connection is the one that was authorised, then and ever after. */
  lemma HubMessagesAuthorised(actions: seq<Action>, k: nat, crypto: Crypto)
    returns (c: ConnId, i: nat, device: Data, t: Trail)
    requires Behaviour(actions, crypto)
    requires k < |StateAfter(actions, crypto).trace| && StateAfter(actions, crypto).trace[k].Broadcast?
    ensures var sys := StateAfter(actions, crypto);
            && Became(sys, c, i, k)
            && PublishedUnder(sys.conns[c].session.log, i, device, t, crypto)
            && sys.conns[c].session.ctxDevice == device
  {
    Invariant(actions, crypto);
    var sys := StateAfter(actions, crypto);
    c, i := Publisher(sys, k, crypto);
    assert ConnOk(sys.conns[c], sys.trace, crypto);
    var log := sys.conns[c].session.log;
    t := GrantFirst(log, i, crypto);
    device := PhaseOf(log[..i], crypto).device;
    PrefixFollows(log, i, crypto);
    AtMostOnce(log, crypto);
  }

  /** Every connection's log is in the grammar. */
  lemma TranscriptGrammar(actions: seq<Action>, c: ConnId, crypto: Crypto)
    requires Behaviour(actions, crypto) && c in StateAfter(actions, crypto).conns
    ensures PhaseOf(StateAfter(actions, crypto).conns[c].session.log, crypto) != Broken
  {
    Invariant(actions, crypto);
    var sys := StateAfter(actions, crypto);
    assert ConnOk(sys.conns[c], sys.trace, crypto);
  }

  /** No action moves a connection's step back, and a 0x65 frame before Done advances it or ends the
      connection. */
  lemma StepsForward(sys: System, a: Action, crypto: Crypto)
    requires SysInv(sys, crypto) && Can(sys, a) && !a.HubQuit? && !a.Accept?
    ensures var before, after := sys.conns[a.c], Do(sys, a, crypto).conns[a.c];
            && Rank(before.session.step) <= Rank(after.session.step)
            && (a.FrameIn? && a.fr.cmd == CMD_AUTH && before.session.step != Done ==>
                  after.pc == Closed || Rank(after.session.step) == Rank(before.session.step) + 1)
  {
    if a.FrameIn? {
      var s := sys.conns[a.c].session;
      assert ConnOk(sys.conns[a.c], sys.trace, crypto);
      HandleAdvances(Add(s, Read(a.fr)), a.fr, a.env, crypto);
    }
  }
}
