/** No frame is held back: what a connection reads after its grant is passed to the hub, all of it and in order
    (internal/tcp/crypto_server.go, internal/cmd/cmd0x59/handler.go); and when connections end. */
module Forwarding {
  import opened Bytes
  import opened Frames
  import opened Challenges
  import opened Auth
  import opened Hub
  import opened Transcript
  import opened Connection
  import opened Server

  /** The 0x59/0x76 frames read after status 0x01 was written, in order. */
  function GrantedReads(log: seq<Entry>): seq<Frame> {
    if log == [] then []
    else
      var front := log[..|log| - 1];
      match log[|log| - 1]
      case Read(f) =>
        if CountGrants(front) > 0 && f.addr == 0x76 && f.cmd == 0x59 then GrantedReads(front) + [f]
        else GrantedReads(front)
      case _ => GrantedReads(front)
  }

  /** The frames handed to Broadcast, in order, whether the hub took them or was stopping. */
  function HandedOn(log: seq<Entry>): seq<Frame> {
    if log == [] then []
    else
      var front := HandedOn(log[..|log| - 1]);
      match log[|log| - 1]
      case Published(f, _) => front + [f]
      case Lost(f) => front + [f]
      case _ => front
  }

  /** The frame on its way from the handler to the hub, if any. */
  function InTransit(pc: Pc): seq<Frame> {
    match pc
    case Publishing(f) => [f]
    case Joining(Some(f)) => [f]
    case Registering(_, Some(f)) => [f]
    case _ => []
  }

  predicate Complete(conn: Conn) {
    GrantedReads(conn.session.log) == HandedOn(conn.session.log) + InTransit(conn.pc)
  }

  lemma SnocReads(log: seq<Entry>, e: Entry)
    ensures GrantedReads(log + [e]) ==
            GrantedReads(log) + (if e.Read? && CountGrants(log) > 0 && Regular(e.frame) then [e.frame] else [])
    ensures HandedOn(log + [e]) == HandedOn(log) + (if e.Published? || e.Lost? then [e.frame] else [])
  {
    assert (log + [e])[..|log|] == log;
  }

  lemma {:induction false} GrewReads(a: seq<Entry>, b: seq<Entry>)
    requires Grew(a, b)
    ensures GrantedReads(b) == GrantedReads(a) && HandedOn(b) == HandedOn(a)
  {
    if |a| == |b| {
      assert a == b;
    } else {
      var front := b[..|b| - 1];
      assert Grew(a, front) && Quiet(b[|b| - 1]);
      GrewReads(a, front);
    }
  }

  lemma TurnReads(s: Session, fr: Frame, env: Env, crypto: Crypto)
    requires Linked(s, crypto)
    ensures var log := Turn(s, fr, env, crypto).session.log;
            && GrantedReads(log) == GrantedReads(s.log) + (if s.authenticated && Regular(fr) then [fr] else [])
            && HandedOn(log) == HandedOn(s.log)
  {
    AtMostOnce(s.log, crypto);
    SnocReads(s.log, Read(fr));
    TurnGrew(s, fr, env, crypto);
    GrewReads(Add(s, Read(fr)).log, Turn(s, fr, env, crypto).session.log);
  }

  /** At the head of the loop: an authenticated connection is linked to its log and subscribed. */
  lemma HeadFacts(conn: Conn, trace: seq<Event>, crypto: Crypto)
    requires Run(trace) && ConnOk(conn, trace, crypto) && conn.pc == Head
    ensures Linked(conn.session, crypto) && (conn.session.authenticated ==> conn.sub.Some?)
  {}

  lemma FrameInComplete(conn: Conn, hub: State, c: ConnId, fr: Frame, env: Env, crypto: Crypto)
    requires Complete(conn) && conn.pc == Head
    requires Linked(conn.session, crypto) && (conn.session.authenticated ==> conn.sub.Some?)
    ensures Complete(Moved(conn, FrameIn(c, fr, env), hub, crypto))
  {
    var s, r := conn.session, Turn(conn.session, fr, env, crypto);
    TurnReads(s, fr, env, crypto);
    TurnPassesOn(s, fr, env, crypto);
    var got, handed := GrantedReads(r.session.log), HandedOn(r.session.log);
    if r.out.Some? {
      assert Moved(conn, FrameIn(c, fr, env), hub, crypto).pc == Publishing(fr);
      assert got == handed + [fr];
    } else {
      assert InTransit(Moved(conn, FrameIn(c, fr, env), hub, crypto).pc) == [];
      assert got == handed + [];
    }
  }

  lemma MovedComplete(conn: Conn, trace: seq<Event>, a: Action, crypto: Crypto)
    requires Run(trace) && ConnOk(conn, trace, crypto) && Complete(conn) && Ready(conn, a, Replay(trace))
    ensures Complete(Moved(conn, a, Replay(trace), crypto))
  {
    var log := conn.session.log;
    match a
    case FrameIn(c, fr, env) =>
      HeadFacts(conn, trace, crypto);
      FrameInComplete(conn, Replay(trace), c, fr, env, crypto);
    case Publish(_) => SnocReads(log, Published(conn.pc.frame, Wire(Relay(conn.pc.frame))));
    case PublishLost(_) => SnocReads(log, Lost(conn.pc.frame));
    case Deliver(_, _) => SnocReads(log, Relayed(Rebuild(conn.feeder.data)));
    case _ =>
  }

  lemma {:induction false} AllComplete(actions: seq<Action>, c: ConnId, crypto: Crypto)
    requires Behaviour(actions, crypto) && c in StateAfter(actions, crypto).conns
    ensures Complete(StateAfter(actions, crypto).conns[c])
  {
    var front, a := actions[..|actions| - 1], actions[|actions| - 1];
    var sys := StateAfter(front, crypto);
    Invariant(front, crypto);
    if c in sys.conns {
      AllComplete(front, c, crypto);
      if !a.HubQuit? && !a.Accept? && a.c == c { MovedComplete(sys.conns[c], sys.trace, a, crypto); }
    } else {
      assert StateAfter(actions, crypto).conns[c] == NEW_CONN;
    }
  }

  /** Over every run: the device data frames a connection read after its grant are, in order and without exception,
      those it handed to the hub, and then the one on its way there, if any; at the head of the loop and after the end
      there is none on its way. */
  lemma EveryFrameForwarded(actions: seq<Action>, c: ConnId, crypto: Crypto)
    requires Behaviour(actions, crypto) && c in StateAfter(actions, crypto).conns
    ensures var conn := StateAfter(actions, crypto).conns[c];
            var log := conn.session.log;
            && GrantedReads(log) == HandedOn(log) + InTransit(conn.pc)
            && (conn.pc == Head || conn.pc == Closed ==> GrantedReads(log) == HandedOn(log))
  {
    AllComplete(actions, c, crypto);
    var log := StateAfter(actions, crypto).conns[c].session.log;
    assert HandedOn(log) + [] == HandedOn(log);
  }

  predicate NothingLost(log: seq<Entry>) {
    forall i :: 0 <= i < |log| ==> !log[i].Lost?
  }

  lemma {:induction false} HandedIsPublished(log: seq<Entry>)
    requires NothingLost(log)
    ensures HandedOn(log) == PublishedFrames(log)
  {
    if log != [] { HandedIsPublished(log[..|log| - 1]); }
  }

  /** As long as the hub is not stopping, the hub has handled, at the head of the loop, exactly the messages of all
      device data frames the connection read after its grant. */
  lemma HubHandlesEveryFrame(actions: seq<Action>, c: ConnId, crypto: Crypto)
    requires Behaviour(actions, crypto) && c in StateAfter(actions, crypto).conns
    requires var conn := StateAfter(actions, crypto).conns[c];
             conn.pc == Head && conn.sub.Some? && NothingLost(conn.session.log)
    ensures var sys := StateAfter(actions, crypto);
            BroadcastsBy(sys.trace, sys.conns[c].sub.value) == WireAll(GrantedReads(sys.conns[c].session.log))
  {
    EveryFrameForwarded(actions, c, crypto);
    Invariant(actions, crypto);
    var sys := StateAfter(actions, crypto);
    var log := sys.conns[c].session.log;
    assert ConnOk(sys.conns[c], sys.trace, crypto);
    HandedIsPublished(log);
    MessagesOfFrames(log, crypto);
  }

  /** Exactly when an action ends a connection: reading fails, or a 0x65 frame before authorisation does not advance the
      handshake. Nothing else does, in particular no rejected frame of an authorised connection. */
  lemma ClosesExactly(sys: System, a: Action, crypto: Crypto)
    requires SysInv(sys, crypto) && Can(sys, a) && !a.HubQuit? && !a.Accept? && sys.conns[a.c].pc != Closed
    ensures var before, after := sys.conns[a.c], Do(sys, a, crypto).conns[a.c];
            after.pc == Closed <==>
              a.Hangup?
              || (a.FrameIn? && a.fr.cmd == 0x65 && before.session.step != Done
                  && after.session.step == before.session.step)
  {
    if a.FrameIn? {
      var s := sys.conns[a.c].session;
      assert ConnOk(sys.conns[a.c], sys.trace, crypto);
      HandleAdvances(Add(s, Read(a.fr)), a.fr, a.env, crypto);
      TurnPassesOn(s, a.fr, a.env, crypto);
    }
  }
}
