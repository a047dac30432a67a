/** The relay end to end: what subscriber goroutines write, traced through the hub to the frames other connections read
    (internal/tcp/crypto_server.go, internal/cmd/cmd0x59/handler.go). */
module Relaying {
  import opened Bytes
  import opened Sequences
  import opened Frames
  import opened Challenges
  import opened Auth
  import opened Hub
  import opened Transcript
  import opened Connection
  import opened Server

  /** What the subscriber goroutine has written to a connection is, in hub order, a subsequence of what other
      connections published; a connection's publications reach the hub as it made them, are the messages of the frames
      it published, and these are a subsequence of the regular frames it read. */
  lemma RelayInHubOrder(actions: seq<Action>, c: ConnId, crypto: Crypto)
    requires Behaviour(actions, crypto) && c in StateAfter(actions, crypto).conns
    requires StateAfter(actions, crypto).conns[c].sub.Some?
    ensures var sys := StateAfter(actions, crypto);
            var conn := sys.conns[c];
            && Subsequence(RelayedMessages(conn.session.log), FromOthers(sys.trace, conn.sub.value))
            && BroadcastsBy(sys.trace, conn.sub.value) == WireAll(PublishedFrames(conn.session.log))
            && Subsequence(PublishedFrames(conn.session.log), RegularReads(conn.session.log))
  {
    Invariant(actions, crypto);
    var sys := StateAfter(actions, crypto);
    var id, log := sys.conns[c].sub.value, sys.conns[c].session.log;
    LogFacts(sys, c, crypto);
    PublishedWereRead(log, crypto);
    MessagesOfFrames(log, crypto);
    RelayedDelivered(sys, c, crypto);
    PrefixFromOthers(RelayedMessages(log), sys.trace, id);
  }

  lemma PrefixFromOthers(ms: seq<Data>, trace: seq<Event>, id: SubId)
    requires ms <= Delivered(trace, id)
    ensures Subsequence(ms, FromOthers(trace, id))
  {
    DeliveredFromOthers(trace, id);
    SubsequencePrefix(Delivered(trace, id), FromOthers(trace, id), |ms|);
    assert Delivered(trace, id)[..|ms|] == ms;
  }

  /** What the invariant says of the log of a connection. */
  lemma LogFacts(sys: System, c: ConnId, crypto: Crypto)
    requires SysInv(sys, crypto) && c in sys.conns
    ensures var conn := sys.conns[c];
            && PhaseOf(conn.session.log, crypto) != Broken
            && (conn.sub.Some? ==> BroadcastsBy(sys.trace, conn.sub.value) == PublishedMessages(conn.session.log))
            && (conn.sub.None? ==> RelayedMessages(conn.session.log) == [])
  {
    assert ConnOk(sys.conns[c], sys.trace, crypto);
  }

  lemma RelayedDelivered(sys: System, c: ConnId, crypto: Crypto)
    requires SysInv(sys, crypto) && c in sys.conns && sys.conns[c].sub.Some?
    ensures RelayedMessages(sys.conns[c].session.log) <= Delivered(sys.trace, sys.conns[c].sub.value)
  {
    var conn := sys.conns[c];
    var id, log := conn.sub.value, conn.session.log;
    assert ConnOk(conn, sys.trace, crypto);
    RefinesLossyBroadcast(sys.trace, id);
    var ch := Replay(sys.trace).channels[id];
    assert RelayedMessages(log) <= ch.taken <= Delivered(sys.trace, id);
  }

  // ---- end to end, byte for byte ----

  /** The frames the subscriber goroutine wrote. */
  function RelayedFrames(log: seq<Entry>): seq<Frame> {
    if log == [] then []
    else
      var front := RelayedFrames(log[..|log| - 1]);
      match log[|log| - 1]
      case Relayed(f) => front + [f]
      case _ => front
  }

  lemma {:induction false} FramesOfMessages(log: seq<Entry>)
    ensures |RelayedFrames(log)| == |RelayedMessages(log)|
    ensures forall m :: 0 <= m < |RelayedFrames(log)| ==> RelayedMessages(log)[m] == Wire(RelayedFrames(log)[m])
  {
    if log != [] { FramesOfMessages(log[..|log| - 1]); }
  }

  /** Where a relayed frame comes from: the hub event that carried it, the connection that read it, and the places of
      the publication and of the read in its log. */
  datatype Origin = Origin(event: nat, conn: ConnId, publication: nat, read: nat)

  /** The event carried that publication, which was made of that read. */
  ghost predicate Carried(sys: System, o: Origin) {
    Became(sys, o.conn, o.publication, o.event) && o.read == LastRead(sys.conns[o.conn].session.log[..o.publication])
  }

  ghost predicate ReadAt(sys: System, o: Origin) {
    o.conn in sys.conns && o.read < |sys.conns[o.conn].session.log| && sys.conns[o.conn].session.log[o.read].Read?
  }

  /** The frame read at the origin. */
  ghost function FrameAt(sys: System, o: Origin): Frame
    requires ReadAt(sys, o)
  {
    sys.conns[o.conn].session.log[o.read].frame
  }

  /** `o` is where `f`, relayed to connection `c`, comes from: a regular frame read by another connection, which differs
      in its address only. */
  ghost predicate OriginOf(sys: System, c: ConnId, o: Origin, f: Frame) {
    && o.conn != c && Carried(sys, o)
    && ReadAt(sys, o) && Regular(FrameAt(sys, o)) && ValidFrame(FrameAt(sys, o)) && f == Relay(FrameAt(sys, o))
  }

  /** The origin of the `m`-th relayed frame. */
  lemma FindOrigin(sys: System, c: ConnId, m: nat, crypto: Crypto) returns (o: Origin)
    requires SysInv(sys, crypto) && c in sys.conns && sys.conns[c].sub.Some?
    requires m < |RelayedFrames(sys.conns[c].session.log)| <= |DeliveredAt(sys.trace, sys.conns[c].sub.value)|
    ensures OriginOf(sys, c, o, RelayedFrames(sys.conns[c].session.log)[m])
    ensures o.event == DeliveredAt(sys.trace, sys.conns[c].sub.value)[m]
  {
    var id, log := sys.conns[c].sub.value, sys.conns[c].session.log;
    var k := DeliveredAt(sys.trace, id)[m];
    DeliveredPositions(sys.trace, id);
    RelayedDelivered(sys, c, crypto);
    FramesOfMessages(log);
    assert sys.trace[k].data == Wire(RelayedFrames(log)[m]);
    var d, i := Publisher(sys, k, crypto);
    var source := sys.conns[d].session.log;
    LogFacts(sys, d, crypto);
    PublicationSource(source, i, crypto);
    o := Origin(k, d, i, LastRead(source[..i]));
    assert Owned(sys.conns, sys.trace[k]);
    RebuildWire(RelayedFrames(log)[m]);
    RebuildWire(Relay(source[i].frame));
  }

  /** Origins of these frames, carried by the events at these positions. */
  ghost predicate Traced(sys: System, c: ConnId, fs: seq<Frame>, ks: seq<nat>, os: seq<Origin>) {
    |os| <= |fs| <= |ks| && forall m :: 0 <= m < |os| ==> OriginOf(sys, c, os[m], fs[m]) && os[m].event == ks[m]
  }

  lemma TracedMore(sys: System, c: ConnId, fs: seq<Frame>, ks: seq<nat>, os: seq<Origin>, o: Origin)
    requires Traced(sys, c, fs, ks, os) && |os| < |fs| && OriginOf(sys, c, o, fs[|os|]) && o.event == ks[|os|]
    ensures Traced(sys, c, fs, ks, os + [o])
  {}

  lemma {:induction false} FindFirst(sys: System, c: ConnId, n: nat, crypto: Crypto) returns (os: seq<Origin>)
    requires SysInv(sys, crypto) && c in sys.conns && sys.conns[c].sub.Some?
    requires n <= |RelayedFrames(sys.conns[c].session.log)| <= |DeliveredAt(sys.trace, sys.conns[c].sub.value)|
    ensures |os| == n
    ensures Traced(sys, c, RelayedFrames(sys.conns[c].session.log), DeliveredAt(sys.trace, sys.conns[c].sub.value), os)
  {
    os := [];
    if n > 0 {
      os := FindFirst(sys, c, n - 1, crypto);
      var o := FindOrigin(sys, c, n - 1, crypto);
      var ks := DeliveredAt(sys.trace, sys.conns[c].sub.value);
      TracedMore(sys, c, RelayedFrames(sys.conns[c].session.log), ks, os, o);
      os := os + [o];
    }
  }

  /** The hub handled them in this order, and no connection's reads are reused or reordered. */
  ghost predicate InOrder(os: seq<Origin>) {
    forall m, n :: 0 <= m < n < |os| ==>
      os[m].event < os[n].event && (os[m].conn == os[n].conn ==> os[m].read < os[n].read)
  }

  lemma OriginsInOrder(sys: System, o: Origin, p: Origin, crypto: Crypto)
    requires Carried(sys, o) && Carried(sys, p) && o.event < p.event && o.conn == p.conn
    requires PhaseOf(sys.conns[o.conn].session.log, crypto) != Broken
    ensures o.read < p.read
  {
    PublicationsInOrder(sys, o.conn, o.publication, p.publication, o.event, p.event);
    SourcesAdvance(sys.conns[o.conn].session.log, o.publication, p.publication, crypto);
  }

  lemma AllInOrder(sys: System, c: ConnId, fs: seq<Frame>, ks: seq<nat>, os: seq<Origin>, crypto: Crypto)
    requires SysInv(sys, crypto) && Traced(sys, c, fs, ks, os) && forall m, n :: 0 <= m < n < |ks| ==> ks[m] < ks[n]
    ensures InOrder(os)
  {
    forall m, n | 0 <= m < n < |os|
      ensures os[m].event < os[n].event && (os[m].conn == os[n].conn ==> os[m].read < os[n].read)
    {
      assert ks[m] < ks[n];
      if os[m].conn == os[n].conn {
        LogFacts(sys, os[m].conn, crypto);
        OriginsInOrder(sys, os[m], os[n], crypto);
      }
    }
  }

  /** A wire image with the address 0x70 and the checksum bits 0x06 flipped. */
  function Readdressed(was: Data): Data
    requires |was| >= 2
  {
    was[1 := ADDR_BROADCAST][|was| - 1 := Xor(was[|was| - 1], 0x06)]
  }

  lemma RelayReaddresses(g: Frame)
    requires Regular(g) && ValidFrame(g)
    ensures Encode(Relay(g)) == Readdressed(Encode(g))
  {
    RebuildWire(Relay(g));
    RelayBytes(g);
  }

  /** The bytes read at these origins, readdressed, one after the other. */
  ghost function ReaddressedReads(sys: System, os: seq<Origin>): Data
    requires forall m :: 0 <= m < |os| ==> ReadAt(sys, os[m])
  {
    if os == [] then [] else Readdressed(Encode(FrameAt(sys, os[0]))) + ReaddressedReads(sys, os[1..])
  }

  lemma {:induction false} OriginBytes(sys: System, c: ConnId, os: seq<Origin>, fs: seq<Frame>)
    requires |os| == |fs| && forall m :: 0 <= m < |os| ==> OriginOf(sys, c, os[m], fs[m])
    ensures forall m :: 0 <= m < |os| ==> ReadAt(sys, os[m])
    ensures EncodeAll(fs) == ReaddressedReads(sys, os)
  {
    if os != [] {
      RelayReaddresses(FrameAt(sys, os[0]));
      OriginBytes(sys, c, os[1..], fs[1..]);
    }
  }

  lemma FindOrigins(sys: System, c: ConnId, crypto: Crypto) returns (os: seq<Origin>)
    requires SysInv(sys, crypto) && c in sys.conns && sys.conns[c].sub.Some?
    ensures |os| == |RelayedFrames(sys.conns[c].session.log)| && InOrder(os)
    ensures forall m :: 0 <= m < |os| ==> OriginOf(sys, c, os[m], RelayedFrames(sys.conns[c].session.log)[m])
  {
    var id, log := sys.conns[c].sub.value, sys.conns[c].session.log;
    DeliveredPositions(sys.trace, id);
    RelayedDelivered(sys, c, crypto);
    FramesOfMessages(log);
    os := FindFirst(sys, c, |RelayedFrames(log)|, crypto);
    AllInOrder(sys, c, RelayedFrames(log), DeliveredAt(sys.trace, id), os, crypto);
  }

  /** End-to-end relay: the bytes the subscriber goroutine has written to a connection are, in hub order, those of
      regular frames that other connections read, with only the address and the checksum changed; no read is relayed
      twice, and those of one connection keep their order. */
  lemma RelayEndToEnd(actions: seq<Action>, c: ConnId, crypto: Crypto) returns (os: seq<Origin>)
    requires Behaviour(actions, crypto) && c in StateAfter(actions, crypto).conns
    ensures var sys := StateAfter(actions, crypto);
            var fs := RelayedFrames(sys.conns[c].session.log);
            && |os| == |fs| && InOrder(os) && (forall m :: 0 <= m < |os| ==> OriginOf(sys, c, os[m], fs[m]))
            && EncodeAll(fs) == ReaddressedReads(sys, os)
  {
    Invariant(actions, crypto);
    var sys := StateAfter(actions, crypto);
    var log := sys.conns[c].session.log;
    LogFacts(sys, c, crypto);
    if sys.conns[c].sub.None? {
      FramesOfMessages(log);
      os := [];
    } else {
      os := FindOrigins(sys, c, crypto);
    }
    OriginBytes(sys, c, os, RelayedFrames(log));
  }

  lemma {:induction false} RelayedNth(log: seq<Entry>, i: nat) returns (m: nat)
    requires i < |log| && log[i].Relayed?
    ensures m < |RelayedFrames(log)| && RelayedFrames(log)[m] == log[i].frame
  {
    if i == |log| - 1 {
      m := |RelayedFrames(log)| - 1;
    } else {
      m := RelayedNth(log[..|log| - 1], i);
    }
  }

  /** Where the bytes come from: every frame the subscriber goroutine of a connection wrote is byte for byte a
      0x59/0x76 frame that some other connection read, except for the address 0x70 and the checksum bits 0x06. */
  lemma RelayedFrameOrigin(actions: seq<Action>, c: ConnId, i: nat, crypto: Crypto) returns (d: ConnId, j: nat)
    requires Behaviour(actions, crypto) && c in StateAfter(actions, crypto).conns
    requires i < |StateAfter(actions, crypto).conns[c].session.log|
    requires StateAfter(actions, crypto).conns[c].session.log[i].Relayed?
    ensures var sys := StateAfter(actions, crypto);
            && d in sys.conns && d != c && j < |sys.conns[d].session.log|
            && sys.conns[d].session.log[j].Read? && Regular(sys.conns[d].session.log[j].frame)
            && Encode(sys.conns[c].session.log[i].frame) == Readdressed(Encode(sys.conns[d].session.log[j].frame))
  {
    var sys := StateAfter(actions, crypto);
    var os := RelayEndToEnd(actions, c, crypto);
    var m := RelayedNth(sys.conns[c].session.log, i);
    assert OriginOf(sys, c, os[m], RelayedFrames(sys.conns[c].session.log)[m]);
    d, j := os[m].conn, os[m].read;
    RelayReaddresses(FrameAt(sys, os[m]));
  }
}
