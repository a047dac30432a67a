/** The grammar of a connection's log: which queries, checks, writes and publications may follow which.
    `Broken` marks logs outside the grammar. */
module Transcript {
  import opened Bytes
  import opened Sequences
  import opened Frames
  import opened Challenges
  import opened Auth
  import opened Hub

  datatype Phase =
    | Fresh
    | Keyed(device: Data, key: Pem)
    | Serving(device: Data, key: Pem)
    | Challenged(device: Data, key: Pem, challenge: Data)
    | Verified(device: Data, key: Pem, challenge: Data)
    | Confirming(device: Data, key: Pem, challenge: Data)
    | Authorised(device: Data, key: Pem, challenge: Data, pending: Option<Frame>)
    | Refused
    | Broken

  /** Device data frames of command 0x59. */
  predicate Regular(f: Frame) {
    f.addr == ADDR_REGULAR && f.cmd == CMD_REGULAR
  }

  /** The frame other devices are to receive: only the address differs. */
  function Relay(f: Frame): Frame {
    f.(addr := ADDR_BROADCAST)
  }

  /** Message.WireBytes: address, command, payload. */
  function Wire(f: Frame): (m: Data)
    ensures |m| == 2 + |f.data|
  {
    [f.addr, f.cmd] + f.data
  }

  predicate IsErrorStatus(f: Frame) {
    && f.addr == ADDR_STATUS && f.cmd == CMD_AUTH && |f.data| == 1
    && f.data[0] != STATUS_OK && f.data[0] != STATUS_AUTHORIZED
  }

  predicate IsChallenge(f: Frame) {
    && f.addr == ADDR_CHALLENGE && f.cmd == CMD_AUTH
    && |f.data| == 1 + CHALLENGE_SIZE + TIMESTAMP_SIZE && f.data[0] == STATUS_OK
  }

  predicate IsTimeResponse(f: Frame) {
    f.addr == ADDR_TIME_RESPONSE && f.cmd == CMD_AUTH
  }

  function AfterWrite(p: Phase, f: Frame): Phase {
    match p
    case Fresh => if IsErrorStatus(f) then Refused else Broken
    case Serving(d, k) =>
      if IsChallenge(f) then Challenged(d, k, f.data[1..]) else if IsErrorStatus(f) then Refused else Broken
    case Challenged(_, _, _) => if IsErrorStatus(f) || f == Status(STATUS_OK) then Refused else Broken
    case Verified(d, k, c) => if f == Status(STATUS_OK) then Confirming(d, k, c) else Broken
    case Confirming(d, k, c) => if f == Status(STATUS_AUTHORIZED) then Authorised(d, k, c, None) else Broken
    case Authorised(_, _, _, _) => if IsErrorStatus(f) || IsTimeResponse(f) then p else Broken
    case Refused => if IsErrorStatus(f) || f == Status(STATUS_OK) then Refused else Broken
    case _ => Broken
  }

  function AfterRead(p: Phase, f: Frame): Phase {
    match p
    case Fresh => p
    case Challenged(_, _, _) => p
    case Authorised(d, k, c, _) => Authorised(d, k, c, if Regular(f) then Some(f) else None)
    case _ => Broken
  }

  /** The signature that counts is over exactly the challenge sent, under exactly the key found, in time. */
  predicate FairCheck(p: Phase, e: Entry, crypto: Crypto) {
    && p.Challenged? && e.SigCheck? && e.key == p.key && e.challenge == p.challenge
    && |e.signature| == SIGNATURE_SIZE && !Expired(e.challenge, e.at)
    && e.ok == crypto.verifies(e.key, e.challenge, e.signature)
  }

  function Next(p: Phase, e: Entry, crypto: Crypto): Phase {
    match e
    case Read(f) => AfterRead(p, f)
    case KeyQuery(d, found) =>
      if !p.Fresh? then Broken else if found.None? then Refused else Keyed(d, found.value)
    case ServiceQuery(d, answer) =>
      if !(p.Keyed? && p.device == d) then Broken
      else if answer == Some(true) then Serving(d, p.key) else Refused
    case SigCheck(_, _, _, _, ok) =>
      if !FairCheck(p, e, crypto) then Broken
      else if ok then Verified(p.device, p.key, p.challenge) else Refused
    case Wrote(f) => AfterWrite(p, f)
    case Relayed(f) => if p.Authorised? && f.addr == ADDR_BROADCAST && f.cmd == CMD_REGULAR then p else Broken
    case Published(f, m) =>
      if p.Authorised? && p.pending == Some(f) && m == Wire(Relay(f)) then p.(pending := None) else Broken
    case Lost(f) => if p.Authorised? && p.pending == Some(f) then p.(pending := None) else Broken
  }

  function PhaseOf(log: seq<Entry>, crypto: Crypto): Phase {
    if log == [] then Fresh else Next(PhaseOf(log[..|log| - 1], crypto), log[|log| - 1], crypto)
  }

  lemma PhaseSnoc(log: seq<Entry>, e: Entry, crypto: Crypto)
    ensures PhaseOf(log + [e], crypto) == Next(PhaseOf(log, crypto), e, crypto)
  {
    assert (log + [e])[..|log|] == log;
  }

  // ---- the handler follows the grammar ----

  /** Between frames, handler step, context and log agree. */
  ghost predicate Linked(s: Session, crypto: Crypto) {
    var p := PhaseOf(s.log, crypto);
    match s.step
    case WaitParam => p == Fresh && !s.authenticated
    case WaitAuth => p == Challenged(s.deviceId, s.key, s.challenge) && s.ctxDevice == s.deviceId && !s.authenticated
    case Done => p.Authorised? && p.device == s.ctxDevice == s.deviceId && s.authenticated
  }

  /** An error status ends a handshake and changes nothing after it. */
  lemma RefuseFollows(s: Session, code: Byte, crypto: Crypto)
    requires code != STATUS_OK && code != STATUS_AUTHORIZED
    ensures var p, q := PhaseOf(s.log, crypto), PhaseOf(Refuse(s, code).session.log, crypto);
            && (p.Fresh? || p.Serving? || p.Challenged? || p.Refused? ==> q == Refused)
            && (p.Authorised? ==> q == p)
  {
    PhaseSnoc(s.log, Wrote(Status(code)), crypto);
  }

  lemma RefuseTwiceFollows(s: Session, code: Byte, crypto: Crypto)
    requires PhaseOf(s.log, crypto).Challenged? || PhaseOf(s.log, crypto).Refused?
    requires code != STATUS_OK && code != STATUS_AUTHORIZED
    ensures PhaseOf(RefuseTwice(s, code).session.log, crypto) == Refused
  {
    PhaseSnoc(s.log, Wrote(Status(STATUS_OK)), crypto);
    RefuseFollows(Add(s, Wrote(Status(STATUS_OK))), code, crypto);
  }

  /** In the grammar, and linked if the handler succeeded. */
  ghost predicate Follows(o: Outcome, crypto: Crypto) {
    PhaseOf(o.session.log, crypto) != Broken && (o.ok ==> Linked(o.session, crypto))
  }

  lemma ParamFollows(s: Session, fr: Frame, env: Env, crypto: Crypto)
    requires PhaseOf(s.log, crypto) == Fresh && !s.authenticated
    ensures Follows(ParamRequest(s, fr, env), crypto)
  {
    RefuseFollows(s, STATUS_SPEC, crypto);
    RefuseFollows(s, STATUS_LENGTH, crypto);
    if |fr.data| >= DEVICE_ID_SIZE {
      var id := Trim(fr.data[..DEVICE_ID_SIZE]);
      LookUpFollows(s.(deviceId := id, ctxDevice := id), env, crypto);
    }
  }

  lemma LookUpFollows(s: Session, env: Env, crypto: Crypto)
    requires PhaseOf(s.log, crypto) == Fresh && s.ctxDevice == s.deviceId && !s.authenticated
    ensures Follows(LookUp(s, env), crypto)
  {
    var q := KeyQuery(s.deviceId, env.key);
    PhaseSnoc(s.log, q, crypto);
    if env.key.None? {
      RefuseFollows(Add(s, q), STATUS_EXEC, crypto);
    } else {
      ServiceFollows(Add(s, q), env.key.value, env, crypto);
    }
  }

  lemma ServiceFollows(s: Session, key: Pem, env: Env, crypto: Crypto)
    requires PhaseOf(s.log, crypto) == Keyed(s.deviceId, key) && s.ctxDevice == s.deviceId && !s.authenticated
    ensures Follows(CheckService(s, key, env), crypto)
  {
    var q := ServiceQuery(s.deviceId, env.inService);
    PhaseSnoc(s.log, q, crypto);
    if env.inService != Some(true) {
      RefuseFollows(Add(s, q), STATUS_EXEC, crypto);
    } else {
      ChallengeFollows(Add(s, q).(key := key), env, crypto);
    }
  }

  lemma ChallengeFollows(s: Session, env: Env, crypto: Crypto)
    requires PhaseOf(s.log, crypto) == Serving(s.deviceId, s.key) && s.ctxDevice == s.deviceId && !s.authenticated
    ensures Follows(IssueChallenge(s, env), crypto)
  {
    if env.nonce.None? {
      RefuseFollows(s, STATUS_TIMEOUT, crypto);
    } else {
      var c := Challenge(env.nonce.value, env.now);
      PhaseSnoc(s.log, Wrote(ChallengeFrame(c)), crypto);
      assert ChallengeFrame(c).data[1..] == c;
    }
  }

  lemma AuthorizeFollows(s: Session, fr: Frame, env: Env, crypto: Crypto)
    requires s.step == WaitAuth && Linked(s, crypto)
    ensures Follows(Authorize(s, fr, env, crypto), crypto)
  {
    RefuseFollows(s, STATUS_SPEC, crypto);
    RefuseFollows(s, STATUS_LENGTH, crypto);
    RefuseTwiceFollows(s, STATUS_VALUE, crypto);
    RefuseTwiceFollows(s, STATUS_TIMEOUT, crypto);
    RefuseTwiceFollows(s, STATUS_EXEC, crypto);
    if |fr.data| >= AUTH_LEN && !Expired(s.challenge, env.now) {
      CheckFollows(s, fr.data[DEVICE_ID_SIZE + 1..AUTH_LEN], env, crypto);
    }
  }

  lemma CheckFollows(s: Session, signature: Data, env: Env, crypto: Crypto)
    requires s.step == WaitAuth && Linked(s, crypto)
    requires |signature| == SIGNATURE_SIZE && !Expired(s.challenge, env.now)
    ensures Follows(CheckSignature(s, signature, env, crypto), crypto)
  {
    var ok := crypto.verifies(s.key, s.challenge, signature);
    var e := SigCheck(s.key, s.challenge, signature, env.now, ok);
    var s1 := Add(s, e);
    PhaseSnoc(s.log, e, crypto);
    if ok {
      PhaseSnoc(s1.log, Wrote(Status(STATUS_OK)), crypto);
      PhaseSnoc(s1.log + [Wrote(Status(STATUS_OK))], Wrote(Status(STATUS_AUTHORIZED)), crypto);
    } else {
      RefuseTwiceFollows(s1, STATUS_VALUE, crypto);
    }
  }

  lemma TimeFollows(s: Session, f: Frame, crypto: Crypto)
    requires PhaseOf(s.log, crypto).Authorised? && IsTimeResponse(f)
    ensures PhaseOf(Add(s, Wrote(f)).log, crypto) == PhaseOf(s.log, crypto)
  {
    PhaseSnoc(s.log, Wrote(f), crypto);
  }

  lemma HeartbeatFollows(s: Session, fr: Frame, env: Env, crypto: Crypto)
    requires s.step == Done && Linked(s, crypto)
    ensures Linked(Heartbeat(s, fr, env).session, crypto)
  {
    if fr.addr != ADDR_TIME_REQUEST {
      RefuseFollows(s, STATUS_SPEC, crypto);
    } else if |fr.data| != TIME_LEN {
      RefuseFollows(s, STATUS_LENGTH, crypto);
    } else {
      TimeFollows(s, TimeResponse(env), crypto);
    }
  }

  lemma ReadFollows(s: Session, fr: Frame, crypto: Crypto)
    requires Linked(s, crypto)
    ensures Linked(Add(s, Read(fr)), crypto)
    ensures s.step == Done ==> PhaseOf(s.log + [Read(fr)], crypto).pending == if Regular(fr) then Some(fr) else None
  {
    PhaseSnoc(s.log, Read(fr), crypto);
  }

  /** Handling a 0x65 frame keeps the log in the grammar, and keeps it linked unless the handler fails before
      authorisation. */
  lemma HandleFollows(s: Session, fr: Frame, env: Env, crypto: Crypto)
    requires Linked(s, crypto)
    ensures var o := Handle(s, fr, env, crypto);
            && PhaseOf(o.session.log, crypto) != Broken
            && (o.ok || o.session.authenticated ==> Linked(o.session, crypto))
  {
    match s.step
    case WaitParam =>
      ParamFollows(s, fr, env, crypto);
      ParamAdvances(s, fr, env);
    case WaitAuth =>
      AuthorizeFollows(s, fr, env, crypto);
      AuthorizeAdvances(s, fr, env, crypto);
    case Done => HeartbeatFollows(s, fr, env, crypto);
  }

  // ---- what the grammar says ----

  function CountChallenges(log: seq<Entry>): nat {
    if log == [] then 0
    else CountChallenges(log[..|log| - 1]) +
         match log[|log| - 1] { case Wrote(f) => if IsChallenge(f) then 1 else 0 case _ => 0 }
  }

  function CountChecks(log: seq<Entry>): nat {
    if log == [] then 0
    else CountChecks(log[..|log| - 1]) + if log[|log| - 1].SigCheck? then 1 else 0
  }

  function CountGrants(log: seq<Entry>): nat {
    if log == [] then 0
    else CountGrants(log[..|log| - 1]) + if log[|log| - 1] == Wrote(Status(STATUS_AUTHORIZED)) then 1 else 0
  }

  /** At most one challenge is sent and at most one signature checked; status 0x01 is sent exactly on
      connections that end up authorised, once. */
  lemma {:induction false} AtMostOnce(log: seq<Entry>, crypto: Crypto)
    requires PhaseOf(log, crypto) != Broken
    ensures match PhaseOf(log, crypto)
            case Challenged(_, _, _) => CountChallenges(log) == 1 && CountChecks(log) == 0
            case Verified(_, _, _) => CountChallenges(log) == 1 && CountChecks(log) == 1
            case Confirming(_, _, _) => CountChallenges(log) == 1 && CountChecks(log) == 1
            case Authorised(_, _, _, _) => CountChallenges(log) == 1 && CountChecks(log) == 1
            case Refused => CountChallenges(log) <= 1 && CountChecks(log) <= 1
            case _ => CountChallenges(log) == 0 && CountChecks(log) == 0
    ensures CountGrants(log) == if PhaseOf(log, crypto).Authorised? then 1 else 0
  {
    if log != [] { AtMostOnce(log[..|log| - 1], crypto); }
  }

  /** How far along the handshake a phase is. */
  function Depth(p: Phase): nat {
    match p
    case Keyed(_, _) => 1
    case Serving(_, _) => 2
    case Challenged(_, _, _) => 3
    case Verified(_, _, _) => 4
    case Confirming(_, _, _) => 4
    case Authorised(_, _, _, _) => 5
    case _ => 0
  }

  /** Positions in the log of the five events behind an authorisation. */
  datatype Trail = Trail(key: nat, service: nat, issued: nat, checked: nat, granted: nat)

  ghost predicate Evidence(log: seq<Entry>, p: Phase, t: Trail, crypto: Crypto) {
    && (Depth(p) >= 1 ==> t.key < |log| && log[t.key] == KeyQuery(p.device, Some(p.key)))
    && (Depth(p) >= 2 ==> t.key < t.service < |log| && log[t.service] == ServiceQuery(p.device, Some(true)))
    && (Depth(p) >= 3 ==> t.service < t.issued < |log| && log[t.issued] == Wrote(ChallengeFrame(p.challenge)))
    && (Depth(p) >= 4 ==> t.issued < t.checked < |log| && GoodCheck(log[t.checked], p.key, p.challenge, crypto))
    && (Depth(p) >= 5 ==> t.checked < t.granted < |log| && log[t.granted] == Wrote(Status(STATUS_AUTHORIZED)))
  }

  /** A signature over this challenge verified under this key within the challenge's lifetime. */
  predicate GoodCheck(e: Entry, key: Pem, challenge: Data, crypto: Crypto) {
    && e.SigCheck? && e.ok && e.key == key && e.challenge == challenge
    && crypto.verifies(key, challenge, e.signature) && !Expired(challenge, e.at)
  }

  function Extend(t: Trail, p: Phase, e: Entry, at: nat): Trail {
    match e
    case KeyQuery(_, _) => t.(key := at)
    case ServiceQuery(_, _) => t.(service := at)
    case SigCheck(_, _, _, _, _) => t.(checked := at)
    case Wrote(_) => if p.Serving? then t.(issued := at) else if p.Confirming? then t.(granted := at) else t
    case _ => t
  }

  lemma EvidenceStep(log: seq<Entry>, p: Phase, t: Trail, e: Entry, crypto: Crypto)
    requires Evidence(log, p, t, crypto) && Next(p, e, crypto) != Broken
    ensures Evidence(log + [e], Next(p, e, crypto), Extend(t, p, e, |log|), crypto)
  {
    if e.Wrote? && p.Serving? && IsChallenge(e.frame) { assert e.frame == ChallengeFrame(e.frame.data[1..]); }
  }

  /** An authorised log holds, in this order: the device's key found, the device in service, its challenge
      sent, a signature over that challenge verified under that key in time, and status 0x01. */
  lemma {:induction false} Credentials(log: seq<Entry>, crypto: Crypto) returns (t: Trail)
    requires PhaseOf(log, crypto) != Broken
    ensures Evidence(log, PhaseOf(log, crypto), t, crypto)
  {
    if log == [] { return Trail(0, 0, 0, 0, 0); }
    var front, e := log[..|log| - 1], log[|log| - 1];
    t := Credentials(front, crypto);
    EvidenceStep(front, PhaseOf(front, crypto), t, e, crypto);
    t := Extend(t, PhaseOf(front, crypto), e, |front|);
    assert front + [e] == log;
  }

  predicate SameGrant(p: Phase, q: Phase) {
    p.Authorised? ==> q.Authorised? && q.device == p.device && q.key == p.key && q.challenge == p.challenge
  }

  /** The grammar is closed under prefixes, and an authorisation once granted stays as it was granted. */
  lemma {:induction false} PrefixFollows(log: seq<Entry>, n: nat, crypto: Crypto)
    requires PhaseOf(log, crypto) != Broken && n <= |log|
    ensures PhaseOf(log[..n], crypto) != Broken
    ensures SameGrant(PhaseOf(log[..n], crypto), PhaseOf(log, crypto))
  {
    if n == |log| {
      assert log[..n] == log;
    } else {
      var front, e := log[..|log| - 1], log[|log| - 1];
      PrefixFollows(front, n, crypto);
      assert front[..n] == log[..n];
      GrantStays(PhaseOf(front, crypto), e, crypto);
    }
  }

  lemma GrantStays(p: Phase, e: Entry, crypto: Crypto)
    requires Next(p, e, crypto) != Broken
    ensures p != Broken && SameGrant(p, Next(p, e, crypto))
  {}

  /** Nothing is published, relayed or answered with a time before status 0x01. */
  lemma GrantFirst(log: seq<Entry>, i: nat, crypto: Crypto) returns (t: Trail)
    requires PhaseOf(log, crypto) != Broken && i < |log|
    requires log[i].Published? || log[i].Relayed? || (log[i].Wrote? && IsTimeResponse(log[i].frame))
    ensures PhaseOf(log[..i], crypto).Authorised?
    ensures Evidence(log[..i], PhaseOf(log[..i], crypto), t, crypto)
  {
    PrefixFollows(log, i + 1, crypto);
    assert log[..i + 1][..i] == log[..i];
    t := Credentials(log[..i], crypto);
  }

  function PublishedFrames(log: seq<Entry>): seq<Frame> {
    if log == [] then []
    else
      var front := PublishedFrames(log[..|log| - 1]);
      match log[|log| - 1]
      case Published(f, _) => front + [f]
      case _ => front
  }

  function RegularReads(log: seq<Entry>): seq<Frame> {
    if log == [] then []
    else
      var front := RegularReads(log[..|log| - 1]);
      match log[|log| - 1]
      case Read(f) => if Regular(f) then front + [f] else front
      case _ => front
  }

  /** What a connection published are regular frames it read, in order, none twice. */
  lemma {:induction false} PublishedWereRead(log: seq<Entry>, crypto: Crypto)
    requires PhaseOf(log, crypto) != Broken
    ensures Subsequence(PublishedFrames(log), RegularReads(log))
    ensures var p := PhaseOf(log, crypto);
            p.Authorised? && p.pending.Some? ==>
              var rs := RegularReads(log);
              rs != [] && rs[|rs| - 1] == p.pending.value && Regular(p.pending.value)
              && Subsequence(PublishedFrames(log), rs[..|rs| - 1])
  {
    if log != [] {
      var front, e := log[..|log| - 1], log[|log| - 1];
      PublishedWereRead(front, crypto);
      var rs, ps := RegularReads(log), PublishedFrames(log);
      if e.Read? && Regular(e.frame) {
        assert rs[..|rs| - 1] == RegularReads(front);
      }
      if e.Published? {
        assert ps[..|ps| - 1] == PublishedFrames(front);
      }
    }
  }

  function PublishedMessages(log: seq<Entry>): seq<Data> {
    if log == [] then []
    else
      var front := PublishedMessages(log[..|log| - 1]);
      match log[|log| - 1]
      case Published(_, m) => front + [m]
      case _ => front
  }

  /** Where the last frame was read. */
  function LastRead(log: seq<Entry>): nat {
    if log == [] then 0 else if log[|log| - 1].Read? then |log| - 1 else LastRead(log[..|log| - 1])
  }

  /** A frame waiting to be published is the last one read. */
  lemma {:induction false} PendingRead(log: seq<Entry>, crypto: Crypto)
    requires PhaseOf(log, crypto).Authorised? && PhaseOf(log, crypto).pending.Some?
    ensures LastRead(log) < |log| && log[LastRead(log)] == Read(PhaseOf(log, crypto).pending.value)
    ensures Regular(PhaseOf(log, crypto).pending.value)
  {
    if log != [] && !log[|log| - 1].Read? { PendingRead(log[..|log| - 1], crypto); }
  }

  /** After a publication only a new read can be waiting. */
  lemma {:induction false} PendingIsNew(log: seq<Entry>, i: nat, crypto: Crypto)
    requires PhaseOf(log, crypto).Authorised? && PhaseOf(log, crypto).pending.Some? && i < |log| && log[i].Published?
    ensures LastRead(log) > i
  {
    if !log[|log| - 1].Read? && i < |log| - 1 { PendingIsNew(log[..|log| - 1], i, crypto); }
  }

  /** What a publication is made of: the last frame read, which is regular, and its message. */
  lemma PublicationSource(log: seq<Entry>, i: nat, crypto: Crypto)
    requires PhaseOf(log, crypto) != Broken && i < |log| && log[i].Published?
    ensures LastRead(log[..i]) < i && log[LastRead(log[..i])] == Read(log[i].frame) && Regular(log[i].frame)
    ensures log[i].message == Wire(Relay(log[i].frame))
    ensures PhaseOf(log[..i], crypto).Authorised? && PhaseOf(log[..i], crypto).pending.Some?
  {
    PrefixFollows(log, i + 1, crypto);
    assert log[..i + 1][..i] == log[..i];
    PendingRead(log[..i], crypto);
  }

  /** No read is published twice, and reads are published in order. */
  lemma SourcesAdvance(log: seq<Entry>, i: nat, j: nat, crypto: Crypto)
    requires PhaseOf(log, crypto) != Broken && i < j < |log| && log[i].Published? && log[j].Published?
    ensures LastRead(log[..i]) < i < LastRead(log[..j]) < j
  {
    PublicationSource(log, i, crypto);
    PublicationSource(log, j, crypto);
    PendingIsNew(log[..j], i, crypto);
  }

  function WireAll(fs: seq<Frame>): (ms: seq<Data>)
    ensures |ms| == |fs|
  {
    seq(|fs|, i requires 0 <= i < |fs| => Wire(Relay(fs[i])))
  }

  /** The messages published are those of the frames published. */
  lemma {:induction false} MessagesOfFrames(log: seq<Entry>, crypto: Crypto)
    requires PhaseOf(log, crypto) != Broken
    ensures PublishedMessages(log) == WireAll(PublishedFrames(log))
  {
    if log != [] { MessagesOfFrames(log[..|log| - 1], crypto); }
  }
}
