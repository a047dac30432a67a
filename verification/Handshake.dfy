/** The client of cmd/challenge_client/main.go (steps 1 to 5) talking to the server over two byte streams. */
module Handshake {
  import opened Bytes
  import opened Instants
  import opened Frames
  import opened Challenges
  import opened Auth
  import opened Replies
  import opened Connection

  function WrittenBytes(log: seq<Entry>, n: nat): Data
    requires n <= |log|
  {
    EncodeAll(Written(log, n))
  }

  function ParamFrame(id: Data): Frame {
    Frame(ADDR_PARAM_REQUEST, CMD_AUTH, Pad(id))
  }

  function AuthFrame(id: Data, signature: Data): Frame {
    Frame(ADDR_AUTH, CMD_AUTH, Pad(id) + [AUTH_VERSION] + signature)
  }

  /** The device as the server will know it. */
  function KnownAs(id: Data): Data {
    Trim(Pad(id))
  }

  /** The device is registered and in service, and the server can make a challenge. */
  predicate Admitted(env: Env) {
    env.key.Some? && env.inService == Some(true) && env.nonce.Some?
  }

  /** The challenge the server makes under `env`. */
  function Issued(env: Env): Data
    requires env.nonce.Some?
  {
    Challenge(env.nonce.value, env.now)
  }

  /** At most TTL has passed since the millisecond of issue. */
  predicate Timely(first: Env, second: Env) {
    second.now - Millis(first.now) * MILLISECOND <= TTL
  }

  /** The signature fills its field, fits a frame, and verifies under the key. */
  predicate GoodSignature(signature: Data, key: Pem, challenge: Data, crypto: Crypto) {
    && SIGNATURE_SIZE <= |signature| <= MAX_DATA_LEN - DEVICE_ID_SIZE - 1
    && crypto.parses(key)
    && crypto.verifies(key, challenge, signature[..SIGNATURE_SIZE])
  }

  /** What the database answers for each device: its key, and whether it is in service. */
  datatype Registry = Registry(keys: Data -> Option<Pem>, service: Data -> Option<bool>)

  predicate Registered(registry: Registry, device: Data) {
    registry.keys(device).Some? && registry.service(device) == Some(true)
  }

  /** The database answers of `env` are the registry's for this device. */
  predicate Answers(registry: Registry, device: Data, env: Env) {
    env.key == registry.keys(device) && env.inService == registry.service(device)
  }

  /** When the handshake succeeds: a fact about the inputs alone. */
  predicate Succeeds(id: Data, registry: Registry, sign: Data -> Data, first: Env, second: Env, crypto: Crypto) {
    && Registered(registry, KnownAs(id))
    && first.nonce.Some? && first.writeOk && Timely(first, second)
    && GoodSignature(sign(Issued(first)), registry.keys(KnownAs(id)).value, Issued(first), crypto)
  }

  // ---- the two turns of the server ----

  /** The session after an admitted parameter request. */
  function Asked(id: Data, env: Env): Session
    requires Admitted(env)
  {
    var d, c := KnownAs(id), Issued(env);
    Session(WaitAuth, d, c, env.key.value, d, false,
            [Read(ParamFrame(id)), KeyQuery(d, env.key), ServiceQuery(d, env.inService), Wrote(ChallengeFrame(c))])
  }

  /** One status frame that does not grant anything. */
  ghost predicate ErrorOnly(fs: seq<Frame>) {
    exists code: Byte :: code != STATUS_AUTHORIZED && fs == [Status(code)]
  }

  lemma ParamAnswered(id: Data, env: Env, crypto: Crypto)
    requires env.writeOk
    ensures var r := Turn(FRESH_SESSION, ParamFrame(id), env, crypto);
            if Admitted(env) then r == TurnResult(Asked(id, env), None, true)
            else !r.ok && !r.session.authenticated && ErrorOnly(Written(r.session.log, 0))
  {
    var d := KnownAs(id);
    var s0 := Add(FRESH_SESSION, Read(ParamFrame(id)));
    assert ParamFrame(id).data[..DEVICE_ID_SIZE] == Pad(id);
    var s1 := s0.(deviceId := d, ctxDevice := d);
    var r := Turn(FRESH_SESSION, ParamFrame(id), env, crypto);
    assert r == TurnResult(LookUp(s1, env).session, None, LookUp(s1, env).ok);
    var log := r.session.log;
    if env.key.None? {
      assert log == [Read(ParamFrame(id)), KeyQuery(d, env.key), Wrote(Status(STATUS_EXEC))];
      OneWrite(log, 2);
    } else if env.inService != Some(true) {
      assert log == [Read(ParamFrame(id)), KeyQuery(d, env.key), ServiceQuery(d, env.inService),
                     Wrote(Status(STATUS_EXEC))];
      OneWrite(log, 3);
    } else if env.nonce.None? {
      assert log == [Read(ParamFrame(id)), KeyQuery(d, env.key), ServiceQuery(d, env.inService),
                     Wrote(Status(STATUS_TIMEOUT))];
      OneWrite(log, 3);
    } else {
      assert log == Asked(id, env).log;
    }
  }

  lemma EncodeOne(f: Frame)
    ensures EncodeAll([f]) == Encode(f)
  {
    NoMore(Encode(f), EncodeAll([f][1..]));
  }

  lemma NoMore(x: Data, y: Data)
    requires y == []
    ensures x + y == x
  {}

  /** Status frames with these codes, one after the other. */
  function Statuses(codes: seq<Byte>): seq<Frame> {
    if codes == [] then [] else [Status(codes[0])] + Statuses(codes[1..])
  }

  lemma StatusesOf(x: Byte, y: Byte)
    ensures Statuses([x]) == [Status(x)]
    ensures Statuses([x, y]) == [Status(x), Status(y)]
  {
    assert [x][1..] == [] && [y][1..] == [] && [x, y][1..] == [y];
    assert Statuses([y]) == [Status(y)];
  }

  function StatusBytes(codes: seq<Byte>): Data {
    EncodeAll(Statuses(codes))
  }

  /** The answer that lets the client in. */
  predicate Grants(codes: seq<Byte>) {
    |codes| >= 2 && codes[1] == STATUS_AUTHORIZED
  }

  lemma RefusalFrames(s: Session, code: Byte, n: nat)
    requires n <= |s.log| && forall i :: n <= i < |s.log| ==> !s.log[i].Wrote?
    ensures Written(Refuse(s, code).session.log, n) == Statuses([code])
    ensures Written(RefuseTwice(s, code).session.log, n) == Statuses([STATUS_OK, code])
  {
    StatusesOf(code, code);
    StatusesOf(STATUS_OK, code);
    OneWrite(Refuse(s, code).session.log, |s.log|, n);
    SkipTo(RefuseTwice(s, code).session.log, n, |s.log|);
    TwoWrites(RefuseTwice(s, code).session.log, |s.log|);
  }

  /** The outcome of the signature check as frames. */
  lemma CheckAnswered(s: Session, signature: Data, env: Env, crypto: Crypto, n: nat)
    requires n <= |s.log| && forall i :: n <= i < |s.log| ==> !s.log[i].Wrote?
    ensures var o := CheckSignature(s, signature, env, crypto);
            && (o.ok <==> crypto.verifies(s.key, s.challenge, signature))
            && Written(o.session.log, n) == Statuses([STATUS_OK, if o.ok then STATUS_AUTHORIZED else STATUS_VALUE])
            && o.session.authenticated == (s.authenticated || o.ok)
  {
    var ok := crypto.verifies(s.key, s.challenge, signature);
    var s1 := Add(s, SigCheck(s.key, s.challenge, signature, env.now, ok));
    if ok {
      var log := CheckSignature(s, signature, env, crypto).session.log;
      SkipTo(log, n, |s1.log|);
      TwoWrites(log, |s1.log|);
      StatusesOf(STATUS_OK, STATUS_AUTHORIZED);
    } else {
      RefusalFrames(s1, STATUS_VALUE, n);
    }
  }

  /** The fields of the authorisation data. */
  lemma AuthFields(padded: Data, signature: Data)
    requires |padded| == DEVICE_ID_SIZE && |signature| >= SIGNATURE_SIZE
    ensures var data := padded + [AUTH_VERSION] + signature;
            && |data| >= AUTH_LEN
            && data[..DEVICE_ID_SIZE] == padded && data[DEVICE_ID_SIZE] == AUTH_VERSION
            && data[DEVICE_ID_SIZE + 1..AUTH_LEN] == signature[..SIGNATURE_SIZE]
  {
    var data := padded + [AUTH_VERSION] + signature;
    assert data[DEVICE_ID_SIZE + 1..] == signature;
    assert data[DEVICE_ID_SIZE + 1..AUTH_LEN] == data[DEVICE_ID_SIZE + 1..][..SIGNATURE_SIZE];
  }

  /** The second turn, for a frame the server could read. */
  lemma AuthAnswered(id: Data, signature: Data, first: Env, second: Env, crypto: Crypto) returns (codes: seq<Byte>)
    requires Admitted(first) && ValidFrame(AuthFrame(id, signature))
    ensures var r := Turn(Asked(id, first), AuthFrame(id, signature), second, crypto);
            && r.ok == r.session.authenticated == Grants(codes)
            && |Asked(id, first).log| <= |r.session.log|
            && Written(r.session.log, |Asked(id, first).log|) == Statuses(codes)
            && codes != [] && r.session.ctxDevice == KnownAs(id)
            && (Grants(codes) <==>
                  Timely(first, second) && GoodSignature(signature, first.key.value, Issued(first), crypto))
  {
    var fr, n := AuthFrame(id, signature), |Asked(id, first).log|;
    var s := Add(Asked(id, first), Read(fr));
    var r := Turn(Asked(id, first), fr, second, crypto);
    assert r == TurnResult(Authorize(s, fr, second, crypto).session, None, Authorize(s, fr, second, crypto).ok);
    ExpiryExactly(first.nonce.value, first.now, second.now);
    IssueTime(first.nonce.value, first.now);
    if |signature| < SIGNATURE_SIZE {
      RefusalFrames(s, STATUS_LENGTH, n);
      codes := [STATUS_LENGTH];
    } else {
      AuthFields(Pad(id), signature);
      if Expired(s.challenge, second.now) {
        RefusalFrames(s, STATUS_EXEC, n);
        codes := [STATUS_OK, STATUS_EXEC];
      } else if !crypto.parses(s.key) {
        RefusalFrames(s, STATUS_TIMEOUT, n);
        codes := [STATUS_OK, STATUS_TIMEOUT];
      } else {
        CheckAnswered(s, signature[..SIGNATURE_SIZE], second, crypto, n);
        codes := [STATUS_OK, if r.ok then STATUS_AUTHORIZED else STATUS_VALUE];
      }
    }
  }

  // ---- the client ----

  /** readFrame when the next bytes are known to be a frame. */
  method ReadKnown(reader: FrameReader, ghost f: Frame, ghost rest: Data) returns (got: Frame)
    requires reader.Valid() && ValidFrame(f) && reader.Rest() == Encode(f) + rest
    modifies reader`pos
    ensures reader.Valid() && got == f && reader.Rest() == rest
  {
    ghost var before := reader.Rest();
    var r := reader.ReadFrame();
    NextIs(before, f, rest, r, reader.Rest());
    got := r.frame;
  }

  /** Steps 1 and 2: ask, and take the challenge out of the answer. What the server cannot write does not arrive. */
  method AskForChallenge(id: Data, server: ServerConnection, toServer: FrameReader, toClient: FrameReader,
                         env: Env, crypto: Crypto) returns (challenge: Option<Data>)
    requires server.View() == FRESH_SESSION && server.auth == null
    requires toServer.Valid() && toServer.Rest() == [] && toClient.Valid() && toClient.Rest() == []
    requires toServer != toClient
    modifies server, server.ctx, toServer, toClient
    ensures toServer.Valid() && toServer.Rest() == [] && toClient.Valid() && (challenge.Some? ==> toClient.Rest() == [])
    ensures server.auth == null || fresh(server.auth)
    ensures Admitted(env) && env.writeOk ==> challenge == Some(Issued(env)) && server.View() == Asked(id, env)
    ensures !(Admitted(env) && env.writeOk) ==> challenge == None && !server.ctx.authenticated
  {
    toServer.Feed(Encode(ParamFrame(id)));
    assert toServer.Rest() == Encode(ParamFrame(id)) + [];
    var got := ReadKnown(toServer, ParamFrame(id), []);
    var out, ok := server.Dispatch(got, env, crypto);
    if !env.writeOk {
      HandleAdvances(Add(FRESH_SESSION, Read(got)), got, env, crypto);
      var nothing := ReadNothing(toClient);
      return None;
    }
    ghost var reply := FirstReply(id, env, crypto);
    toClient.Feed(WrittenBytes(server.ctx.log, 0));
    assert toClient.Rest() == Encode(reply) + [];
    var answer := ReadKnown(toClient, reply, []);
    if answer.addr != ADDR_CHALLENGE || answer.cmd != CMD_AUTH { return None; }
    if |answer.data| < 41 { return None; }
    challenge := Some(answer.data[1..]);
  }

  /** readFrame when nothing arrives. */
  method ReadNothing(reader: FrameReader) returns (r: ReadResult)
    requires reader.Valid() && reader.Rest() == []
    modifies reader`pos
    ensures reader.Valid() && r == ReadError
  {
    NoPreambleNoFrame([]);
    r := reader.ReadFrame();
  }

  /** The one frame with which the server answers the parameter request. */
  lemma FirstReply(id: Data, env: Env, crypto: Crypto) returns (reply: Frame)
    requires env.writeOk
    ensures ValidFrame(reply)
    ensures WrittenBytes(Turn(FRESH_SESSION, ParamFrame(id), env, crypto).session.log, 0) == Encode(reply)
    ensures Admitted(env) ==> reply == ChallengeFrame(Issued(env)) && reply.data[1..] == Issued(env)
    ensures Admitted(env) ==> Turn(FRESH_SESSION, ParamFrame(id), env, crypto).session == Asked(id, env)
    ensures var r := Turn(FRESH_SESSION, ParamFrame(id), env, crypto);
            !Admitted(env) ==> reply.addr == ADDR_STATUS && !r.session.authenticated
  {
    ParamAnswered(id, env, crypto);
    if Admitted(env) {
      reply := ChallengeFrame(Issued(env));
      OneWrite(Asked(id, env).log, 3);
    } else {
      var code: Byte :| code != STATUS_AUTHORIZED
                        && Written(Turn(FRESH_SESSION, ParamFrame(id), env, crypto).session.log, 0) == [Status(code)];
      reply := Status(code);
    }
    EncodeOne(reply);
  }

  /** Step 5: two statuses, the second of which must be 0x01. */
  method AwaitStatuses(toClient: FrameReader, ghost codes: seq<Byte>) returns (authorised: bool)
    requires toClient.Valid() && toClient.Rest() == StatusBytes(codes)
    modifies toClient
    ensures authorised <==> Grants(codes)
  {
    for i := 0 to 2
      invariant i <= |codes| && toClient.Valid() && toClient.Rest() == StatusBytes(codes[i..])
      invariant i == 2 ==> Grants(codes)
    {
      var code := ReadStatus(toClient, codes[i..]);
      if code.None? { return false; }
      assert codes[i..][1..] == codes[i + 1..];
      if i == 1 && code.value != STATUS_AUTHORIZED { return false; }
    }
    return true;
  }

  /** The body of that loop: the next status, if the server sent one. */
  method ReadStatus(toClient: FrameReader, ghost codes: seq<Byte>) returns (code: Option<Byte>)
    requires toClient.Valid() && toClient.Rest() == StatusBytes(codes)
    modifies toClient
    ensures toClient.Valid()
    ensures codes == [] ==> code == None
    ensures codes != [] ==> code == Some(codes[0]) && toClient.Rest() == StatusBytes(codes[1..])
  {
    ghost var before := toClient.Rest();
    var r := toClient.ReadFrame();
    if codes == [] {
      NoPreambleNoFrame(before);
    } else {
      assert Statuses(codes)[0] == Status(codes[0]) && Statuses(codes)[1..] == Statuses(codes[1..]);
      NextIs(before, Status(codes[0]), StatusBytes(codes[1..]), r, toClient.Rest());
    }
    if r.ReadError? { return None; }
    if r.frame.addr != ADDR_STATUS || r.frame.cmd != CMD_AUTH || |r.frame.data| < 1 { return None; }
    code := Some(r.frame.data[0]);
  }

  /** One side sends a frame and the other reads: a frame with too much data is an error for the reader. */
  method Transmit(reader: FrameReader, f: Frame) returns (got: ReadResult)
    requires reader.Valid() && reader.Rest() == [] && |f.data| < 0x1_0000
    modifies reader
    ensures reader.Valid()
    ensures if |f.data| > MAX_DATA_LEN then got.ReadError? else got.Got? && got.frame == f
  {
    reader.Feed(Encode(f));
    ghost var arrived := reader.Rest();
    NoMore(Encode(f), []);
    assert arrived == Encode(f) + [];
    got := reader.ReadFrame();
    if |f.data| > MAX_DATA_LEN {
      TooLongFails(f, []);
    } else {
      NextIs(arrived, f, [], got, reader.Rest());
    }
  }

  /** Steps 3 to 5: sign, send, and wait for the verdict, which arrives unless the server cannot write it. */
  method Authenticate(id: Data, signature: Data, server: ServerConnection, toServer: FrameReader, toClient: FrameReader,
                      ghost first: Env, second: Env, crypto: Crypto) returns (authorised: bool)
    requires Admitted(first) && server.View() == Asked(id, first) && server.auth != null
    requires toServer.Valid() && toServer.Rest() == [] && toClient.Valid() && toClient.Rest() == []
    requires toServer != toClient
    requires |signature| + DEVICE_ID_SIZE + 1 < 0x1_0000
    modifies server, server.ctx, server.auth, toServer, toClient
    ensures server.ctx.authenticated ==
            (Timely(first, second) && GoodSignature(signature, first.key.value, Issued(first), crypto))
    ensures authorised == (server.ctx.authenticated && second.writeOk)
    ensures server.ctx.deviceId == KnownAs(id)
  {
    var got := Transmit(toServer, AuthFrame(id, signature));
    if got.ReadError? { return false; }
    ghost var codes := AuthAnswered(id, signature, first, second, crypto);
    var n := |server.ctx.log|;
    var out, ok := server.Dispatch(got.frame, second, crypto);
    if !second.writeOk {
      var nothing := ReadNothing(toClient);
      return false;
    }
    toClient.Feed(WrittenBytes(server.ctx.log, n));
    assert toClient.Rest() == StatusBytes(codes);
    authorised := AwaitStatuses(toClient, codes);
  }

  /** The whole handshake. The server ends authorised exactly when the inputs allow it: the device it knows by the id
      sent is registered and in service, at most TTL has passed since the millisecond of issue, and the signature is
      long enough, fits a frame and verifies under the registered key. The client ends authorised exactly when the
      server does and can say so. */
  method Perform(id: Data, registry: Registry, sign: Data -> Data, first: Env, second: Env, crypto: Crypto)
    returns (client: bool, server: bool, device: Data)
    requires Answers(registry, KnownAs(id), first)
    requires first.nonce.Some? ==> |sign(Issued(first))| + DEVICE_ID_SIZE + 1 < 0x1_0000
    ensures server == Succeeds(id, registry, sign, first, second, crypto)
    ensures client == (server && second.writeOk)
    ensures server ==> device == KnownAs(id)
  {
    var conn := new ServerConnection();
    var toServer := new FrameReader([]);
    var toClient := new FrameReader([]);
    var challenge := AskForChallenge(id, conn, toServer, toClient, first, crypto);
    if challenge.None? { return false, conn.ctx.authenticated, conn.ctx.deviceId; }
    client := Authenticate(id, sign(challenge.value), conn, toServer, toClient, first, second, crypto);
    server, device := conn.ctx.authenticated, conn.ctx.deviceId;
  }

  /** In particular: a device whose id has at most 14 bytes and does not end in NUL or space, registered under that id
      and in service, is authorised as itself with a correct 256-byte signature up to TTL minus one millisecond. */
  lemma InTimeSucceeds(id: Data, registry: Registry, sign: Data -> Data, first: Env, second: Env, crypto: Crypto)
    requires |id| <= DEVICE_ID_SIZE && (id == [] || !Blank(id[|id| - 1])) && Registered(registry, id)
    requires first.nonce.Some? && first.writeOk && crypto.parses(registry.keys(id).value)
    requires |sign(Issued(first))| == SIGNATURE_SIZE
    requires crypto.verifies(registry.keys(id).value, Issued(first), sign(Issued(first)))
    requires second.now - first.now <= TTL - MILLISECOND
    ensures KnownAs(id) == id && Succeeds(id, registry, sign, first, second, crypto)
  {
    TrimPad(id);
    var signature := sign(Issued(first));
    assert signature[..SIGNATURE_SIZE] == signature;
  }

  /** After more than TTL no attempt succeeds, whatever the id, the registry and the signature. */
  lemma LateFails(id: Data, registry: Registry, sign: Data -> Data, first: Env, second: Env, crypto: Crypto)
    requires second.now - first.now > TTL
    ensures !Succeeds(id, registry, sign, first, second, crypto)
  {}
}
