/** The 0x65 command handler (internal/cmd/cmd0x65): the authorisation state machine and the heartbeat.
    Everything a connection does that an observer can see is recorded in its log; answers of the database,
    the random source, the clocks and the socket are inputs. */
module Auth {
  import opened Bytes
  import opened Instants
  import opened Frames
  import opened Challenges
  import Ntp

  const ADDR_AUTH: Byte := 0x60
  const ADDR_PARAM_REQUEST: Byte := 0x61
  const ADDR_STATUS: Byte := 0x63
  const ADDR_CHALLENGE: Byte := 0x64
  const ADDR_TIME_REQUEST: Byte := 0x66
  const ADDR_TIME_RESPONSE: Byte := 0x67
  const ADDR_BROADCAST: Byte := 0x70
  const ADDR_REGULAR: Byte := 0x76

  const CMD_AUTH: Byte := 0x65
  const CMD_REGULAR: Byte := 0x59

  const STATUS_OK: Byte := 0x00
  const STATUS_AUTHORIZED: Byte := 0x01
  const STATUS_SPEC: Byte := 0x03
  const STATUS_LENGTH: Byte := 0x05
  const STATUS_VALUE: Byte := 0x06
  const STATUS_TIMEOUT: Byte := 0x08
  const STATUS_EXEC: Byte := 0x0A

  const AUTH_VERSION: Byte := 0x01
  const SIGNATURE_SIZE := 256
  const AUTH_LEN := DEVICE_ID_SIZE + 1 + SIGNATURE_SIZE
  const TIME_LEN := 8

  datatype Step = WaitParam | WaitAuth | Done

  /** What a connection did, in order. */
  datatype Entry =
    | Read(frame: Frame)                                      // a frame came out of ReadFrame
    | KeyQuery(device: Data, found: Option<Pem>)              // GetPublicKey
    | ServiceQuery(device: Data, inService: Option<bool>)     // IsInService
    | SigCheck(key: Pem, challenge: Data, signature: Data, at: Instant, ok: bool)
    | Wrote(frame: Frame)                                     // conn.Write by the read loop
    | Relayed(frame: Frame)                                   // conn.Write by the subscriber goroutine
    | Published(frame: Frame, message: Data)                  // hub.Broadcast for the frame read
    | Lost(frame: Frame)                                      // the same when the hub is stopping

  /** Handler fields, the shared context and the log of one connection. */
  datatype Session = Session(
    step: Step,
    deviceId: Data,
    challenge: Data,
    key: Pem,
    ctxDevice: Data,
    authenticated: bool,
    log: seq<Entry>)

  const FRESH_SESSION := Session(WaitParam, [], [], [], [], false, [])

  /** What the world answers while one frame is handled. */
  datatype Env = Env(
    key: Option<Pem>,
    inService: Option<bool>,
    nonce: Option<Nonce>,
    now: Instant,
    received: Instant,
    clockAtReceived: Option<Ntp.Estimate>,
    clockAtNow: Option<Ntp.Estimate>,
    writeOk: bool)

  function Status(code: Byte): Frame {
    Frame(ADDR_STATUS, CMD_AUTH, [code])
  }

  function ChallengeFrame(challenge: Data): Frame {
    Frame(ADDR_CHALLENGE, CMD_AUTH, [STATUS_OK] + challenge)
  }

  function TimeData(serverMs: int, receivedMs: int): (s: Data)
    ensures |s| == 16
  {
    Uint64Bytes(serverMs) + Uint64Bytes(receivedMs)
  }

  function TimeResponse(env: Env): Frame {
    Frame(ADDR_TIME_RESPONSE, CMD_AUTH,
          TimeData(Millis(Ntp.Correct(env.clockAtNow, env.now)),
                   Millis(Ntp.Correct(env.clockAtReceived, env.received))))
  }

  // ---- what each step of the handler does ----

  /** The session after a handler returned, and whether it returned without error. */
  datatype Outcome = Outcome(session: Session, ok: bool)

  function Add(s: Session, e: Entry): Session {
    s.(log := s.log + [e])
  }

  function Refuse(s: Session, code: Byte): Outcome {
    Outcome(Add(s, Wrote(Status(code))), false)
  }

  function RefuseTwice(s: Session, code: Byte): Outcome {
    Refuse(Add(s, Wrote(Status(STATUS_OK))), code)
  }

  function ParamRequest(s: Session, fr: Frame, env: Env): Outcome {
    if fr.addr != ADDR_PARAM_REQUEST then Refuse(s, STATUS_SPEC)
    else if |fr.data| < DEVICE_ID_SIZE then Refuse(s, STATUS_LENGTH)
    else
      var id := Trim(fr.data[..DEVICE_ID_SIZE]);
      LookUp(s.(deviceId := id, ctxDevice := id), env)
  }

  function LookUp(s: Session, env: Env): Outcome {
    var s1 := Add(s, KeyQuery(s.deviceId, env.key));
    if env.key.None? then Refuse(s1, STATUS_EXEC)
    else CheckService(s1, env.key.value, env)
  }

  function CheckService(s: Session, key: Pem, env: Env): Outcome {
    var s1 := Add(s, ServiceQuery(s.deviceId, env.inService));
    if env.inService != Some(true) then Refuse(s1, STATUS_EXEC)
    else IssueChallenge(s1.(key := key), env)
  }

  function IssueChallenge(s: Session, env: Env): Outcome {
    if env.nonce.None? then Refuse(s, STATUS_TIMEOUT)
    else
      var c := Challenge(env.nonce.value, env.now);
      var s1 := Add(s.(challenge := c), Wrote(ChallengeFrame(c)));
      if env.writeOk then Outcome(s1.(step := WaitAuth), true) else Outcome(s1, false)
  }

  function Authorize(s: Session, fr: Frame, env: Env, crypto: Crypto): Outcome {
    if fr.addr != ADDR_AUTH then Refuse(s, STATUS_SPEC)
    else if |fr.data| < AUTH_LEN then Refuse(s, STATUS_LENGTH)
    else
      var id := Trim(fr.data[..DEVICE_ID_SIZE]);
      var signature := fr.data[DEVICE_ID_SIZE + 1..AUTH_LEN];
      if fr.data[DEVICE_ID_SIZE] != AUTH_VERSION then RefuseTwice(s, STATUS_VALUE)
      else if id != s.deviceId then RefuseTwice(s, STATUS_VALUE)
      else if ExtractTimestamp(s.challenge).None? then RefuseTwice(s, STATUS_TIMEOUT)
      else if Expired(s.challenge, env.now) then RefuseTwice(s, STATUS_EXEC)
      else if !crypto.parses(s.key) then RefuseTwice(s, STATUS_TIMEOUT)
      else CheckSignature(s, signature, env, crypto)
  }

  function CheckSignature(s: Session, signature: Data, env: Env, crypto: Crypto): Outcome {
    var ok := crypto.verifies(s.key, s.challenge, signature);
    var s1 := Add(s, SigCheck(s.key, s.challenge, signature, env.now, ok));
    if !ok then RefuseTwice(s1, STATUS_VALUE)
    else
      var s2 := Add(Add(s1, Wrote(Status(STATUS_OK))), Wrote(Status(STATUS_AUTHORIZED)));
      Outcome(s2.(authenticated := true, step := Done), true)
  }

  function Heartbeat(s: Session, fr: Frame, env: Env): Outcome {
    if fr.addr != ADDR_TIME_REQUEST then Refuse(s, STATUS_SPEC)
    else if |fr.data| != TIME_LEN then Refuse(s, STATUS_LENGTH)
    else Outcome(Add(s, Wrote(TimeResponse(env))), env.writeOk)
  }

  function Handle(s: Session, fr: Frame, env: Env, crypto: Crypto): Outcome {
    match s.step
    case WaitParam => ParamRequest(s, fr, env)
    case WaitAuth => Authorize(s, fr, env, crypto)
    case Done => Heartbeat(s, fr, env)
  }

  function Rank(step: Step): nat {
    match step
    case WaitParam => 0
    case WaitAuth => 1
    case Done => 2
  }

  /** Before Done, every 0x65 frame either moves the step on by one or fails; Done is final. The device id is
      fixed by the first step and `authenticated` is set by the second, never reset. */
  lemma HandleAdvances(s: Session, fr: Frame, env: Env, crypto: Crypto)
    ensures var o := Handle(s, fr, env, crypto);
            && Rank(o.session.step) == (if o.ok && s.step != Done then Rank(s.step) + 1 else Rank(s.step))
            && (o.session.authenticated <==> s.authenticated || (s.step == WaitAuth && o.ok))
            && (s.step != WaitParam ==> o.session.ctxDevice == s.ctxDevice)
  {
    match s.step
    case WaitParam => ParamAdvances(s, fr, env);
    case WaitAuth => AuthorizeAdvances(s, fr, env, crypto);
    case Done =>
  }

  lemma ParamAdvances(s: Session, fr: Frame, env: Env)
    ensures var o := ParamRequest(s, fr, env);
            && o.session.step == (if o.ok then WaitAuth else s.step)
            && o.session.authenticated == s.authenticated
  {}

  lemma AuthorizeAdvances(s: Session, fr: Frame, env: Env, crypto: Crypto)
    ensures var o := Authorize(s, fr, env, crypto);
            && o.session.step == (if o.ok then Done else s.step)
            && o.session.authenticated == (s.authenticated || o.ok)
            && o.session.ctxDevice == s.ctxDevice
  {}

  /** A reply computed under one clock state with a slope of at least -1 never has the server time before the
      receive time, and both fields decode to the milliseconds they were made from. */
  lemma TimeResponseOrdered(env: Env)
    requires env.clockAtNow == env.clockAtReceived && env.received <= env.now
    requires env.clockAtNow.Some? ==> env.clockAtNow.value.slope >= -1.0
    requires -0x8000_0000_0000_0000 <= Millis(Ntp.Correct(env.clockAtReceived, env.received))
    requires Millis(Ntp.Correct(env.clockAtNow, env.now)) < 0x8000_0000_0000_0000
    ensures var d := TimeResponse(env).data;
            var server, received := Signed64(FromLE(d[..8])), Signed64(FromLE(d[8..]));
            && server == Millis(Ntp.Correct(env.clockAtNow, env.now))
            && received == Millis(Ntp.Correct(env.clockAtReceived, env.received))
            && received <= server
  {
    Ntp.CorrectMonotone(env.clockAtNow, env.received, env.now);
    var server := Millis(Ntp.Correct(env.clockAtNow, env.now));
    var received := Millis(Ntp.Correct(env.clockAtReceived, env.received));
    MillisMonotone(Ntp.Correct(env.clockAtReceived, env.received), Ntp.Correct(env.clockAtNow, env.now));
    TimestampBytes(server);
    TimestampBytes(received);
    var d := TimeResponse(env).data;
    assert d[..8] == Uint64Bytes(server) && d[8..] == Uint64Bytes(received);
  }

  // ---- the handler object ----

  /** The per-connection context handed to every handler, with the log of what went over the connection. */
  class CmdContext {
    var deviceId: Data
    var authenticated: bool
    var log: seq<Entry>

    constructor ()
      ensures deviceId == [] && !authenticated && log == []
    {
      deviceId, authenticated, log := [], false, [];
    }

    method Write(f: Frame)
      requires ValidFrame(f)
      modifies this`log
      ensures log == old(log) + [Wrote(f)]
    {
      log := log + [Wrote(f)];
    }

    method Note(e: Entry)
      modifies this`log
      ensures log == old(log) + [e]
    {
      log := log + [e];
    }
  }

  class AuthHandler {
    var step: Step
    var deviceId: Data
    var challenge: Data
    var pubKey: Pem

    ghost function View(ctx: CmdContext): Session
      reads this, ctx
    {
      Session(step, deviceId, challenge, pubKey, ctx.deviceId, ctx.authenticated, ctx.log)
    }

    constructor ()
      ensures step == WaitParam && deviceId == [] && challenge == [] && pubKey == []
    {
      step, deviceId, challenge, pubKey := WaitParam, [], [], [];
    }

    method SendStatus(ctx: CmdContext, code: Byte)
      modifies ctx`log
      ensures ctx.log == old(ctx.log) + [Wrote(Status(code))]
    {
      ctx.Write(Status(code));
    }

    method SendTwoStatuses(ctx: CmdContext, code: Byte)
      modifies ctx`log
      ensures ctx.log == old(ctx.log) + [Wrote(Status(STATUS_OK))] + [Wrote(Status(code))]
    {
      SendStatus(ctx, STATUS_OK);
      SendStatus(ctx, code);
    }

    method HandleParamRequest(fr: Frame, ctx: CmdContext, env: Env) returns (ok: bool)
      modifies this, ctx
      ensures Outcome(View(ctx), ok) == ParamRequest(old(View(ctx)), fr, env)
    {
      if fr.addr != ADDR_PARAM_REQUEST {
        SendStatus(ctx, STATUS_SPEC);
        return false;
      }
      if |fr.data| < DEVICE_ID_SIZE {
        SendStatus(ctx, STATUS_LENGTH);
        return false;
      }
      deviceId := TrimDeviceID(fr.data[..DEVICE_ID_SIZE]);
      ctx.deviceId := deviceId;
      ctx.Note(KeyQuery(deviceId, env.key));
      if env.key.None? {
        SendStatus(ctx, STATUS_EXEC);
        return false;
      }
      ctx.Note(ServiceQuery(deviceId, env.inService));
      if env.inService != Some(true) {
        SendStatus(ctx, STATUS_EXEC);
        return false;
      }
      pubKey := env.key.value;
      ok := SendChallenge(ctx, env);
    }

    /** The last gate of the parameter request. */
    method SendChallenge(ctx: CmdContext, env: Env) returns (ok: bool)
      modifies this, ctx
      ensures Outcome(View(ctx), ok) == IssueChallenge(old(View(ctx)), env)
    {
      var c := GenerateChallenge(env.nonce, env.now);
      if c.None? {
        SendStatus(ctx, STATUS_TIMEOUT);
        return false;
      }
      challenge := c.value;
      ctx.Write(ChallengeFrame(challenge));
      if !env.writeOk { return false; }
      step := WaitAuth;
      return true;
    }

    method HandleAuth(fr: Frame, ctx: CmdContext, env: Env, crypto: Crypto) returns (ok: bool)
      modifies this, ctx
      ensures Outcome(View(ctx), ok) == Authorize(old(View(ctx)), fr, env, crypto)
    {
      if fr.addr != ADDR_AUTH {
        SendStatus(ctx, STATUS_SPEC);
        return false;
      }
      if |fr.data| < AUTH_LEN {
        SendStatus(ctx, STATUS_LENGTH);
        return false;
      }
      var respId := TrimDeviceID(fr.data[..DEVICE_ID_SIZE]);
      var version := fr.data[DEVICE_ID_SIZE];
      var signature := fr.data[DEVICE_ID_SIZE + 1..DEVICE_ID_SIZE + 1 + SIGNATURE_SIZE];
      if version != AUTH_VERSION {
        SendTwoStatuses(ctx, STATUS_VALUE);
        return false;
      }
      if respId != deviceId {
        SendTwoStatuses(ctx, STATUS_VALUE);
        return false;
      }
      if ExtractTimestamp(challenge).None? {
        SendTwoStatuses(ctx, STATUS_TIMEOUT);
        return false;
      }
      if Expired(challenge, env.now) {
        SendTwoStatuses(ctx, STATUS_EXEC);
        return false;
      }
      if !crypto.parses(pubKey) {
        SendTwoStatuses(ctx, STATUS_TIMEOUT);
        return false;
      }
      var verified := crypto.verifies(pubKey, challenge, signature);
      ctx.Note(SigCheck(pubKey, challenge, signature, env.now, verified));
      if !verified {
        SendTwoStatuses(ctx, STATUS_VALUE);
        return false;
      }
      SendTwoStatuses(ctx, STATUS_AUTHORIZED);
      ctx.authenticated := true;
      step := Done;
      return true;
    }

    method HandleHeartbeat(fr: Frame, ctx: CmdContext, env: Env) returns (ok: bool)
      modifies this, ctx
      ensures Outcome(View(ctx), ok) == Heartbeat(old(View(ctx)), fr, env)
    {
      if fr.addr != ADDR_TIME_REQUEST {
        SendStatus(ctx, STATUS_SPEC);
        return false;
      }
      if |fr.data| != TIME_LEN {
        SendStatus(ctx, STATUS_LENGTH);
        return false;
      }
      var receivedAt := Ntp.Correct(env.clockAtReceived, env.received);
      var serverNow := Ntp.Correct(env.clockAtNow, env.now);
      var data := BuildTimeResponse(Millis(serverNow), Millis(receivedAt));
      ctx.Write(Frame(ADDR_TIME_RESPONSE, CMD_AUTH, data));
      return env.writeOk;
    }

    /** One frame of command 0x65. */
    method HandleFrame(fr: Frame, ctx: CmdContext, env: Env, crypto: Crypto) returns (ok: bool)
      modifies this, ctx
      ensures Outcome(View(ctx), ok) == Handle(old(View(ctx)), fr, env, crypto)
    {
      match step
      case WaitParam => ok := HandleParamRequest(fr, ctx, env);
      case WaitAuth => ok := HandleAuth(fr, ctx, env, crypto);
      case Done => ok := HandleHeartbeat(fr, ctx, env);
    }
  }

  /** buildTimeResponse. */
  method BuildTimeResponse(serverMs: int, receivedMs: int) returns (r: Data)
    ensures r == TimeData(serverMs, receivedMs)
  {
    var data := new Byte[16](_ => 0);
    var server, received := Uint64Bytes(serverMs), Uint64Bytes(receivedMs);
    Copy(data, 0, server);
    assert data[..8] == server;
    Copy(data, 8, received);
    r := data[..];
    assert r == server + received;
  }
}
