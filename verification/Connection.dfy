/** One turn of the read loop of handleConnection (internal/tcp/crypto_server.go) with the middleware gate
    (internal/tcp/middleware.go) and the 0x59 handler (internal/cmd/cmd0x59/handler.go). */
module Connection {
  import opened Bytes
  import opened Frames
  import opened Challenges
  import opened Auth
  import opened Transcript

  /** What dispatching one frame did; `out` is a regular frame to be published. */
  datatype TurnResult = TurnResult(session: Session, out: Option<Frame>, ok: bool)

  /** Frame → registered handler? → gate → handler. */
  function Turn(s: Session, fr: Frame, env: Env, crypto: Crypto): TurnResult {
    var s0 := Add(s, Read(fr));
    if fr.cmd != CMD_AUTH && fr.cmd != CMD_REGULAR then TurnResult(s0, None, true)
    else if !s.authenticated && fr.cmd != CMD_AUTH then TurnResult(s0, None, true)
    else if fr.cmd == CMD_AUTH then
      var o := Handle(s0, fr, env, crypto);
      TurnResult(o.session, None, o.ok)
    else TurnResult(s0, if fr.addr == ADDR_REGULAR then Some(fr) else None, true)
  }

  /** What a turn passes on: exactly the device data frames of authorised connections. Frames of other commands than
      0x65 are otherwise ignored, and none of them fails. */
  lemma TurnPassesOn(s: Session, fr: Frame, env: Env, crypto: Crypto)
    ensures var r := Turn(s, fr, env, crypto);
            && r.out == (if s.authenticated && fr.cmd == 0x59 && fr.addr == 0x76 then Some(fr) else None)
            && (fr.cmd != 0x65 ==> r.ok && r.session == Add(s, Read(fr)))
            && (fr.cmd == 0x65 ==> Outcome(r.session, r.ok) == Handle(Add(s, Read(fr)), fr, env, crypto))
  {}

  /** A turn keeps the log in the grammar; it stays linked unless the handshake failed, and a frame is only
      passed on by an authorised connection whose last read it was. */
  lemma TurnFollows(s: Session, fr: Frame, env: Env, crypto: Crypto)
    requires Linked(s, crypto)
    ensures var r := Turn(s, fr, env, crypto);
            && PhaseOf(r.session.log, crypto) != Broken
            && (r.ok || r.session.authenticated ==> Linked(r.session, crypto))
            && (r.out.Some? ==> r.ok && s.step == Done && r.out == Some(fr) && Regular(fr)
                                && PhaseOf(r.session.log, crypto).Authorised?
                                && PhaseOf(r.session.log, crypto).pending == Some(fr))
            && (s.step == Done ==> r.session.step == Done && r.session.authenticated)
  {
    ReadFollows(s, fr, crypto);
    HandleFollows(Add(s, Read(fr)), fr, env, crypto);
  }

  // ---- what a turn leaves alone ----

  predicate Quiet(e: Entry) {
    !e.Published? && !e.Relayed? && !e.Lost? && !e.Read?
  }

  /** `b` is `a` with queries, checks and writes appended. */
  ghost predicate Grew(a: seq<Entry>, b: seq<Entry>) {
    a <= b && forall i :: |a| <= i < |b| ==> Quiet(b[i])
  }

  lemma AddGrew(s: Session, e: Entry)
    requires Quiet(e)
    ensures Grew(s.log, Add(s, e).log)
  {}

  lemma RefusalsGrew(s: Session, code: Byte)
    ensures Grew(s.log, Refuse(s, code).session.log)
    ensures Grew(s.log, RefuseTwice(s, code).session.log)
  {}

  lemma ChallengeGrew(s: Session, env: Env)
    ensures Grew(s.log, IssueChallenge(s, env).session.log)
  {
    RefusalsGrew(s, STATUS_TIMEOUT);
  }

  lemma ServiceGrew(s: Session, key: Pem, env: Env)
    ensures Grew(s.log, CheckService(s, key, env).session.log)
  {
    var s1 := Add(s, ServiceQuery(s.deviceId, env.inService));
    RefusalsGrew(s1, STATUS_EXEC);
    ChallengeGrew(s1.(key := key), env);
  }

  lemma ParamGrew(s: Session, fr: Frame, env: Env)
    ensures Grew(s.log, ParamRequest(s, fr, env).session.log)
  {
    RefusalsGrew(s, STATUS_SPEC);
    RefusalsGrew(s, STATUS_LENGTH);
    if |fr.data| >= DEVICE_ID_SIZE {
      var id := Trim(fr.data[..DEVICE_ID_SIZE]);
      var s1 := Add(s.(deviceId := id, ctxDevice := id), KeyQuery(id, env.key));
      RefusalsGrew(s1, STATUS_EXEC);
      if env.key.Some? { ServiceGrew(s1, env.key.value, env); }
    }
  }

  lemma CheckGrew(s: Session, signature: Data, env: Env, crypto: Crypto)
    ensures Grew(s.log, CheckSignature(s, signature, env, crypto).session.log)
  {
    var e := SigCheck(s.key, s.challenge, signature, env.now, crypto.verifies(s.key, s.challenge, signature));
    RefusalsGrew(Add(s, e), STATUS_VALUE);
  }

  lemma AuthorizeGrew(s: Session, fr: Frame, env: Env, crypto: Crypto)
    ensures Grew(s.log, Authorize(s, fr, env, crypto).session.log)
  {
    RefusalsGrew(s, STATUS_SPEC);
    RefusalsGrew(s, STATUS_LENGTH);
    RefusalsGrew(s, STATUS_VALUE);
    RefusalsGrew(s, STATUS_TIMEOUT);
    RefusalsGrew(s, STATUS_EXEC);
    if |fr.data| >= AUTH_LEN { CheckGrew(s, fr.data[DEVICE_ID_SIZE + 1..AUTH_LEN], env, crypto); }
  }

  lemma HeartbeatGrew(s: Session, fr: Frame, env: Env)
    ensures Grew(s.log, Heartbeat(s, fr, env).session.log)
  {
    RefusalsGrew(s, STATUS_SPEC);
    RefusalsGrew(s, STATUS_LENGTH);
    AddGrew(s, Wrote(TimeResponse(env)));
  }

  lemma HandleGrew(s: Session, fr: Frame, env: Env, crypto: Crypto)
    ensures Grew(s.log, Handle(s, fr, env, crypto).session.log)
  {
    match s.step
    case WaitParam => ParamGrew(s, fr, env);
    case WaitAuth => AuthorizeGrew(s, fr, env, crypto);
    case Done => HeartbeatGrew(s, fr, env);
  }

  lemma TurnGrew(s: Session, fr: Frame, env: Env, crypto: Crypto)
    ensures Grew(Add(s, Read(fr)).log, Turn(s, fr, env, crypto).session.log)
  {
    HandleGrew(Add(s, Read(fr)), fr, env, crypto);
  }

  // ---- frames on their way through the hub ----

  /** How the subscriber goroutine turns a hub message back into a frame. */
  function Rebuild(data: Data): Frame {
    if |data| >= 2 then Frame(data[0], data[1], data[2..]) else Frame(ADDR_STATUS, CMD_AUTH, data)
  }

  lemma RebuildWire(f: Frame)
    ensures Rebuild(Wire(f)) == f
  {
    assert Wire(f)[2..] == f.data;
  }

  /** The bytes another device receives for a regular frame are the bytes the server read, except that the
      address is 0x70 and the checksum is the old one with bits 0x06 flipped. */
  lemma RelayBytes(f: Frame)
    requires Regular(f) && ValidFrame(f)
    ensures ValidFrame(Rebuild(Wire(Relay(f))))
    ensures var was := Encode(f);
            Encode(Rebuild(Wire(Relay(f)))) == was[1 := ADDR_BROADCAST][|was| - 1 := Xor(was[|was| - 1], 0x06)]
  {
    RebuildWire(Relay(f));
    Readdress(f, ADDR_BROADCAST);
    assert Xor(ADDR_REGULAR, ADDR_BROADCAST) == 0x06 by {
      assert XorNat(0x76, 0x70) == 2 * XorNat(0x3B, 0x38);
      assert XorNat(0x3B, 0x38) == 1 + 2 * XorNat(0x1D, 0x1C);
      assert XorNat(0x1D, 0x1C) == 1 + 2 * XorNat(0x0E, 0x0E);
      XorNatSelf(0x0E);
    }
  }

  /** Message.WireBytes. */
  method WireBytes(addr: Byte, cmd: Byte, payload: Data) returns (r: Data)
    ensures r == Wire(Frame(addr, cmd, payload))
  {
    var buf := new Byte[2 + |payload|](_ => 0);
    buf[0] := addr;
    buf[1] := cmd;
    Copy(buf, 2, payload);
    r := buf[..];
  }

  // ---- the connection object ----

  class ServerConnection {
    const ctx: CmdContext
    var auth: AuthHandler?  // created when the first 0x65 frame arrives

    ghost function View(): Session
      reads this, ctx, auth
    {
      if auth == null then FRESH_SESSION.(ctxDevice := ctx.deviceId, authenticated := ctx.authenticated, log := ctx.log)
      else auth.View(ctx)
    }

    constructor ()
      ensures View() == FRESH_SESSION && auth == null && fresh(ctx)
    {
      ctx := new CmdContext();
      auth := null;
    }

    /** Look the handler up, pass the gate, and handle. */
    method Dispatch(fr: Frame, env: Env, crypto: Crypto) returns (out: Option<Frame>, ok: bool)
      modifies this, ctx, auth
      ensures TurnResult(View(), out, ok) == Turn(old(View()), fr, env, crypto)
      ensures out == if old(ctx.authenticated) && fr.cmd == 0x59 && fr.addr == 0x76 then Some(fr) else None
      ensures fr.cmd != 0x65 ==> ok && View() == Add(old(View()), Read(fr))
      ensures auth == old(auth) || (old(auth) == null && fresh(auth))
    {
      ctx.Note(Read(fr));
      if fr.cmd != CMD_AUTH && fr.cmd != CMD_REGULAR { return None, true; }
      if fr.cmd == CMD_AUTH && auth == null { auth := new AuthHandler(); }
      if !ctx.authenticated && fr.cmd != CMD_AUTH { return None, true; }
      if fr.cmd == CMD_AUTH {
        ok := auth.HandleFrame(fr, ctx, env, crypto);
        return None, ok;
      }
      out := if fr.addr == ADDR_REGULAR then Some(fr) else None;
      ok := true;
    }
  }
}
