/** What the 0x65 handler (internal/cmd/cmd0x65) answers to each frame, byte for byte: when a device is challenged,
    authorised or told the time, and which status frames it gets otherwise. */
module Replies {
  import opened Bytes
  import opened Instants
  import opened Frames
  import opened Challenges
  import opened Auth
  import Ntp

  /** The frames the read loop wrote from position `n` of the log on. */
  function Written(log: seq<Entry>, n: nat): seq<Frame>
    requires n <= |log|
    decreases |log| - n
  {
    if n == |log| then []
    else if log[n].Wrote? then [log[n].frame] + Written(log, n + 1)
    else Written(log, n + 1)
  }

  lemma {:induction false} SkipTo(log: seq<Entry>, n: nat, m: nat)
    requires n <= m <= |log| && forall i :: n <= i < m ==> !log[i].Wrote?
    ensures Written(log, n) == Written(log, m)
    decreases m - n
  {
    if n < m { SkipTo(log, n + 1, m); }
  }

  /** A log whose only write is its last entry. */
  lemma OneWrite(log: seq<Entry>, last: nat, from: nat := 0)
    requires from <= last == |log| - 1 && log[last].Wrote?
    requires forall i :: from <= i < last ==> !log[i].Wrote?
    ensures Written(log, from) == [log[last].frame]
  {
    SkipTo(log, from, last);
    assert Written(log, last + 1) == [];
  }

  lemma TwoWrites(log: seq<Entry>, n: nat)
    requires |log| == n + 2 && log[n].Wrote? && log[n + 1].Wrote?
    ensures Written(log, n) == [log[n].frame, log[n + 1].frame]
  {
    OneWrite(log, n + 1, n + 1);
  }

  function StatusFrame(code: Byte): Frame {
    Frame(0x63, 0x65, [code])
  }

  /** The frames an outcome added to the log of the session before. */
  function Answer(before: Session, o: Outcome): seq<Frame>
    requires |before.log| <= |o.session.log|
  {
    Written(o.session.log, |before.log|)
  }

  lemma OneStatus(s: Session, code: Byte, n: nat)
    requires n <= |s.log| && forall i :: n <= i < |s.log| ==> !s.log[i].Wrote?
    ensures Written(Refuse(s, code).session.log, n) == [StatusFrame(code)]
  {
    OneWrite(Refuse(s, code).session.log, |s.log|, n);
  }

  lemma TwoStatuses(s: Session, code: Byte, n: nat)
    requires n <= |s.log| && forall i :: n <= i < |s.log| ==> !s.log[i].Wrote?
    ensures Written(RefuseTwice(s, code).session.log, n) == [StatusFrame(0x00), StatusFrame(code)]
  {
    SkipTo(RefuseTwice(s, code).session.log, n, |s.log|);
    TwoWrites(RefuseTwice(s, code).session.log, |s.log|);
  }

  // ---- the parameter request ----

  /** The 0x61 frame is answered with a challenge. */
  predicate Admissible(fr: Frame, env: Env) {
    fr.addr == 0x61 && |fr.data| >= 14 && env.key.Some? && env.inService == Some(true) && env.nonce.Some?
  }

  /** The one status that tells why not. */
  function WhyNotAdmitted(fr: Frame, env: Env): Byte {
    if fr.addr != 0x61 then 0x03
    else if |fr.data| < 14 then 0x05
    else if env.key.None? || env.inService != Some(true) then 0x0A
    else 0x08
  }

  lemma ChallengeBytes(nonce: Nonce, now: Instant)
    ensures var c := Challenge(nonce, now);
            && |c| == 40 && c[..32] == nonce && FromLE(c[32..]) == Millis(now) % 0x1_0000_0000_0000_0000
  {
    Pow256Values();
    FromToLE(Unsigned64(Millis(now)), 8);
    assert Challenge(nonce, now)[32..] == Uint64Bytes(Millis(now));
  }

  lemma IssueReply(s: Session, env: Env, n: nat)
    requires n <= |s.log| && forall i :: n <= i < |s.log| ==> !s.log[i].Wrote?
    ensures var o := IssueChallenge(s, env);
            && n <= |o.session.log|
            && (o.ok <==> env.nonce.Some? && env.writeOk)
            && o.session.step == (if o.ok then WaitAuth else s.step)
            && if env.nonce.None? then Written(o.session.log, n) == [StatusFrame(0x08)]
               else
                 && Written(o.session.log, n) == [Frame(0x64, 0x65, [0x00] + o.session.challenge)]
                 && o.session.challenge == Challenge(env.nonce.value, env.now)
  {
    if env.nonce.None? {
      OneStatus(s, STATUS_TIMEOUT, n);
    } else {
      OneWrite(IssueChallenge(s, env).session.log, |s.log|, n);
    }
  }

  /** What a 0x65 frame does to a fresh connection: it is challenged exactly when the frame is a 0x61 with an id, the
      database has a key for that id and says that it is in service, and the random source works. Otherwise one status
      tells the first of these that failed. The id asked about is the first 14 bytes, trimmed. */
  lemma ParamReply(s: Session, fr: Frame, env: Env, crypto: Crypto)
    requires s.step == WaitParam
    ensures var o := Handle(s, fr, env, crypto);
            && |s.log| <= |o.session.log|
            && (o.ok <==> Admissible(fr, env) && env.writeOk)
            && if Admissible(fr, env) then
                 && Answer(s, o) == [Frame(0x64, 0x65, [0x00] + o.session.challenge)]
                 && o.session.challenge == Challenge(env.nonce.value, env.now) && o.session.key == env.key.value
               else Answer(s, o) == [StatusFrame(WhyNotAdmitted(fr, env))]
    ensures var o := Handle(s, fr, env, crypto);
            fr.addr == 0x61 && |fr.data| >= 14 ==>
              var id, n := Trim(fr.data[..14]), |s.log|;
              && o.session.deviceId == id && o.session.ctxDevice == id
              && n < |o.session.log| && o.session.log[n] == KeyQuery(id, env.key)
              && (env.key.Some? ==> n + 1 < |o.session.log| && o.session.log[n + 1] == ServiceQuery(id, env.inService))
  {
    if fr.addr != 0x61 {
      OneStatus(s, STATUS_SPEC, |s.log|);
    } else if |fr.data| < 14 {
      OneStatus(s, STATUS_LENGTH, |s.log|);
    } else {
      var id := Trim(fr.data[..14]);
      var asked := Add(s.(deviceId := id, ctxDevice := id), KeyQuery(id, env.key));
      if env.key.None? {
        OneStatus(asked, STATUS_EXEC, |s.log|);
      } else {
        var served := Add(asked, ServiceQuery(id, env.inService));
        if env.inService != Some(true) {
          OneStatus(served, STATUS_EXEC, |s.log|);
        } else {
          IssueReply(served.(key := env.key.value), env, |s.log|);
        }
      }
    }
  }

  // ---- the authorisation ----

  /** The 0x60 frame names the device asked for and carries, in version 1, a signature over the challenge that verifies
      under the device's key within the challenge's lifetime. */
  predicate Authorises(s: Session, fr: Frame, env: Env, crypto: Crypto) {
    && fr.addr == 0x60 && |fr.data| >= 271
    && fr.data[14] == 0x01 && Trim(fr.data[..14]) == s.deviceId
    && !Expired(s.challenge, env.now)
    && crypto.parses(s.key) && crypto.verifies(s.key, s.challenge, fr.data[15..271])
  }

  /** The statuses that tell why not. */
  function WhyNotAuthorised(s: Session, fr: Frame, env: Env, crypto: Crypto): seq<Byte> {
    if fr.addr != 0x60 then [0x03]
    else if |fr.data| < 271 then [0x05]
    else if fr.data[14] != 0x01 || Trim(fr.data[..14]) != s.deviceId then [0x00, 0x06]
    else if |s.challenge| < 40 then [0x00, 0x08]
    else if Expired(s.challenge, env.now) then [0x00, 0x0A]
    else if !crypto.parses(s.key) then [0x00, 0x08]
    else [0x00, 0x06]
  }

  function StatusFrames(codes: seq<Byte>): (fs: seq<Frame>)
    ensures |fs| == |codes|
  {
    seq(|codes|, i requires 0 <= i < |codes| => StatusFrame(codes[i]))
  }

  /** What a 0x65 frame does to a challenged connection: it ends authorised exactly when the frame authorises it, with
      statuses 0x00 and 0x01; otherwise the statuses tell the first condition that failed and nothing is granted. */
  lemma AuthReply(s: Session, fr: Frame, env: Env, crypto: Crypto)
    requires s.step == WaitAuth
    ensures var o := Handle(s, fr, env, crypto);
            && |s.log| <= |o.session.log|
            && (o.ok <==> Authorises(s, fr, env, crypto))
            && o.session.step == (if o.ok then Done else WaitAuth)
            && o.session.authenticated == (s.authenticated || o.ok)
            && Answer(s, o) ==
               StatusFrames(if o.ok then [0x00, 0x01] else WhyNotAuthorised(s, fr, env, crypto))
  {
    if fr.addr != 0x60 {
      OneStatus(s, STATUS_SPEC, |s.log|);
    } else if |fr.data| < 271 {
      OneStatus(s, STATUS_LENGTH, |s.log|);
    } else {
      TwoStatuses(s, STATUS_VALUE, |s.log|);
      TwoStatuses(s, STATUS_TIMEOUT, |s.log|);
      TwoStatuses(s, STATUS_EXEC, |s.log|);
      CheckReply(s, fr.data[15..271], env, crypto);
    }
  }

  lemma CheckReply(s: Session, signature: Data, env: Env, crypto: Crypto)
    ensures var o := CheckSignature(s, signature, env, crypto);
            && |s.log| <= |o.session.log|
            && (o.ok <==> crypto.verifies(s.key, s.challenge, signature))
            && Answer(s, o) == StatusFrames(if o.ok then [0x00, 0x01] else [0x00, 0x06])
  {
    var ok := crypto.verifies(s.key, s.challenge, signature);
    var checked := Add(s, SigCheck(s.key, s.challenge, signature, env.now, ok));
    if ok {
      var log := CheckSignature(s, signature, env, crypto).session.log;
      SkipTo(log, |s.log|, |checked.log|);
      TwoWrites(log, |checked.log|);
    } else {
      TwoStatuses(checked, STATUS_VALUE, |s.log|);
    }
  }

  // ---- the time request ----

  /** What a 0x65 frame does to an authorised connection: it is told the time exactly when the frame is a 0x66 with
      eight bytes, in a 0x67 with the corrected times of answer and receipt in little-endian milliseconds; otherwise one
      status tells why not. */
  lemma TimeReply(s: Session, fr: Frame, env: Env, crypto: Crypto)
    requires s.step == Done
    ensures var o := Handle(s, fr, env, crypto);
            && |s.log| <= |o.session.log| && o.session == s.(log := o.session.log)
            && (o.ok <==> fr.addr == 0x66 && |fr.data| == 8 && env.writeOk)
            && if fr.addr == 0x66 && |fr.data| == 8 then
                 && |Answer(s, o)| == 1
                 && var t := Answer(s, o)[0];
                    && t.addr == 0x67 && t.cmd == 0x65 && |t.data| == 16
                    && FromLE(t.data[..8]) == Millis(Ntp.Correct(env.clockAtNow, env.now)) % 0x1_0000_0000_0000_0000
                    && FromLE(t.data[8..]) ==
                       Millis(Ntp.Correct(env.clockAtReceived, env.received)) % 0x1_0000_0000_0000_0000
               else Answer(s, o) == [StatusFrame(if fr.addr != 0x66 then 0x03 else 0x05)]
  {
    if fr.addr != 0x66 {
      OneStatus(s, STATUS_SPEC, |s.log|);
    } else if |fr.data| != 8 {
      OneStatus(s, STATUS_LENGTH, |s.log|);
    } else {
      OneWrite(Handle(s, fr, env, crypto).session.log, |s.log|, |s.log|);
      var server := Millis(Ntp.Correct(env.clockAtNow, env.now));
      var received := Millis(Ntp.Correct(env.clockAtReceived, env.received));
      Pow256Values();
      FromToLE(Unsigned64(server), 8);
      FromToLE(Unsigned64(received), 8);
      var d := TimeResponse(env).data;
      assert d[..8] == Uint64Bytes(server) && d[8..] == Uint64Bytes(received);
    }
  }
}
