/** The socket as the server runs it: a buffer with a read cursor, handlers that consume bytes
    and overwrite the session, and the loop that feeds them. Every method is tied to the
    functions of AuthSession and AuthStream. */
module AuthSocketClass {
  import opened Wire
  import opened Guard
  import opened Srp6
  import opened BuildPolicy
  import opened AuthSession
  import AuthStream
  import RealmIndex
  import RealmPacket
  import PatchStream
  import Deadlines

  datatype TableEntry = TableEntry(cmd: byte, status: Status)

  /** The dispatch table of `onData`. */
  const TABLE: seq<TableEntry> := [
    TableEntry(CMD_AUTH_LOGON_CHALLENGE, Challenge),
    TableEntry(CMD_AUTH_LOGON_PROOF, LogonProof),
    TableEntry(CMD_AUTH_RECONNECT_CHALLENGE, Challenge),
    TableEntry(CMD_AUTH_RECONNECT_PROOF, ReconnectProof),
    TableEntry(CMD_REALM_LIST, Authenticated),
    TableEntry(CMD_XFER_ACCEPT, Patch),
    TableEntry(CMD_XFER_RESUME, Patch),
    TableEntry(CMD_XFER_CANCEL, Patch)]

  /** The first entry for a command is the only one, and its status is the one in which the
      guard lets the command pass. */
  lemma TableAgreesWithGuard(state: Status, data: Bytes, i: nat)
    requires FrameVerdict(state, data).Complete? && i <= |TABLE|
    requires i < |TABLE| ==> TABLE[i].cmd == data[0]
    requires forall j :: 0 <= j < i ==> TABLE[j].cmd != data[0]
    ensures i < |TABLE| && TABLE[i].status == state
    ensures forall j :: i < j < |TABLE| ==> TABLE[j].cmd != data[0]
  {
    assert CommandStatus(data[0]) == Some(state);
    assert i == |TABLE| ==> forall j :: 0 <= j < 8 ==> TABLE[j].cmd != data[0];
    assert TABLE[0].cmd == 0x00 && TABLE[1].cmd == 0x01 && TABLE[2].cmd == 0x02 && TABLE[3].cmd == 0x03;
    assert TABLE[4].cmd == 0x10 && TABLE[5].cmd == 0x32 && TABLE[6].cmd == 0x33 && TABLE[7].cmd == 0x34;
  }

  /** K from S: two half-length hashes, interleaved byte by byte. */
  method InterleavedKey(sha: Hash, t: Bytes32) returns (k: Bytes)
    ensures k == Interleave(sha, t) && |k| == 40
    ensures forall i :: 0 <= i < 20 ==> k[2 * i] == sha(EveryOther(t))[i]
    ensures forall i :: 0 <= i < 20 ==> k[2 * i + 1] == sha(EveryOther(t[1..]))[i]
  {
    var t1 := new byte[16](_ => 0);
    var vK := new byte[40](_ => 0);
    var i := 0;
    while i < 16
      invariant 0 <= i <= 16
      invariant forall j :: 0 <= j < i ==> t1[j] == t[j * 2]
    {
      t1[i] := t[i * 2];
      i := i + 1;
    }
    assert t1[..] == Evens(t);
    var even := sha(t1[..]);
    i := 0;
    while i < 20
      modifies vK
      invariant 0 <= i <= 20
      invariant forall j :: 0 <= j < i ==> vK[j * 2] == even[j]
    {
      vK[i * 2] := even[i];
      i := i + 1;
    }
    i := 0;
    while i < 16
      modifies t1
      invariant 0 <= i <= 16
      invariant forall j :: 0 <= j < i ==> t1[j] == t[j * 2 + 1]
    {
      t1[i] := t[i * 2 + 1];
      i := i + 1;
    }
    assert t1[..] == Odds(t);
    var odd := sha(t1[..]);
    i := 0;
    while i < 20
      modifies vK
      invariant 0 <= i <= 20
      invariant forall j :: 0 <= j < 20 ==> vK[j * 2] == even[j]
      invariant forall j :: 0 <= j < i ==> vK[j * 2 + 1] == odd[j]
    {
      vK[i * 2 + 1] := odd[i];
      i := i + 1;
    }
    k := vK[..];
    forall j | 0 <= j < 40 ensures k[j] == Interleave(sha, t)[j] {
      assert j == (j / 2) * 2 + j % 2;
    }
    assert k == Interleave(sha, t);
    InterleavesStandardHashes(sha, t);
  }

  /** The hash of N, overwritten byte by byte with its exclusive or with the hash of g. */
  method XorInPlace(hn: Digest, hg: Digest) returns (h: Bytes)
    ensures h == Xor(hn, hg)
  {
    var hash := new byte[20](i requires 0 <= i < 20 => hn[i]);
    var i := 0;
    while i < 20
      invariant 0 <= i <= 20
      invariant forall j :: 0 <= j < i ==> hash[j] == XorByte(hn[j], hg[j])
      invariant forall j :: i <= j < 20 ==> hash[j] == hn[j]
    {
      hash[i] := XorByte(hash[i], hg[i]);
      i := i + 1;
    }
    h := hash[..];
  }

  /** A judgement acts the same on a session that is already closed and keyed for it. */
  lemma JudgedWhenKeyed(policy: PatchPolicy, c: Core, a: Answer, j: Judgement)
    ensures Judged(policy, if j.ZeroA? then SetStatus(c, Closed) else Keyed(c, j.key), a, j) == Judged(policy, c, a, j)
  {
  }

  class AuthSocket {
    const env: Env
    const created: int
    const authTimeout: int

    var readBuf: Bytes
    var readPos: nat

    /** `_status`, `m_closed`, `m_authDeadline` and the other session members. */
    var session: Session

    // what the socket has done to the outside
    var trace: seq<Event>
    var commands: seq<byte>
    var counted: nat
    var closers: nat

    /** The cursor stays inside the buffer and the buffer within its limit. */
    ghost predicate Valid()
      reads this
    {
      readPos <= |readBuf| <= MAX_PENDING_INPUT
    }

    ghost function View(): Core
      reads this
    {
      Core(session, trace, commands, counted, closers)
    }

    /** The deadline is the one of the creation, active while the socket is unproven. */
    ghost predicate Timely()
      reads this
    {
      Deadlines.OnTime(created, authTimeout, View())
    }

    ghost function StreamView(): AuthStream.Stream
      requires Valid()
      reads this
    {
      AuthStream.Stream(View(), readBuf[readPos..])
    }

    constructor (env: Env, now: int, authTimeout: int)
      ensures Valid() && this.env == env && readPos == 0
      ensures StreamView() == AuthStream.NewStream(now, authTimeout)
      ensures created == now && this.authTimeout == authTimeout && Timely()
    {
      this.env := env;
      this.created, this.authTimeout := now, authTimeout;
      readBuf, readPos := [], 0;
      session := Fresh(now, authTimeout).session;
      trace, commands, counted, closers := [], [], 0, 0;
    }

    // ----- buffered-stream emulation -----

    function RecvLen(): nat
      requires Valid()
      reads this
    {
      |readBuf| - readPos
    }

    method Recv(len: nat) returns (ok: bool, bytes: Bytes)
      requires Valid()
      modifies this`readPos
      ensures Valid() && ok == (old(RecvLen()) >= len)
      ensures if ok then bytes == readBuf[old(readPos)..old(readPos) + len] && readPos == old(readPos) + len
              else bytes == [] && readPos == old(readPos)
    {
      if RecvLen() < len { return false, []; }
      bytes := readBuf[readPos..readPos + len];
      readPos := readPos + len;
      ok := true;
    }

    /** Reports success for nothing to send, failure on a closed socket. */
    method SendBytes(bytes: Bytes) returns (ok: bool)
      modifies this`trace
      ensures View() == Send(old(View()), bytes)
      ensures trace == if bytes == [] || session.closed then old(trace) else old(trace) + [Sent(bytes)]
      ensures ok <==> bytes == [] || !session.closed
    {
      if bytes == [] { return true; }
      if session.closed { return false; }
      trace := trace + [Sent(bytes)];
      return true;
    }

    /** Only the first close reaches the transport. */
    method CloseConnection()
      modifies this`session, this`closers
      ensures View() == Close(old(View()))
      ensures session.closed && !session.deadline.active
      ensures closers == old(closers) + (if old(session.closed) then 0 else 1)
    {
      session := session.(deadline := session.deadline.Deactivate());
      if !session.closed {
        session := session.(closed := true);
        closers := closers + 1;
      }
    }

    method OnClose()
      modifies this`session
      ensures View() == PeerClose(old(View()))
    {
      session := session.(deadline := session.deadline.Deactivate());
      session := session.(closed := true);
    }

    method ExpireAuthentication(now: int) returns (expired: bool)
      modifies this`session, this`closers
      ensures View() == Expire(old(View()), now) && expired == old(session.deadline.Expired(now))
      ensures old(Timely()) ==> Timely()
      ensures old(Timely()) && old(!session.closed) ==>
              (expired <==> && authTimeout > 0 && now >= created + authTimeout && old(session.status) != Authenticated
                            && old(session.status) != Patch && !Deadlines.Streaming(old(View())))
    {
      if !session.deadline.Expired(now) { return false; }
      CloseConnection();
      return true;
    }

    // ----- handlers: each is called on a frame the guard has passed -----

    /** The frame at the cursor is complete, with this command. */
    ghost predicate Guarded(cmd: byte)
      reads this
    {
      && Valid() && readPos < |readBuf| && readBuf[readPos] == cmd
      && FrameVerdict(session.status, readBuf[readPos..]).Complete?
    }

    ghost function FrameSize(cmd: byte): (n: nat)
      requires Guarded(cmd)
      reads this
      ensures 1 <= n <= |readBuf| - readPos
    {
      CompleteIsLocal(session.status, readBuf[readPos..]);
      FrameVerdict(session.status, readBuf[readPos..]).size
    }

    ghost function NextFrame(cmd: byte): (f: Bytes)
      requires Guarded(cmd)
      reads this
      ensures FrameVerdict(session.status, f) == Complete(|f|) && f != [] && f[0] == cmd && |f| == FrameSize(cmd)
      ensures f == readBuf[readPos..readPos + |f|]
    {
      CompleteIsLocal(session.status, readBuf[readPos..]);
      assert readBuf[readPos..][..FrameSize(cmd)] == readBuf[readPos..readPos + FrameSize(cmd)];
      readBuf[readPos..readPos + FrameSize(cmd)]
    }

    /** Reads the challenge off the buffer and takes the identity from it. */
    method ReadChallenge(ghost cmd: byte) returns (ok: bool, buf: Bytes)
      requires Guarded(cmd) && session.status == Challenge
      modifies this`readPos, this`session
      ensures ok && Valid() && buf == old(NextFrame(cmd)) && readPos == old(readPos) + |buf|
      ensures View() == WithIdentity(old(View()), buf)
    {
      ghost var f := NextFrame(cmd);
      ChallengeFrameSize(f);
      buf := [];
      if RecvLen() < CHALLENGE_HEADER_SIZE + CHALLENGE_MINIMUM_BODY { return false, []; }
      var read, header := Recv(CHALLENGE_HEADER_SIZE);
      var remaining := BodySize(header);
      assert remaining == BodySize(f);
      if remaining < CHALLENGE_MINIMUM_BODY || RecvLen() < remaining { return false, []; }
      session := session.(status := Closed);
      var body;
      read, body := Recv(remaining);
      buf := header + body;
      assert buf == f;
      TakeIdentity(buf);
      ok := true;
    }

    method TakeIdentity(buf: Bytes)
      requires ChallengeFrame(buf) && session.status == Closed
      modifies this`session
      ensures View() == WithIdentity(old(View()), buf)
    {
      session := session.(
        login := buf[CHALLENGE_NAME_OFFSET..CHALLENGE_NAME_OFFSET + buf[CHALLENGE_NAME_LENGTH_OFFSET]]);
      session := session.(build := buf[11] as int + 256 * (buf[12] as int));
      session := session.(os := CString(buf[17..]));
    }

    /** A fresh salt and the verifier of the stored hash under it. */
    method SetVSFields(a: Answer, passHash: nat)
      modifies this`session
      ensures session == old(session).(salt := FromLE(a.salt),
                                       verifier := VerifierOf(env.sha, FromLE(a.salt), passHash))
    {
      session := session.(salt := FromLE(a.salt));
      var digest := DigestOfStored(passHash);
      var x := FromLE(env.sha(ToLE(session.salt, SALT_WIDTH) + digest));
      session := session.(verifier := ModExp(GENERATOR, x, PRIME));
    }

    method HandleLogonChallenge(a: Answer) returns (ok: bool)
      requires Guarded(CMD_AUTH_LOGON_CHALLENGE)
      modifies this
      ensures Valid() && readBuf == old(readBuf)
      ensures Outcome(View(), ok) == LogonChallenge(env, old(View()), old(NextFrame(CMD_AUTH_LOGON_CHALLENGE)), a)
      ensures ok ==> readPos == old(readPos) + old(FrameSize(CMD_AUTH_LOGON_CHALLENGE))
    {
      var buf;
      ok, buf := ReadChallenge(CMD_AUTH_LOGON_CHALLENGE);
      if !ok || |session.os| > 4 { return false; }
      session := session.(os := Reverse(session.os));
      var code: Option<byte> := None;
      if a.ipBanned {
        code := Some(WOW_FAIL_BANNED);
      } else {
        match a.account
        case None => code := Some(WOW_FAIL_UNKNOWN_ACCOUNT);
        case Some(row) =>
          if row.lockedToIp && !row.ipMatches {
            code := Some(LockedResult(session.build));
          } else if row.ban == Permanent {
            code := Some(WOW_FAIL_BANNED);
          } else if row.ban == Temporary {
            code := Some(WOW_FAIL_SUSPENDED);
          }
      }
      if code.Some? {
        var _ := SendBytes([CMD_AUTH_LOGON_CHALLENGE, 0, code.value]);
      } else {
        OpenChallengeFor(a, buf);
      }
      return true;
    }

    /** Salt and verifier from the database or made now, then b and B. */
    method ChooseKeys(a: Answer)
      requires a.account.Some?
      modifies this`session
      ensures session == WithKeys(old(session), KeysFor(env.sha, a))
    {
      var row := a.account.value;
      match row.stored {
        case None => SetVSFields(a, row.passHash);
        case Some(st) => session := session.(salt := FromLE(st.salt), verifier := st.v);
      }
      session := session.(secret := FromLE(a.secret));
      var gmod := ModExp(GENERATOR, session.secret, PRIME);
      session := session.(public := (session.verifier * 3 + gmod) % PRIME);
    }

    method OpenChallengeFor(a: Answer, buf: Bytes)
      requires ChallengeFrame(buf) && a.account.Some?
      modifies this`session, this`trace
      ensures View() == OpenChallenge(old(View()), buf, a, KeysFor(env.sha, a))
    {
      ChooseKeys(a);
      Announce(a, buf, KeysFor(env.sha, a));
    }

    method Announce(a: Answer, buf: Bytes, ghost k: Keys)
      requires ChallengeFrame(buf) && a.account.Some? && k == KeysOf(session)
      modifies this`session, this`trace
      ensures View() == OpenChallenge(old(View()), buf, a, k)
    {
      session := session.(security := RealmIndex.ClampSecurity(a.account.value.gmLevel));
      session := session.(locale := LocaleOf(buf));
      session := session.(status := LogonProof);
      var _ := SendBytes(ChallengeReply(session.public, session.salt, a.filler));
    }

    method SendInvalidVersion()
      modifies this`trace
      ensures View() == InvalidVersion(old(View()))
    {
      var _ := SendBytes([CMD_AUTH_LOGON_CHALLENGE, 0, WOW_FAIL_VERSION_INVALID]);
    }

    method OfferPatchFrom(a: Answer)
      modifies this`session, this`trace
      ensures View() == OfferPatch(old(View()), a)
    {
      match a.archive
      case None => SendInvalidVersion();
      case Some(art) =>
        session := session.(artifact := Some(art));
        var _ := SendBytes([CMD_AUTH_LOGON_PROOF, WOW_FAIL_VERSION_UPDATE]);
        var _ := SendBytes(XferInit(art));
        session := session.(status := Patch);
        session := session.(deadline := session.deadline.Deactivate());
    }

    method AcceptProof(m2: Digest, a: Answer) returns (ok: bool)
      modifies this`session, this`trace, this`closers, this`counted
      ensures Outcome(View(), ok) == ProofAccepted(env.policy, old(View()), m2, a)
    {
      var supported := FindBuildInfo(session.build).Some?;
      if ShouldPatch(env.policy, session.build, supported) {
        OfferPatchFrom(a);
        return true;
      }
      if !supported {
        SendInvalidVersion();
        return true;
      }
      if !a.published {
        CloseConnection();
        return false;
      }
      trace := trace + [Published(session.login, Some(session.key))];
      var _ := SendBytes(ProofReply(session.build, m2));
      session := session.(status := Authenticated);
      session := session.(deadline := session.deadline.Deactivate());
      counted := counted + 1;
      return true;
    }

    method HandleLogonProof(a: Answer) returns (ok: bool)
      requires Guarded(CMD_AUTH_LOGON_PROOF)
      modifies this
      ensures Valid() && readBuf == old(readBuf)
      ensures Outcome(View(), ok) == LogonProofStep(env, old(View()), old(NextFrame(CMD_AUTH_LOGON_PROOF)), a)
      ensures ok ==> readPos == old(readPos) + old(FrameSize(CMD_AUTH_LOGON_PROOF))
    {
      ghost var f := NextFrame(CMD_AUTH_LOGON_PROOF);
      var read, lp := Recv(LOGON_PROOF_SIZE);
      if !read { return false; }
      assert lp == f;
      ok := CheckProof(lp, a);
    }

    method CheckProof(lp: Bytes, a: Answer) returns (ok: bool)
      requires |lp| == LOGON_PROOF_SIZE
      modifies this`session, this`trace, this`closers, this`counted
      ensures Outcome(View(), ok) == LogonProofStep(env, old(View()), lp, a)
    {
      session := session.(status := Closed);
      var j := JudgeProof(lp);
      ghost var c := old(View());
      assert View() == if j.ZeroA? then SetStatus(c, Closed) else Keyed(c, j.key);
      JudgedWhenKeyed(env.policy, c, a, j);
      ok := ActOn(j, a);
    }

    method JudgeProof(lp: Bytes) returns (j: Judgement)
      requires |lp| == LOGON_PROOF_SIZE
      modifies this`session
      ensures j == Judge(env.sha, old(session.login), KeysOf(old(session)), lp)
      ensures session == if j.ZeroA? then old(session) else old(session).(key := j.key)
    {
      var A := FromLE(lp[1..33]);
      if A % PRIME == 0 { return ZeroA; }
      var m, m2 := ComputeProof(A);
      j := if ToLE(m, DIGEST_WIDTH) == lp[33..53] then Match(session.key, m2) else Mismatch(session.key);
    }

    method ActOn(j: Judgement, a: Answer) returns (ok: bool)
      requires session.status == Closed && (j.ZeroA? || session.key == j.key)
      modifies this`session, this`trace, this`closers, this`counted
      ensures Outcome(View(), ok) == Judged(env.policy, old(View()), a, j)
    {
      match j
      case ZeroA => ok := false;
      case Match(_, m2) => ok := AcceptProof(m2, a);
      case Mismatch(_) =>
        var _ := SendBytes(WrongPassword(session.build));
        ok := true;
    }

    /** u, S, K, M and the reply hash; K is kept. */
    method ComputeProof(A: nat) returns (m: nat, m2: Digest)
      modifies this`session
      ensures session == old(session).(key := SessionKey(env.sha, A, session.verifier, session.secret, session.public))
      ensures m == ServerProofNumber(env.sha, session.login, session.salt, A, session.public, session.key)
      ensures m2 == ServerReplyDigest(env.sha, A, m, session.key)
    {
      var u := FromLE(env.sha(ToLE(A, EPHEMERAL_WIDTH) + ToLE(session.public, EPHEMERAL_WIDTH)));
      var S := ModExp(A * ModExp(session.verifier, u, PRIME), session.secret, PRIME);
      var vK := InterleavedKey(env.sha, ToLE(S, EPHEMERAL_WIDTH));
      session := session.(key := FromLE(vK));
      var hash := XorInPlace(env.sha(ToLE(PRIME, EPHEMERAL_WIDTH)), env.sha(ToLE(GENERATOR, GENERATOR_WIDTH)));
      var t3, t4 := FromLE(hash), env.sha(session.login);
      m := FromLE(env.sha(ProofTranscript(t3, t4, session.salt, A, session.public, session.key)));
      m2 := env.sha(ToLE(A, EPHEMERAL_WIDTH) + ToLE(m, DIGEST_WIDTH) + ToLE(session.key, SESSION_KEY_WIDTH));
    }

    method HandleReconnectChallenge(a: Answer) returns (ok: bool)
      requires Guarded(CMD_AUTH_RECONNECT_CHALLENGE)
      modifies this
      ensures Valid() && readBuf == old(readBuf)
      ensures Outcome(View(), ok) == ReconnectChallenge(old(View()), old(NextFrame(CMD_AUTH_RECONNECT_CHALLENGE)), a)
      ensures ok ==> readPos == old(readPos) + old(FrameSize(CMD_AUTH_RECONNECT_CHALLENGE))
    {
      var buf;
      ok, buf := ReadChallenge(CMD_AUTH_RECONNECT_CHALLENGE);
      if !ok { return false; }
      session := session.(locale := LocaleOf(buf));
      if |session.os| > 4 { return false; }
      session := session.(os := Reverse(session.os));
      if a.sessionKey.None? {
        CloseConnection();
        return false;
      }
      OpenReconnect(a.sessionKey.value, a.nonce);
      return true;
    }

    method OpenReconnect(k: nat, r: Bytes16)
      modifies this`session, this`trace
      ensures var waiting := old(session).(key := k, status := ReconnectProof, nonce := FromLE(r));
              View() == Send(old(View()).(session := waiting), ReconnectReply(FromLE(r)))
    {
      session := session.(key := k);
      session := session.(status := ReconnectProof);
      session := session.(nonce := FromLE(r));
      var _ := SendBytes(ReconnectReply(session.nonce));
    }

    method HandleReconnectProof(a: Answer) returns (ok: bool)
      requires Guarded(CMD_AUTH_RECONNECT_PROOF)
      modifies this
      ensures Valid() && readBuf == old(readBuf)
      ensures Outcome(View(), ok) == ReconnectProofStep(env, old(View()), old(NextFrame(CMD_AUTH_RECONNECT_PROOF)), a)
      ensures ok ==> readPos == old(readPos) + old(FrameSize(CMD_AUTH_RECONNECT_PROOF))
    {
      ghost var f := NextFrame(CMD_AUTH_RECONNECT_PROOF);
      var read, lp := Recv(RECONNECT_PROOF_SIZE);
      if !read { return false; }
      assert lp == f;
      ok := CheckReconnect(lp, a);
    }

    method CheckReconnect(lp: Bytes, a: Answer) returns (ok: bool)
      requires |lp| == RECONNECT_PROOF_SIZE
      modifies this`session, this`trace, this`closers, this`counted
      ensures Outcome(View(), ok) == ReconnectProofStep(env, old(View()), lp, a)
    {
      session := session.(status := Closed);
      if session.login == [] || session.nonce == 0 || session.key == 0 { return false; }
      var digest := env.sha(ReconnectTranscript(session.login, FromLE(lp[1..17]), session.nonce, session.key));
      if digest != lp[17..37] {
        CloseConnection();
        return false;
      }
      if !a.published {
        CloseConnection();
        return false;
      }
      trace := trace + [Published(session.login, None)];
      var _ := SendBytes(ReconnectProofReply(session.build));
      session := session.(status := Authenticated);
      session := session.(deadline := session.deadline.Deactivate());
      counted := counted + 1;
      return true;
    }

    method HandleRealmList(a: Answer) returns (ok: bool)
      requires Guarded(CMD_REALM_LIST)
      modifies this
      ensures Valid() && readBuf == old(readBuf)
      ensures Outcome(View(), ok) == RealmListStep(old(View()), a)
      ensures ok ==> readPos == old(readPos) + old(FrameSize(CMD_REALM_LIST))
    {
      if RecvLen() < REALM_LIST_SIZE { return false; }
      readPos := readPos + REALM_LIST_SIZE;
      if !a.accountFound {
        CloseConnection();
        return false;
      }
      var pkt := RealmPacket.LoadRealmlist(session.build, session.security, a.view);
      var _ := SendBytes([CMD_REALM_LIST] + (ToLE(|pkt|, 2) + pkt));
      return true;
    }

    method StartTransfer(offset: nat) returns (ok: bool)
      modifies this`session, this`trace, this`closers
      ensures Outcome(View(), ok) == BeginPatchStream(old(View()), offset)
    {
      if session.artifact.None? {
        CloseConnection();
        return false;
      }
      var art := session.artifact.value;
      session := session.(status := Closed);
      session := session.(artifact := None);
      if !PatchStream.SeekAccepted(|art.data|, offset) {
        CloseConnection();
        return false;
      }
      trace := trace + [TransferStarted(art, offset)];
      return true;
    }

    method HandleXferAccept() returns (ok: bool)
      requires Guarded(CMD_XFER_ACCEPT)
      modifies this
      ensures Valid() && readBuf == old(readBuf)
      ensures Outcome(View(), ok) == BeginPatchStream(old(View()), 0)
      ensures ok ==> readPos == old(readPos) + old(FrameSize(CMD_XFER_ACCEPT))
    {
      readPos := readPos + XFER_ACCEPT_SIZE;
      ok := StartTransfer(0);
    }

    method HandleXferResume() returns (ok: bool)
      requires Guarded(CMD_XFER_RESUME)
      modifies this
      ensures Valid() && readBuf == old(readBuf)
      ensures Outcome(View(), ok) == BeginPatchStream(old(View()), FromLE(old(NextFrame(CMD_XFER_RESUME))[1..9]))
      ensures ok ==> readPos == old(readPos) + old(FrameSize(CMD_XFER_RESUME))
    {
      ghost var f := NextFrame(CMD_XFER_RESUME);
      if RecvLen() < XFER_RESUME_SIZE { return false; }
      readPos := readPos + (XFER_RESUME_SIZE - 8);
      var read, start := Recv(8);
      assert start == f[1..9];
      ok := StartTransfer(FromLE(start));
    }

    method HandleXferCancel() returns (ok: bool)
      requires Guarded(CMD_XFER_CANCEL)
      modifies this
      ensures Valid() && readBuf == old(readBuf)
      ensures ok && View() == Close(old(View()))
      ensures readPos == old(readPos) + old(FrameSize(CMD_XFER_CANCEL))
    {
      readPos := readPos + XFER_CANCEL_SIZE;
      CloseConnection();
      return true;
    }

    // ----- the loop -----

    /** The call through the table entry of the command. */
    method CallHandler(cmd: byte, a: Answer) returns (ok: bool)
      requires Guarded(cmd)
      modifies this
      ensures Valid() && readBuf == old(readBuf)
      ensures Outcome(View(), ok) == Handle(env, old(View()), old(NextFrame(cmd)), a)
      ensures ok ==> readPos == old(readPos) + old(FrameSize(cmd))
    {
      if cmd == CMD_AUTH_LOGON_CHALLENGE { ok := HandleLogonChallenge(a); }
      else if cmd == CMD_AUTH_LOGON_PROOF { ok := HandleLogonProof(a); }
      else if cmd == CMD_AUTH_RECONNECT_CHALLENGE { ok := HandleReconnectChallenge(a); }
      else if cmd == CMD_AUTH_RECONNECT_PROOF { ok := HandleReconnectProof(a); }
      else if cmd == CMD_REALM_LIST { ok := HandleRealmList(a); }
      else if cmd == CMD_XFER_ACCEPT { ok := HandleXferAccept(); }
      else if cmd == CMD_XFER_RESUME { ok := HandleXferResume(); }
      else { ok := HandleXferCancel(); }
    }

    /** The table lookup, which the guard's verdict makes succeed with the right status. */
    method FindEntry(cmd: byte) returns (i: nat)
      requires Guarded(cmd)
      ensures i < |TABLE| && TABLE[i].cmd == cmd && TABLE[i].status == session.status
    {
      i := 0;
      while i < |TABLE| && TABLE[i].cmd != cmd
        invariant 0 <= i <= |TABLE|
        invariant forall j :: 0 <= j < i ==> TABLE[j].cmd != cmd
      {
        i := i + 1;
      }
      TableAgreesWithGuard(session.status, readBuf[readPos..], i);
    }

    /** Puts the frame on record and runs its handler. The defensive checks around the call,
        table status and consumed length, never fire. */
    method DispatchFrame(cmd: byte, frameSize: nat) returns (handled: bool)
      requires Guarded(cmd) && frameSize == FrameSize(cmd)
      modifies this
      ensures Valid() && readBuf == old(readBuf)
      ensures Outcome(View(), handled) == Dispatch(env, old(View()), old(NextFrame(cmd)))
      ensures handled ==> readPos == old(readPos) + frameSize
    {
      var frameStart := readPos;
      var i := FindEntry(cmd);
      handled := false;
      if TABLE[i].status == session.status {
        var a := env.oracle(|commands|);
        Enter(cmd, frameSize);
        handled := CallHandler(cmd, a);
        if readPos - frameStart != frameSize { handled := false; }
      }
    }

    method Enter(cmd: byte, frameSize: nat)
      requires Guarded(cmd) && frameSize == FrameSize(cmd)
      modifies this`trace, this`commands
      ensures View() == Entered(old(View()), old(NextFrame(cmd))) && Guarded(cmd)
      ensures NextFrame(cmd) == old(NextFrame(cmd))
    {
      trace := trace + [Dispatched(readBuf[readPos..readPos + frameSize])];
      commands := commands + [cmd];
    }

    /** One pass of the loop; `more` tells whether it decided anything. */
    method LoopPass() returns (more: bool)
      requires Valid() && !session.closed
      modifies this
      ensures Valid() && StreamView() == AuthStream.Iterate(env, old(StreamView()))
      ensures more == !AuthStream.Settled(old(StreamView()))
    {
      ghost var st := StreamView();
      AuthStream.CompleteIsPositive(st);
      var decision := InspectFrame(session.status, readBuf[readPos..]);
      if decision.Incomplete? { return false; }
      if decision.Reject? {
        readBuf, readPos := [], 0;
        CloseConnection();
        return true;
      }
      ghost var f := NextFrame(readBuf[readPos]);
      assert st.pending[..decision.size] == f;
      var handled := DispatchFrame(readBuf[readPos], decision.size);
      if !handled {
        readBuf, readPos := [], 0;
        CloseConnection();
      }
      return true;
    }

    /** `onData` is the function of the stream: append, then pass until nothing is decided. */
    method OnData(data: Bytes)
      requires Valid() && readPos == 0
      modifies this
      ensures Valid() && readPos == 0
      ensures StreamView() == AuthStream.OnData(env, old(StreamView()), data)
      ensures old(Timely()) ==> Timely()
      ensures !session.closed ==>
              if session.status == Closed then readBuf == [] else |readBuf| < LargestFrame(session.status)
    {
      if Timely() { Deadlines.OnDataOnTime(env, StreamView(), data, created, authTimeout); }
      if session.closed { return; }
      ghost var begun := AuthStream.Receive(StreamView(), data);
      if !CanAppendPending(|readBuf|, |data|) {
        readBuf, readPos := [], 0;
        CloseConnection();
        return;
      }
      readBuf, readPos := readBuf + data, 0;
      assert StreamView() == begun;
      while !session.closed
        invariant Valid()
        invariant AuthStream.Drain(env, StreamView()) == AuthStream.Drain(env, begun)
        decreases |StreamView().pending|
      {
        AuthStream.CompleteIsPositive(StreamView());
        var more := LoopPass();
        if !more { break; }
      }
      readBuf, readPos := readBuf[readPos..], 0;
      if !session.closed { AuthStream.SettledIsShort(StreamView()); }
    }
  }
}
