/** An honest reconnect from the first byte to the last: when it succeeds, and when not. */
module HonestReconnect {
  import opened Wire
  import opened Guard
  import opened Srp6
  import opened AuthSession
  import opened AuthStream
  import opened HonestLogin
  import opened HonestSession

  /** A reconnect challenge for an account whose stored session key is the client's. */
  predicate Remembered(env: Env, f0: Bytes, key: Bytes) {
    && ChallengeFrame(f0) && f0[0] == CMD_AUTH_RECONNECT_CHALLENGE && |OsField(f0)| <= 4
    && |key| == SESSION_KEY_WIDTH && env.oracle(0).sessionKey == Some(FromLE(key))
  }

  /** The proof of the client that read the reply. */
  function HonestReply(env: Env, f0: Bytes, key: Bytes, r1: Bytes16, r3: Digest): (f1: Bytes)
    requires ChallengeFrame(f0)
    ensures |f1| == RECONNECT_PROOF_SIZE && f1[0] == CMD_AUTH_RECONNECT_PROOF
  {
    ReconnectFrame(env.sha, AccountName(f0), key, ReconnectReply(FromLE(env.oracle(0).nonce)), r1, r3)
  }

  /** The challenge leaves the session waiting for a proof of this key and nonce. */
  predicate Awaits(d: Core, f0: Bytes, key: nat, nonce: nat)
    requires ChallengeFrame(f0)
  {
    && d.session.status == ReconnectProof && !d.session.closed && d.session.login == AccountName(f0)
    && d.session.build == BuildOf(f0) && d.session.key == key && d.session.nonce == nonce && |d.commands| == 1
    && d.trace == [Dispatched(f0), Sent(ReconnectReply(nonce))]
  }

  lemma ReconnectOpens(c: Core, f0: Bytes, a: Answer) returns (d: Core)
    requires ChallengeFrame(f0) && !c.session.closed && c.commands == [] && c.trace == [] && |OsField(f0)| <= 4
    requires a.sessionKey.Some?
    ensures ReconnectChallenge(Entered(c, f0), f0, a) == Outcome(d, true)
    ensures Awaits(d, f0, a.sessionKey.value, FromLE(a.nonce))
  {
    d := ReconnectChallenge(Entered(c, f0), f0, a).core;
    FirstEvents(c, d, f0, ReconnectReply(FromLE(a.nonce)));
  }

  lemma ReconnectIsHandled(env: Env, c: Core, f: Bytes)
    requires FrameVerdict(c.session.status, f) == Complete(|f|)
    ensures f[0] == CMD_AUTH_RECONNECT_CHALLENGE ==>
            ChallengeFrame(f)
            && Dispatch(env, c, f) == ReconnectChallenge(Entered(c, f), f, env.oracle(|c.commands|))
    ensures f[0] == CMD_AUTH_RECONNECT_PROOF ==>
            |f| == RECONNECT_PROOF_SIZE
            && Dispatch(env, c, f) == ReconnectProofStep(env, Entered(c, f), f, env.oracle(|c.commands|))
  {
  }

  /** The proof handler's answer to a proof that would match if nothing is zero. */
  lemma ReconnectProofOutcome(env: Env, c: Core, f: Bytes, a: Answer)
    requires |f| == RECONNECT_PROOF_SIZE && !c.session.closed && c.session.login != []
    requires ReconnectMatches(env, c.session, f) <==> c.session.nonce != 0 && c.session.key != 0
    ensures var o := ReconnectProofStep(env, c, f, a);
            if c.session.nonce != 0 && c.session.key != 0 && a.published
            then && o.ok && !o.core.session.closed && o.core.session.status == Authenticated
                 && o.core.trace == c.trace
                                    + [Published(c.session.login, None), Sent(ReconnectProofReply(c.session.build))]
            else !o.ok && o.core.session.status == Closed && o.core.trace == c.trace
  {
  }

  /** Two frames, the second with any outcome, in any chunks. */
  lemma TwoFramesThen(env: Env, st: Stream, f0: Bytes, f1: Bytes, d: Core, o: Outcome, chunks: seq<Bytes>)
    requires st.Open() && st.pending == [] && NeverTrips(env, st, chunks) && Flatten(chunks) == f0 + f1
    requires Accepts(env, st.core, f0, d)
    requires FrameVerdict(d.session.status, f1) == Complete(|f1|) && Dispatch(env, d, f1) == o
    requires o.ok ==> !o.core.session.closed
    ensures Feed(env, st, chunks).core == if o.ok then o.core else Close(o.core)
    ensures o.ok ==> Feed(env, st, chunks).pending == []
  {
    if o.ok {
      TwoFrames(env, st, f0, f1, d, o.core, chunks);
    } else {
      ChunksAreOneStream(env, st, chunks);
      assert st.Append(f0 + f1).pending == f0 + f1;
      DrainFrame(env, st.Append(f0 + f1), f0, f1);
      DrainRefused(env, Stream(d, f1), f1, o.core);
    }
  }

  lemma DrainRefused(env: Env, st: Stream, f: Bytes, d: Core)
    requires st.Open() && st.pending == f && FrameVerdict(st.core.session.status, f) == Complete(|f|)
    requires Dispatch(env, st.core, f) == Outcome(d, false)
    ensures Drain(env, st) == Stream(Close(d), [])
  {
    CompleteIsPositive(st);
    assert f[..|f|] == f;
    assert Drain(env, st) == Drain(env, Iterate(env, st));
  }

  lemma ChallengeReopens(env: Env, start: int, timeout: int, f0: Bytes, key: Bytes) returns (d: Core)
    requires Remembered(env, f0, key)
    ensures Accepts(env, Fresh(start, timeout), f0, d) && Awaits(d, f0, FromLE(key), FromLE(env.oracle(0).nonce))
  {
    ReconnectIsHandled(env, Fresh(start, timeout), f0);
    d := ReconnectOpens(Fresh(start, timeout), f0, env.oracle(0));
  }

  /** What the honest proof leads to from a session that awaits it. */
  lemma HonestReplyOutcome(env: Env, d: Core, f0: Bytes, key: Bytes, r1: Bytes16, r3: Digest) returns (o: Outcome)
    requires Remembered(env, f0, key) && Awaits(d, f0, FromLE(key), FromLE(env.oracle(0).nonce))
    ensures var f1, a := HonestReply(env, f0, key, r1, r3), env.oracle(0);
            && FrameVerdict(d.session.status, f1) == Complete(|f1|) && Dispatch(env, d, f1) == o
            && if FromLE(a.nonce) != 0 && FromLE(key) != 0 && env.oracle(1).published
               then && o.ok && !o.core.session.closed && o.core.session.status == Authenticated
                    && o.core.trace == Entered(d, f1).trace
                                       + [Published(AccountName(f0), None), Sent(ReconnectProofReply(BuildOf(f0)))]
               else !o.ok && o.core.session.status == Closed && o.core.trace == Entered(d, f1).trace
  {
    var f1 := HonestReply(env, f0, key, r1, r3);
    ChallengeFrameSize(f0);
    HonestReconnectIff(env, d.session, key, env.oracle(0).nonce, r1, r3);
    ReconnectIsHandled(env, d, f1);
    ReconnectProofOutcome(env, Entered(d, f1), f1, env.oracle(1));
    o := Dispatch(env, d, f1);
  }

  lemma TraceOfReconnect(d: Core, e: Core, f0: Bytes, f1: Bytes, reply: Bytes, es: seq<Event>)
    requires f1 != [] && d.trace == [Dispatched(f0), Sent(reply)] && e.trace == Entered(d, f1).trace + es
    ensures e.trace == [Dispatched(f0), Sent(reply), Dispatched(f1)] + es
  {
  }

  /** Challenge and honest proof, cut into chunks in any way, end authenticated exactly when
      neither nonce nor key is zero and the publication succeeds; otherwise the socket is
      closed, with nothing published and nothing sent after the challenge reply. */
  lemma HonestReconnectAuthenticatesIff(env: Env, start: int, timeout: int, f0: Bytes, key: Bytes, r1: Bytes16,
                                        r3: Digest,
                                        chunks: seq<Bytes>)
    requires Remembered(env, f0, key) && Flatten(chunks) == f0 + HonestReply(env, f0, key, r1, r3)
    ensures var st, f1 := Feed(env, NewStream(start, timeout), chunks), HonestReply(env, f0, key, r1, r3);
            var nonce := FromLE(env.oracle(0).nonce);
            var begun := [Dispatched(f0), Sent(ReconnectReply(nonce)), Dispatched(f1)];
            && (st.core.session.status == Authenticated
                <==> nonce != 0 && FromLE(key) != 0 && env.oracle(1).published)
            && if st.core.session.status == Authenticated
               then && st.Open() && st.pending == []
                    && st.core.trace == begun
                                        + [Published(AccountName(f0), None), Sent(ReconnectProofReply(BuildOf(f0)))]
               else !st.Open() && st.core.trace == begun
  {
    var f1, st := HonestReply(env, f0, key, r1, r3), NewStream(start, timeout);
    var d := ChallengeReopens(env, start, timeout, f0, key);
    var o := HonestReplyOutcome(env, d, f0, key, r1, r3);
    FitsPending(env, st, f0, f1, chunks);
    TwoFramesThen(env, st, f0, f1, d, o, chunks);
    var reply := ReconnectReply(FromLE(env.oracle(0).nonce));
    if o.ok {
      TraceOfReconnect(d, o.core, f0, f1, reply,
                       [Published(AccountName(f0), None), Sent(ReconnectProofReply(BuildOf(f0)))]);
    } else {
      TraceOfReconnect(d, o.core, f0, f1, reply, []);
    }
  }
}
