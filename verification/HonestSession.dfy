/** An honest logon from the first byte to the last, however the network cuts it up. */
module HonestSession {
  import opened Wire
  import opened Guard
  import opened Srp6
  import opened BuildPolicy
  import opened AuthSession
  import opened AuthStream
  import opened HonestLogin

  /** A frame at the head of the stream that its handler accepts is gone after one pass. */
  lemma DrainFrame(env: Env, st: Stream, f: Bytes, rest: Bytes)
    requires st.Open() && st.pending == f + rest && FrameVerdict(st.core.session.status, f) == Complete(|f|)
    requires Dispatch(env, st.core, f).ok
    ensures Drain(env, st) == Drain(env, Stream(Dispatch(env, st.core, f).core, rest))
  {
    VerdictStable(st.core.session.status, f, rest);
    assert (f + rest)[..|f|] == f && (f + rest)[|f|..] == rest;
  }

  /** The client's account, its challenge and the server's answers to it fit together. */
  predicate Welcome(env: Env, f0: Bytes, client: Client) {
    && ChallengeFrame(f0) && f0[0] == CMD_AUTH_LOGON_CHALLENGE && |OsField(f0)| <= 4 && client.name == AccountName(f0)
    && Refusal(BuildOf(f0), env.oracle(0)).None? && RowOf(env.sha, env.oracle(0).account.value, client.digest)
  }

  function KeysSent(env: Env): Keys
    requires env.oracle(0).account.Some?
  {
    KeysFor(env.sha, env.oracle(0))
  }

  /** A frame whose dispatch succeeds, leaving the socket open in `d`. */
  predicate Accepts(env: Env, c: Core, f: Bytes, d: Core) {
    FrameVerdict(c.session.status, f) == Complete(|f|) && Dispatch(env, c, f) == Outcome(d, true) && !d.session.closed
  }

  /** A challenge has opened the session `d` for these keys. */
  predicate Opened(d: Core, f0: Bytes, name: Bytes, k: Keys, reply: Bytes)
    requires ChallengeFrame(f0)
  {
    && d.session.status == LogonProof && !d.session.closed && KeysOf(d.session) == k
    && d.session.login == name && d.session.build == BuildOf(f0) && |d.commands| == 1
    && d.trace == [Dispatched(f0), Sent(reply)]
  }

  /** Both frames together are far below the pending limit. */
  lemma FitsPending(env: Env, st: Stream, f0: Bytes, f1: Bytes, chunks: seq<Bytes>)
    requires st.pending == [] && ChallengeFrame(f0) && |f1| <= LOGON_PROOF_SIZE && Flatten(chunks) == f0 + f1
    ensures |f0| <= 289 && NeverTrips(env, st, chunks)
  {
    ChallengeFrameSize(f0);
    ShortStreamNeverTrips(env, st, chunks);
  }

  lemma ChallengeDispatched(env: Env, start: int, timeout: int, f0: Bytes, client: Client) returns (d: Core)
    requires Welcome(env, f0, client)
    ensures var k := KeysSent(env);
            && Accepts(env, Fresh(start, timeout), f0, d)
            && d.session.deadline == Fresh(start, timeout).session.deadline
            && Opened(d, f0, client.name, k, ChallengeReply(k.public, k.salt, env.oracle(0).filler))
  {
    var c := Fresh(start, timeout);
    ChallengeIsHandled(env, c, f0);
    d := ChallengeOpens(env, c, f0, env.oracle(0));
  }

  lemma ChallengeIsHandled(env: Env, c: Core, f0: Bytes)
    requires c.session.status == Challenge && c.commands == [] && ChallengeFrame(f0)
    requires f0[0] == CMD_AUTH_LOGON_CHALLENGE
    ensures Dispatch(env, c, f0) == LogonChallenge(env, Entered(c, f0), f0, env.oracle(0))
  {
  }

  lemma ChallengeOpens(env: Env, c: Core, f0: Bytes, a: Answer) returns (d: Core)
    requires ChallengeFrame(f0) && !c.session.closed && c.commands == [] && c.trace == [] && |OsField(f0)| <= 4
    requires Refusal(BuildOf(f0), a).None?
    ensures LogonChallenge(env, Entered(c, f0), f0, a) == Outcome(d, true) && d.session.deadline == c.session.deadline
    ensures var k := KeysFor(env.sha, a); Opened(d, f0, AccountName(f0), k, ChallengeReply(k.public, k.salt, a.filler))
  {
    ChallengeLeaves(env, Entered(c, f0), f0, a);
    d := LogonChallenge(env, Entered(c, f0), f0, a).core;
    var k := KeysFor(env.sha, a);
    FirstEvents(c, d, f0, ChallengeReply(k.public, k.salt, a.filler));
  }

  lemma FirstEvents(c: Core, d: Core, f0: Bytes, reply: Bytes)
    requires f0 != [] && c.trace == [] && c.commands == []
    requires d.trace == Entered(c, f0).trace + [Sent(reply)] && d.commands == Entered(c, f0).commands
    ensures d.trace == [Dispatched(f0), Sent(reply)] && |d.commands| == 1
  {
  }

  /** The proof frame of the client that read the reply. */
  function HonestProof(env: Env, client: Client, crc: Digest, flags: byte): (f1: Bytes)
    requires env.oracle(0).account.Some?
    ensures |f1| == LOGON_PROOF_SIZE && f1[0] == CMD_AUTH_LOGON_PROOF
  {
    ProofFrame(env.sha, client, OfferOf(KeysSent(env)), crc, flags)
  }

  /** A proof has taken the session from `c` to `d`: the key is published under the name, and
      the reply carries `m2`. */
  predicate LogsOn(c: Core, d: Core, f1: Bytes, name: Bytes, key: nat, m2: Digest) {
    && d.session.status == Authenticated && !d.session.closed && d.session.key == key
    && d.trace == c.trace + [Dispatched(f1), Published(name, Some(key)), Sent(ProofReply(c.session.build, m2))]
  }

  lemma ProofDispatched(env: Env, c: Core, client: Client, crc: Digest, flags: byte) returns (e: Core)
    requires env.oracle(0).account.Some? && RowOf(env.sha, env.oracle(0).account.value, client.digest)
    requires c.session.status == LogonProof && !c.session.closed && KeysOf(c.session) == KeysSent(env)
    requires c.session.login == client.name && |c.commands| == 1
    requires Supported(c.session.build) && !ShouldPatch(env.policy, c.session.build, true) && env.oracle(1).published
    ensures var f1, offer := HonestProof(env, client, crc, flags), OfferOf(KeysSent(env));
            && Accepts(env, c, f1, e)
            && LogsOn(c, e, f1, client.name, FromLE(ClientKey(env.sha, client, offer)),
                      ClientM2(env.sha, client, offer))
  {
    var k, f1 := KeysSent(env), HonestProof(env, client, crc, flags);
    RowMakesKeys(env.sha, env.oracle(0), client.digest);
    HonestProofMatches(env.sha, k, client, crc, flags);
    e := MatchDispatched(env, c, f1, FromLE(ClientKey(env.sha, client, OfferOf(k))),
                         ClientM2(env.sha, client, OfferOf(k)));
  }

  lemma MatchDispatched(env: Env, c: Core, f1: Bytes, key: nat, m2: Digest) returns (e: Core)
    requires c.session.status == LogonProof && !c.session.closed && |c.commands| == 1
    requires FrameVerdict(LogonProof, f1) == Complete(|f1|)
    requires Judge(env.sha, c.session.login, KeysOf(c.session), f1) == Match(key, m2)
    requires Supported(c.session.build) && !ShouldPatch(env.policy, c.session.build, true) && env.oracle(1).published
    ensures Accepts(env, c, f1, e) && LogsOn(c, e, f1, c.session.login, key, m2)
  {
    ProofIsJudged(env, c, f1);
    JudgedLetsIn(env.policy, c, f1, key, m2, env.oracle(1));
    e := Dispatch(env, c, f1).core;
  }

  lemma ProofIsJudged(env: Env, c: Core, f1: Bytes)
    requires c.session.status == LogonProof && |c.commands| == 1 && FrameVerdict(LogonProof, f1) == Complete(|f1|)
    ensures |f1| == LOGON_PROOF_SIZE
    ensures Dispatch(env, c, f1)
         == Judged(env.policy, Entered(c, f1), env.oracle(1), Judge(env.sha, c.session.login, KeysOf(c.session), f1))
  {
    assert f1[0] == CMD_AUTH_LOGON_PROOF;
  }

  lemma JudgedLetsIn(policy: PatchPolicy, c: Core, f1: Bytes, key: nat, m2: Digest, a: Answer)
    requires f1 != [] && !c.session.closed && Supported(c.session.build) && !ShouldPatch(policy, c.session.build, true)
    requires a.published
    ensures var o := Judged(policy, Entered(c, f1), a, Match(key, m2));
            o.ok && LogsOn(c, o.core, f1, c.session.login, key, m2)
  {
    AcceptedIsAuthenticated(policy, Entered(c, f1), key, m2, a);
    ThreeEvents(c.trace, Dispatched(f1), Published(c.session.login, Some(key)), Sent(ProofReply(c.session.build, m2)));
  }

  lemma ThreeEvents(t: seq<Event>, x: Event, y: Event, z: Event)
    ensures t + [x] + [y, z] == t + [x, y, z]
  {
  }

  /** Two frames, both accepted, in any chunks. */
  lemma TwoFrames(env: Env, st: Stream, f0: Bytes, f1: Bytes, d: Core, e: Core, chunks: seq<Bytes>)
    requires st.Open() && st.pending == [] && NeverTrips(env, st, chunks) && Flatten(chunks) == f0 + f1
    requires Accepts(env, st.core, f0, d) && Accepts(env, d, f1, e)
    ensures Feed(env, st, chunks) == Stream(e, [])
  {
    ChunksAreOneStream(env, st, chunks);
    assert st.Append(f0 + f1).pending == f0 + f1;
    DrainFrame(env, st.Append(f0 + f1), f0, f1);
    assert f1 + [] == f1;
    DrainFrame(env, Stream(d, f1), f1, []);
    DrainNothing(env, Stream(e, []));
  }

  lemma DrainNothing(env: Env, st: Stream)
    requires st.pending == []
    ensures Drain(env, st) == st
  {
  }

  /** Challenge and honest proof, cut into chunks in any way: the socket ends authenticated,
      with nothing left over, and has published the client's own key under its name and sent
      the challenge reply and the M2 the client expects, and nothing else. */
  lemma HonestSessionAuthenticates(env: Env, start: int, timeout: int, f0: Bytes, client: Client, crc: Digest,
                                   flags: byte,
                                   chunks: seq<Bytes>)
    requires Welcome(env, f0, client)
    requires Supported(BuildOf(f0)) && !ShouldPatch(env.policy, BuildOf(f0), true) && env.oracle(1).published
    requires Flatten(chunks) == f0 + HonestProof(env, client, crc, flags)
    ensures var k, f1 := KeysSent(env), HonestProof(env, client, crc, flags);
            var reply, offer := ChallengeReply(k.public, k.salt, env.oracle(0).filler), OfferOf(k);
            var st := Feed(env, NewStream(start, timeout), chunks);
            && ReadOffer(reply) == Some(offer)
            && st.Open() && st.pending == [] && st.core.session.status == Authenticated
            && st.core.trace == [Dispatched(f0), Sent(reply), Dispatched(f1),
                                 Published(client.name, Some(FromLE(ClientKey(env.sha, client, offer)))),
                                 Sent(ProofReply(BuildOf(f0), ClientM2(env.sha, client, offer)))]
  {
    var k, f1 := KeysSent(env), HonestProof(env, client, crc, flags);
    ReplyIsReadBack(k.public, k.salt, env.oracle(0).filler);
    var d, e := HonestDispatches(env, start, timeout, f0, client, crc, flags);
    FitsPending(env, NewStream(start, timeout), f0, f1, chunks);
    TwoFrames(env, NewStream(start, timeout), f0, f1, d, e, chunks);
  }

  lemma HonestDispatches(env: Env, start: int, timeout: int, f0: Bytes, client: Client, crc: Digest, flags: byte)
    returns (d: Core, e: Core)
    requires Welcome(env, f0, client)
    requires Supported(BuildOf(f0)) && !ShouldPatch(env.policy, BuildOf(f0), true) && env.oracle(1).published
    ensures var k, f1 := KeysSent(env), HonestProof(env, client, crc, flags);
            && Accepts(env, Fresh(start, timeout), f0, d) && Accepts(env, d, f1, e)
            && d.session.deadline == Fresh(start, timeout).session.deadline
            && e.session.status == Authenticated
            && e.trace == [Dispatched(f0), Sent(ChallengeReply(k.public, k.salt, env.oracle(0).filler)), Dispatched(f1),
                           Published(client.name, Some(FromLE(ClientKey(env.sha, client, OfferOf(k))))),
                           Sent(ProofReply(BuildOf(f0), ClientM2(env.sha, client, OfferOf(k))))]
  {
    d := ChallengeDispatched(env, start, timeout, f0, client);
    e := ProofDispatched(env, d, client, crc, flags);
    var k := KeysSent(env);
    TraceOfBoth(d, e, f0, HonestProof(env, client, crc, flags), ChallengeReply(k.public, k.salt, env.oracle(0).filler),
                client.name, FromLE(ClientKey(env.sha, client, OfferOf(k))), ClientM2(env.sha, client, OfferOf(k)));
  }

  lemma TraceOfBoth(d: Core, e: Core, f0: Bytes, f1: Bytes, reply: Bytes, name: Bytes, key: nat, m2: Digest)
    requires d.trace == [Dispatched(f0), Sent(reply)] && LogsOn(d, e, f1, name, key, m2)
    ensures e.trace == [Dispatched(f0), Sent(reply), Dispatched(f1),
                        Published(name, Some(key)), Sent(ProofReply(d.session.build, m2))]
  {
  }
}
