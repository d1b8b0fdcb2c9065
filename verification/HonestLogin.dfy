/** End to end: an honest client reads the server's challenge reply off the wire, answers it,
    and is always accepted, whatever the hash computes and whichever bytes happen to be zero. */
module HonestLogin {
  import opened Wire
  import opened Arith
  import opened Guard
  import opened Srp6
  import opened BuildPolicy
  import opened AuthSession

  // ----- the client's side of the wire -----

  /** The client reads the successful challenge reply field by field. */
  function ReadOffer(reply: Bytes): Option<Offer> {
    if |reply| != 119 || reply[..3] != [0, 0, 0] || reply[35] != 1 || reply[37] != 32 || reply[118] != 0 then None
    else Some(Offer(reply[3..35], FromLE(reply[36..37]), FromLE(reply[38..70]), reply[70..102]))
  }

  function ProofFrame(sha: Hash, c: Client, o: Offer, crc: Digest, flags: byte): (f: Bytes)
    requires o.prime > 0
    ensures |f| == LOGON_PROOF_SIZE
  {
    [CMD_AUTH_LOGON_PROOF] + ToLE(ClientPublic(c, o), EPHEMERAL_WIDTH) + ClientM1(sha, c, o) + crc + [0] + [flags]
  }

  lemma ReplyIsReadBack(public: nat, salt: nat, filler: Bytes16)
    ensures ReadOffer(ChallengeReply(public, salt, filler))
         == Some(Offer(ToLE(public, EPHEMERAL_WIDTH), GENERATOR, PRIME, ToLE(salt, SALT_WIDTH)))
    ensures ChallengeReply(public, salt, filler)[102..118] == filler
  {
    var B, g, n, s := ToLE(public, EPHEMERAL_WIDTH), ToLE(GENERATOR, 1),
                      ToLE(PRIME, EPHEMERAL_WIDTH), ToLE(salt, SALT_WIDTH);
    FieldsOfReply(ChallengeReply(public, salt, filler), B, g, n, s, filler);
    PrimeFits();
    FromToLE(PRIME, EPHEMERAL_WIDTH);
    assert Pow(256, 1) == 256 by { assert Pow(256, 0) == 1; }
    FromToLE(GENERATOR, 1);
  }

  lemma FieldsOfReply(r: Bytes, B: Bytes, g: Bytes, n: Bytes, s: Bytes, filler: Bytes)
    requires |B| == 32 && |g| == 1 && |n| == 32 && |s| == 32 && |filler| == 16
    requires r == [CMD_AUTH_LOGON_CHALLENGE, 0, 0] + B + [GENERATOR_WIDTH] + g
                  + [EPHEMERAL_WIDTH] + n + s + filler + [0]
    ensures |r| == 119 && r[..3] == [CMD_AUTH_LOGON_CHALLENGE, 0, 0] && r[35] == 1 && r[37] == 32
    ensures r[3..35] == B && r[36..37] == g && r[38..70] == n && r[70..102] == s && r[102..118] == filler && r[118] == 0
  {
    assert r[36] == g[0];
  }

  lemma FieldsOfProof(f: Bytes, A: Bytes, m1: Bytes, crc: Bytes, flags: byte)
    requires |A| == 32 && |m1| == 20 && |crc| == 20
    requires f == [CMD_AUTH_LOGON_PROOF] + A + m1 + crc + [0] + [flags]
    ensures |f| == LOGON_PROOF_SIZE && f[1..33] == A && f[33..53] == m1 && FrameVerdict(LogonProof, f) == Complete(|f|)
  {
  }

  // ----- agreement on every derived value -----

  /** Keys a challenge fixed for an account whose row was made from `digest`. */
  predicate MadeFrom(sha: Hash, k: Keys, digest: Digest) {
    && k.verifier == Pow(7, FromLE(sha(ToLE(k.salt, 32) + digest))) % PRIME
    && k.public == ServerPublic(k.verifier, k.secret)
  }

  function OfferOf(k: Keys): Offer {
    Offer(ToLE(k.public, EPHEMERAL_WIDTH), GENERATOR, PRIME, ToLE(k.salt, SALT_WIDTH))
  }

  /** The agreement lemma in the handler's own formulas. */
  lemma HandlerSecretAgrees(v: nat, b: nat, a: nat, u: nat, x: nat)
    requires v == Pow(GENERATOR, x) % PRIME
    ensures u * x >= 0
    ensures ServerSecret(Pow(GENERATOR, a) % PRIME, v, u, b)
         == Pow(ServerPublic(v, b) - 3 * Pow(GENERATOR, x), a + u * x) % PRIME
  {
    SecretsAgree(GENERATOR, PRIME, a, b, u, x);
  }

  /** The client's secret, from the numbers it is made of. */
  lemma ClientSecretForm(sha: Hash, c: Client, k: Keys, x: nat, u: nat)
    requires k.public < PRIME && x == FromLE(sha(ToLE(k.salt, SALT_WIDTH) + c.digest))
    requires u == Scrambler(sha, ClientPublic(c, OfferOf(k)), k.public)
    ensures u * x >= 0
    ensures ClientSecret(sha, c, OfferOf(k)) == Pow(k.public - 3 * Pow(GENERATOR, x), c.a + u * x) % PRIME
  {
    PublicIsRead(k.public);
    ClientSecretOf(sha, c, OfferOf(k), x, u);
  }

  /** What the client computes from any offer. */
  lemma ClientSecretOf(sha: Hash, c: Client, o: Offer, x: nat, u: nat)
    requires o.prime > 0 && x == FromLE(sha(o.salt + c.digest))
    requires u == FromLE(sha(ToLE(ClientPublic(c, o), EPHEMERAL_WIDTH) + o.publicKey))
    ensures u * x >= 0
    ensures ClientSecret(sha, c, o) == Pow(FromLE(o.publicKey) - 3 * Pow(o.generator, x), c.a + u * x) % o.prime
  {
  }

  lemma PublicIsRead(B: nat)
    requires B < PRIME
    ensures FromLE(ToLE(B, EPHEMERAL_WIDTH)) == B
  {
    PrimeFits();
    FromToLE(B, EPHEMERAL_WIDTH);
  }

  lemma SameSecret(sha: Hash, k: Keys, c: Client)
    requires MadeFrom(sha, k, c.digest)
    ensures var A := ClientPublic(c, OfferOf(k));
            ServerSecret(A, k.verifier, Scrambler(sha, A, k.public), k.secret) == ClientSecret(sha, c, OfferOf(k))
  {
    var x := FromLE(sha(ToLE(k.salt, SALT_WIDTH) + c.digest));
    var u := Scrambler(sha, ClientPublic(c, OfferOf(k)), k.public);
    HandlerSecretAgrees(k.verifier, k.secret, c.a, u, x);
    ClientSecretForm(sha, c, k, x, u);
  }

  lemma SameKey(sha: Hash, k: Keys, c: Client)
    requires MadeFrom(sha, k, c.digest)
    ensures var A := ClientPublic(c, OfferOf(k));
            && SessionKey(sha, A, k.verifier, k.secret, k.public) == FromLE(ClientKey(sha, c, OfferOf(k)))
            && ToLE(SessionKey(sha, A, k.verifier, k.secret, k.public), SESSION_KEY_WIDTH)
               == ClientKey(sha, c, OfferOf(k))
  {
    SameSecret(sha, k, c);
    InterleaveIsStandard(sha, ToLE(ClientSecret(sha, c, OfferOf(k)), EPHEMERAL_WIDTH));
    ToFromLE(ClientKey(sha, c, OfferOf(k)));
  }

  lemma SameProof(sha: Hash, k: Keys, c: Client)
    requires MadeFrom(sha, k, c.digest)
    ensures var A, o := ClientPublic(c, OfferOf(k)), OfferOf(k);
            var K := SessionKey(sha, A, k.verifier, k.secret, k.public);
            var M := ServerProofNumber(sha, c.name, k.salt, A, k.public, K);
            && ToLE(M, DIGEST_WIDTH) == ClientM1(sha, c, o)
            && ServerReplyDigest(sha, A, M, K) == ClientM2(sha, c, o)
  {
    SameKey(sha, k, c);
    GroupDigestIsHash(sha, PRIME, GENERATOR);
    ToFromLE(GroupDigest(sha, PRIME, GENERATOR));
    ToFromLE(ClientM1(sha, c, OfferOf(k)));
  }

  // ----- the theorem -----

  /** The account row belongs to the client's password: its stored verifier was made from the
      digest or, if there is none, its hash column is the digest in hexadecimal. */
  predicate RowOf(sha: Hash, row: AccountRow, digest: Digest) {
    match row.stored
    case Some(st) => st.v == Pow(7, FromLE(sha(st.salt + digest))) % PRIME
    case None => row.passHash == FromLE(Reverse(digest))
  }

  lemma RowMakesKeys(sha: Hash, a: Answer, digest: Digest)
    requires a.account.Some? && RowOf(sha, a.account.value, digest)
    ensures MadeFrom(sha, KeysFor(sha, a), digest)
  {
    StoredDigestRestored(digest);
    if a.account.value.stored.Some? { ToFromLE(a.account.value.stored.value.salt); }
  }

  /** The server's judgement on an honest proof: A is not zero, M1 matches, and the key and
      M2 are the client's own. */
  lemma HonestProofMatches(sha: Hash, k: Keys, client: Client, crc: Digest, flags: byte)
    requires MadeFrom(sha, k, client.digest)
    ensures var o := OfferOf(k);
            var f1 := ProofFrame(sha, client, o, crc, flags);
            && FrameVerdict(LogonProof, f1) == Complete(|f1|) && ProofA(f1) % PRIME != 0
            && Judge(sha, client.name, k, f1) == Match(FromLE(ClientKey(sha, client, o)), ClientM2(sha, client, o))
  {
    var o := OfferOf(k);
    var A, f1 := ClientPublic(client, o), ProofFrame(sha, client, o, crc, flags);
    FieldsOfProof(f1, ToLE(A, EPHEMERAL_WIDTH), ClientM1(sha, client, o), crc, flags);
    PrimeFits();
    FromToLE(A, EPHEMERAL_WIDTH);
    GeneratorPowersAreNonZero(client.a);
    RemainderIsUnique(A, PRIME, 0, A);
    SameKey(sha, k, client);
    SameProof(sha, k, client);
  }

  /** An accepted challenge: the session waits for the proof of these keys, and the last thing
      sent is the reply the client reads its offer from. */
  lemma ChallengeLeaves(env: Env, c: Core, f0: Bytes, a: Answer)
    requires ChallengeFrame(f0) && !c.session.closed && |OsField(f0)| <= 4 && Refusal(BuildOf(f0), a).None?
    ensures var k, d := KeysFor(env.sha, a), LogonChallenge(env, c, f0, a).core;
            && d.session.status == LogonProof && !d.session.closed && KeysOf(d.session) == k
            && d.session.login == AccountName(f0) && d.session.build == BuildOf(f0)
            && LogonChallenge(env, c, f0, a).ok && d.commands == c.commands && d.session.deadline == c.session.deadline
            && d.trace == c.trace + [Sent(ChallengeReply(k.public, k.salt, a.filler))]
  {
  }

  /** An honest client never trips the zero check, its M1 passes the comparison, and if the
      build is taken and the key can be published, it gets exactly the M2 it expects. */
  lemma HonestLogonVerifies(env: Env, c: Core, f0: Bytes, a0: Answer, a1: Answer, client: Client, crc: Digest,
                            flags: byte)
    requires ChallengeFrame(f0) && !c.session.closed && |OsField(f0)| <= 4 && client.name == AccountName(f0)
    requires Refusal(BuildOf(f0), a0).None? && RowOf(env.sha, a0.account.value, client.digest)
    ensures var d := LogonChallenge(env, c, f0, a0).core;
            && d.trace != [] && d.trace[|d.trace| - 1].Sent?
            && var offer := ReadOffer(d.trace[|d.trace| - 1].bytes);
            && offer.Some? && offer.value.prime > 0
            && var f1 := ProofFrame(env.sha, client, offer.value, crc, flags);
            && FrameVerdict(d.session.status, f1) == Complete(|f1|) && ProofA(f1) % PRIME != 0
            && LogonProofStep(env, d, f1, a1)
               == ProofAccepted(env.policy, Keyed(d, FromLE(ClientKey(env.sha, client, offer.value))),
                                ClientM2(env.sha, client, offer.value), a1)
  {
    var k := KeysFor(env.sha, a0);
    ChallengeLeaves(env, c, f0, a0);
    ReplyIsReadBack(k.public, k.salt, a0.filler);
    RowMakesKeys(env.sha, a0, client.digest);
    HonestProofMatches(env.sha, k, client, crc, flags);
  }

  /** And an accepted proof of a supported build that is not to be patched ends authenticated,
      once the key is published, with the given M2 as the last thing sent. */
  lemma AcceptedIsAuthenticated(policy: PatchPolicy, c: Core, key: nat, m2: Digest, a: Answer)
    requires !c.session.closed && Supported(c.session.build) && !ShouldPatch(policy, c.session.build, true)
    requires a.published
    ensures var o := ProofAccepted(policy, Keyed(c, key), m2, a);
            && o.ok && o.core.session.status == Authenticated && !o.core.session.closed && o.core.session.key == key
            && o.core.session.login == c.session.login
            && o.core.trace == c.trace + [Published(c.session.login, Some(key)), Sent(ProofReply(c.session.build, m2))]
            && |ProofReply(c.session.build, m2)| >= 22 && ProofReply(c.session.build, m2)[2..22] == m2
  {
    ProofReplyCarries(c.session.build, m2);
  }

  lemma ProofReplyCarries(build: nat, m2: Digest)
    ensures |ProofReply(build, m2)| >= 22 && ProofReply(build, m2)[2..22] == m2
  {
  }

  // ----- reconnect -----

  function ReconnectFrame(sha: Hash, name: Bytes, key: Bytes, reply: Bytes, r1: Bytes16, r3: Digest): (f: Bytes)
    requires |reply| >= 18
    ensures |f| == RECONNECT_PROOF_SIZE
  {
    [CMD_AUTH_RECONNECT_PROOF] + r1 + sha(name + r1 + reply[2..18] + key) + r3 + [0]
  }

  lemma FieldsOfReconnect(f: Bytes, r1: Bytes, r2: Bytes, r3: Bytes)
    requires |r1| == 16 && |r2| == 20 && |r3| == 20
    requires f == [CMD_AUTH_RECONNECT_PROOF] + r1 + r2 + r3 + [0]
    ensures |f| == RECONNECT_PROOF_SIZE && f[1..17] == r1 && f[17..37] == r2
    ensures FrameVerdict(ReconnectProof, f) == Complete(|f|)
  {
  }

  /** An honest reconnect passes exactly when neither the random nonce nor the key is zero:
      the handler takes a zero number for a missing one. */
  lemma HonestReconnectIff(env: Env, s: Session, key: Bytes, nonce: Bytes16, r1: Bytes16, r3: Digest)
    requires |key| == SESSION_KEY_WIDTH && s.login != [] && s.key == FromLE(key) && s.nonce == FromLE(nonce)
    ensures var f := ReconnectFrame(env.sha, s.login, key, ReconnectReply(s.nonce), r1, r3);
            && FrameVerdict(ReconnectProof, f) == Complete(|f|)
            && (ReconnectMatches(env, s, f) <==> FromLE(nonce) != 0 && FromLE(key) != 0)
  {
    var reply := ReconnectReply(s.nonce);
    assert reply[2..18] == ToLE(s.nonce, RECONNECT_WIDTH);
    ToFromLE(nonce);
    ToFromLE(r1);
    ToFromLE(key);
    var r2 := env.sha(s.login + r1 + reply[2..18] + key);
    FieldsOfReconnect(ReconnectFrame(env.sha, s.login, key, reply, r1, r3), r1, r2, r3);
    assert ReconnectTranscript(s.login, FromLE(r1), s.nonce, s.key) == s.login + r1 + nonce + key;
  }
}
