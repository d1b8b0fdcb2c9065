/** Every number the server puts into a transcript fits the width at which it is hashed, in
    every run; so transcripts of any two sockets coincide only when their fields do. */
module Widths {
  import opened Wire
  import opened Arith
  import opened Guard
  import opened Srp6
  import opened BuildPolicy
  import opened AuthSession
  import opened AuthStream
  import opened AuthRuns

  predicate Fits(n: nat, w: nat) { n < Pow(256, w) }

  /** The session numbers that go into transcripts, and the commands dispatched so far. */
  datatype Numbers = Numbers(salt: nat, public: nat, nonce: nat, key: nat, commands: seq<byte>)

  function NumbersOf(c: Core): Numbers {
    Numbers(c.session.salt, c.session.public, c.session.nonce, c.session.key, c.commands)
  }

  /** All fit, except that a key the database gave to a reconnect may be wider. */
  predicate AllFit(env: Env, n: Numbers) {
    && Fits(n.salt, SALT_WIDTH) && Fits(n.public, EPHEMERAL_WIDTH) && Fits(n.nonce, RECONNECT_WIDTH)
    && (|| Fits(n.key, SESSION_KEY_WIDTH)
        || (n.commands != [] && n.commands[0] == CMD_AUTH_RECONNECT_CHALLENGE
            && env.oracle(0).sessionKey == Some(n.key)))
  }

  // ----- what the server computes fits -----

  lemma KeysFit(sha: Hash, a: Answer)
    requires a.account.Some?
    ensures Fits(KeysFor(sha, a).salt, SALT_WIDTH) && Fits(KeysFor(sha, a).public, EPHEMERAL_WIDTH)
  {
    FromLEBound(a.salt);
    if a.account.value.stored.Some? { FromLEBound(a.account.value.stored.value.salt); }
    PrimeFits();
  }

  lemma BytesFit(bs: Bytes, w: nat)
    requires |bs| == w
    ensures Fits(FromLE(bs), w)
  {
    FromLEBound(bs);
  }

  lemma SessionKeyFits(sha: Hash, A: nat, v: nat, b: nat, B: nat)
    ensures Fits(SessionKey(sha, A, v, b, B), SESSION_KEY_WIDTH)
  {
    BytesFit(Interleave(sha, ToLE(ServerSecret(A, v, Scrambler(sha, A, B), b), EPHEMERAL_WIDTH)), SESSION_KEY_WIDTH);
  }

  lemma ProofNumberFits(sha: Hash, login: Bytes, s: nat, A: nat, B: nat, K: nat)
    ensures Fits(ServerProofNumber(sha, login, s, A, B, K), DIGEST_WIDTH)
    ensures Fits(FromLE(GroupDigest(sha, PRIME, GENERATOR)), DIGEST_WIDTH)
  {
    var g := GroupDigest(sha, PRIME, GENERATOR);
    BytesFit(g, DIGEST_WIDTH);
    BytesFit(sha(ProofTranscript(FromLE(g), sha(login), s, A, B, K)), DIGEST_WIDTH);
  }

  /** K and M of a proof frame, and the A it carries. */
  lemma ProofFits(sha: Hash, login: Bytes, k: Keys, f: Bytes)
    requires |f| == LOGON_PROOF_SIZE
    ensures Fits(ExpectedKey(sha, k, f), SESSION_KEY_WIDTH) && Fits(ExpectedM(sha, login, k, f), DIGEST_WIDTH)
    ensures Fits(ProofA(f), EPHEMERAL_WIDTH) && Fits(FromLE(GroupDigest(sha, PRIME, GENERATOR)), DIGEST_WIDTH)
  {
    SessionKeyFits(sha, ProofA(f), k.verifier, k.secret, k.public);
    ProofNumberFits(sha, login, k.salt, ProofA(f), k.public, ExpectedKey(sha, k, f));
    BytesFit(f[1..33], EPHEMERAL_WIDTH);
  }

  // ----- what each handler does to the numbers -----

  lemma OpenChallengeNumbers(c: Core, f: Bytes, a: Answer, k: Keys)
    requires ChallengeFrame(f) && a.account.Some?
    ensures NumbersOf(OpenChallenge(c, f, a, k)) == NumbersOf(c).(salt := k.salt, public := k.public)
  {
  }

  lemma LogonChallengeNumbers(env: Env, c: Core, f: Bytes, a: Answer)
    requires ChallengeFrame(f)
    ensures var n := NumbersOf(LogonChallenge(env, c, f, a).core);
            || n == NumbersOf(c)
            || (a.account.Some?
                && n == NumbersOf(c).(salt := KeysFor(env.sha, a).salt, public := KeysFor(env.sha, a).public))
  {
    if |OsField(f)| <= 4 && Refusal(BuildOf(f), a).None? {
      var c2, k := OsRestored(WithIdentity(c, f)), KeysFor(env.sha, a);
      assert LogonChallenge(env, c, f, a).core == OpenChallenge(c2, f, a, k);
      OpenChallengeNumbers(c2, f, a, k);
    }
  }

  lemma ReconnectChallengeNumbers(c: Core, f: Bytes, a: Answer)
    requires ChallengeFrame(f)
    ensures var n := NumbersOf(ReconnectChallenge(c, f, a).core);
            || n == NumbersOf(c)
            || (a.sessionKey.Some? && n == NumbersOf(c).(nonce := FromLE(a.nonce), key := a.sessionKey.value))
  {
  }

  lemma JudgedNumbers(policy: PatchPolicy, c: Core, a: Answer, j: Judgement)
    ensures NumbersOf(Judged(policy, c, a, j).core)
         == if j.ZeroA? then NumbersOf(c) else NumbersOf(c).(key := j.key)
  {
  }

  lemma OtherNumbers(env: Env, c: Core, f: Bytes, a: Answer, offset: nat)
    ensures |f| == RECONNECT_PROOF_SIZE ==>
              NumbersOf(ReconnectProofStep(env, c, f, a).core) == NumbersOf(c)
    ensures NumbersOf(RealmListStep(c, a).core) == NumbersOf(c)
    ensures NumbersOf(BeginPatchStream(c, offset).core) == NumbersOf(c)
    ensures NumbersOf(Close(c)) == NumbersOf(c)
  {
  }

  // ----- every run -----

  lemma LogonChallengeFits(env: Env, c: Core, f: Bytes)
    requires AllFit(env, NumbersOf(c)) && ChallengeFrame(f)
    ensures AllFit(env, NumbersOf(LogonChallenge(env, c, f, env.oracle(0)).core))
  {
    LogonChallengeNumbers(env, c, f, env.oracle(0));
    if env.oracle(0).account.Some? { KeysFit(env.sha, env.oracle(0)); }
  }

  lemma ReconnectChallengeFits(env: Env, c: Core, f: Bytes)
    requires AllFit(env, NumbersOf(c)) && ChallengeFrame(f) && c.commands == [CMD_AUTH_RECONNECT_CHALLENGE]
    ensures AllFit(env, NumbersOf(ReconnectChallenge(c, f, env.oracle(0)).core))
  {
    ReconnectChallengeNumbers(c, f, env.oracle(0));
    FromLEBound(env.oracle(0).nonce);
  }

  lemma JudgedKeyFits(sha: Hash, login: Bytes, k: Keys, f: Bytes)
    requires |f| == LOGON_PROOF_SIZE
    ensures var j := Judge(sha, login, k, f); j.ZeroA? || Fits(j.key, SESSION_KEY_WIDTH)
  {
    ProofFits(sha, login, k, f);
  }

  lemma JudgedFits(env: Env, c: Core, a: Answer, j: Judgement)
    requires AllFit(env, NumbersOf(c)) && (j.ZeroA? || Fits(j.key, SESSION_KEY_WIDTH))
    ensures AllFit(env, NumbersOf(Judged(env.policy, c, a, j).core))
  {
    JudgedNumbers(env.policy, c, a, j);
  }

  lemma LogonProofFits(env: Env, c: Core, f: Bytes, a: Answer)
    requires AllFit(env, NumbersOf(c)) && |f| == LOGON_PROOF_SIZE
    ensures AllFit(env, NumbersOf(LogonProofStep(env, c, f, a).core))
  {
    JudgedKeyFits(env.sha, c.session.login, KeysOf(c.session), f);
    JudgedFits(env, c, a, Judge(env.sha, c.session.login, KeysOf(c.session), f));
  }

  lemma EnteredFits(env: Env, c: Core, f: Bytes)
    requires AllFit(env, NumbersOf(c)) && f != []
    ensures AllFit(env, NumbersOf(Entered(c, f)))
  {
  }

  lemma OtherHandled(env: Env, c: Core, f: Bytes, a: Answer)
    requires FrameVerdict(c.session.status, f) == Complete(|f|)
    requires f[0] !in {CMD_AUTH_LOGON_CHALLENGE, CMD_AUTH_RECONNECT_CHALLENGE, CMD_AUTH_LOGON_PROOF}
    ensures NumbersOf(Handle(env, c, f, a).core) == NumbersOf(c)
  {
    OtherNumbers(env, c, f, a, if f[0] == CMD_XFER_RESUME then FromLE(f[1..9]) else 0);
  }

  lemma HandleFits(env: Env, c: Core, f: Bytes, a: Answer)
    requires FrameVerdict(c.session.status, f) == Complete(|f|) && AllFit(env, NumbersOf(c))
    requires c.session.status == Challenge ==> c.commands == [f[0]] && a == env.oracle(0)
    ensures AllFit(env, NumbersOf(Handle(env, c, f, a).core))
  {
    var d := Handle(env, c, f, a).core;
    if f[0] == CMD_AUTH_LOGON_CHALLENGE {
      assert d == LogonChallenge(env, c, f, a).core;
      LogonChallengeFits(env, c, f);
    } else if f[0] == CMD_AUTH_RECONNECT_CHALLENGE {
      assert d == ReconnectChallenge(c, f, a).core;
      ReconnectChallengeFits(env, c, f);
    } else if f[0] == CMD_AUTH_LOGON_PROOF {
      assert d == LogonProofStep(env, c, f, a).core;
      LogonProofFits(env, c, f, a);
    } else {
      OtherHandled(env, c, f, a);
    }
  }

  /** A pass changes the numbers only through its handler, no other step at all. */
  lemma StepNumbers(env: Env, st: Stream, input: Input)
    ensures var d, v := NumbersOf(Step(env, st, input).core), st.Verdict();
            if input.Pass? && st.Open() && v.Complete?
            then v.size <= |st.pending| &&
                 FrameVerdict(st.core.session.status, st.pending[..v.size]) == Complete(v.size)
                 && d == NumbersOf(Dispatch(env, st.core, st.pending[..v.size]).core)
            else d == NumbersOf(st.core)
  {
    CompleteIsPositive(st);
    if st.Verdict().Complete? { CompleteIsLocal(st.core.session.status, st.pending); }
  }

  lemma StepFits(env: Env, st: Stream, input: Input)
    requires Control(st.core) && AllFit(env, NumbersOf(st.core))
    ensures AllFit(env, NumbersOf(Step(env, st, input).core))
  {
    StepNumbers(env, st, input);
    if input.Pass? && st.Open() && st.Verdict().Complete? {
      DispatchFits(env, st.core, st.pending[..st.Verdict().size]);
    }
  }

  lemma DispatchFits(env: Env, c: Core, f: Bytes)
    requires Control(c) && AllFit(env, NumbersOf(c)) && FrameVerdict(c.session.status, f) == Complete(|f|)
    ensures AllFit(env, NumbersOf(Dispatch(env, c, f).core))
  {
    EnteredFits(env, c, f);
    HandleFits(env, Entered(c, f), f, env.oracle(|c.commands|));
  }

  lemma {:induction false} RunFits(env: Env, start: int, timeout: int, inputs: seq<Input>)
    ensures AllFit(env, NumbersOf(Run(env, NewStream(start, timeout), inputs).core))
    decreases |inputs|
  {
    if inputs == [] {
      NothingFits(env, start, timeout);
    } else {
      var n := |inputs| - 1;
      var st := Run(env, NewStream(start, timeout), inputs[..n]);
      RunFits(env, start, timeout, inputs[..n]);
      RunKeeps(env, start, timeout, inputs[..n]);
      StepFits(env, st, inputs[n]);
    }
  }

  lemma NothingFits(env: Env, start: int, timeout: int)
    ensures AllFit(env, NumbersOf(Fresh(start, timeout)))
  {
  }

  /** The key a reconnect proof is held against is the database's. */
  lemma AwaitedKey(env: Env, c: Core)
    requires Inv(ClaimsOf(env), c) && c.session.status == ReconnectProof
    ensures env.oracle(0).sessionKey == Some(c.session.key)
  {
    assert ClaimsOf(env).reconnectOpened(FixedOf(c.session), c.trace[0].frame, c.trace[1].bytes);
  }

  /** Salt, B and nonce fit their widths, and so does the key of every session that did not
      take it from the database; one that waits for a reconnect proof fits exactly when the
      database's does. */
  predicate WidthsHold(env: Env, c: Core) {
    && Fits(c.session.salt, SALT_WIDTH) && Fits(c.session.public, EPHEMERAL_WIDTH)
    && Fits(c.session.nonce, RECONNECT_WIDTH)
    && (c.commands == [] || c.commands[0] != CMD_AUTH_RECONNECT_CHALLENGE ==> Fits(c.session.key, SESSION_KEY_WIDTH))
    && (c.session.status == ReconnectProof ==>
          env.oracle(0).sessionKey.Some?
          && (Fits(c.session.key, SESSION_KEY_WIDTH) <==> Fits(env.oracle(0).sessionKey.value, SESSION_KEY_WIDTH)))
  }

  /** They do in every run. */
  lemma ServerNumbersFit(env: Env, start: int, timeout: int, inputs: seq<Input>)
    ensures WidthsHold(env, Run(env, NewStream(start, timeout), inputs).core)
  {
    RunFits(env, start, timeout, inputs);
    RunKeeps(env, start, timeout, inputs);
    var c := Run(env, NewStream(start, timeout), inputs).core;
    if c.session.status == ReconnectProof { AwaitedKey(env, c); }
  }

  // ----- transcripts of sockets -----

  /** The bytes a waiting session hashes for a proof frame. */
  function LogonTranscript(sha: Hash, s: Session, f: Bytes): Bytes
    requires |f| == LOGON_PROOF_SIZE
  {
    ProofTranscript(FromLE(GroupDigest(sha, PRIME, GENERATOR)), sha(s.login), s.salt, ProofA(f), s.public,
                    ExpectedKey(sha, KeysOf(s), f))
  }

  lemma FittingTranscriptsDiffer(sha: Hash, s: Session, f: Bytes, sha': Hash, s': Session, f': Bytes)
    requires |f| == LOGON_PROOF_SIZE && |f'| == LOGON_PROOF_SIZE
    requires Fits(s.salt, SALT_WIDTH) && Fits(s'.salt, SALT_WIDTH)
    requires Fits(s.public, EPHEMERAL_WIDTH) && Fits(s'.public, EPHEMERAL_WIDTH)
    requires LogonTranscript(sha, s, f) == LogonTranscript(sha', s', f')
    ensures sha(s.login) == sha'(s'.login) && s.salt == s'.salt && s.public == s'.public && ProofA(f) == ProofA(f')
    ensures ExpectedKey(sha, KeysOf(s), f) == ExpectedKey(sha', KeysOf(s'), f')
  {
    ProofFits(sha, s.login, KeysOf(s), f);
    ProofFits(sha', s'.login, KeysOf(s'), f');
    ProofTranscriptInjective(FromLE(GroupDigest(sha, PRIME, GENERATOR)), sha(s.login), s.salt, ProofA(f), s.public,
                             ExpectedKey(sha, KeysOf(s), f),
                             FromLE(GroupDigest(sha', PRIME, GENERATOR)), sha'(s'.login), s'.salt, ProofA(f'),
                             s'.public,
                             ExpectedKey(sha', KeysOf(s'), f'));
  }

  /** Any two sockets in any two runs hash the same M1 input only when the name hashes, salts,
      A, B and keys are all the same. */
  lemma LogonTranscriptsDiffer(env: Env, start: int, timeout: int, inputs: seq<Input>, f: Bytes,
                               env': Env, start': int, timeout': int, inputs': seq<Input>, f': Bytes)
    requires |f| == LOGON_PROOF_SIZE && |f'| == LOGON_PROOF_SIZE
    requires LogonTranscript(env.sha, Run(env, NewStream(start, timeout), inputs).core.session, f)
          == LogonTranscript(env'.sha, Run(env', NewStream(start', timeout'), inputs').core.session, f')
    ensures var s, s' := Run(env, NewStream(start, timeout), inputs).core.session,
                         Run(env', NewStream(start', timeout'), inputs').core.session;
            && env.sha(s.login) == env'.sha(s'.login) && s.salt == s'.salt && s.public == s'.public
            && ProofA(f) == ProofA(f') && ExpectedKey(env.sha, KeysOf(s), f) == ExpectedKey(env'.sha, KeysOf(s'), f')
  {
    RunFits(env, start, timeout, inputs);
    RunFits(env', start', timeout', inputs');
    FittingTranscriptsDiffer(env.sha, Run(env, NewStream(start, timeout), inputs).core.session, f,
                             env'.sha, Run(env', NewStream(start', timeout'), inputs').core.session, f');
  }

  /** Two sessions hash the same reconnect input exactly when name, both nonces and the keys
      modulo 40 bytes are the same; for keys that fit, when the keys are. */
  predicate SameExactly(s: Session, r1: Bytes16, s': Session, r1': Bytes16) {
    var same := ReconnectTranscript(s.login, FromLE(r1), s.nonce, s.key)
             == ReconnectTranscript(s'.login, FromLE(r1'), s'.nonce, s'.key);
    && (same <==> && s.login == s'.login && r1 == r1' && s.nonce == s'.nonce
                  && s.key % Pow(256, SESSION_KEY_WIDTH) == s'.key % Pow(256, SESSION_KEY_WIDTH))
    && (Fits(s.key, SESSION_KEY_WIDTH) && Fits(s'.key, SESSION_KEY_WIDTH) && same ==> s.key == s'.key)
  }

  /** This holds for any two sockets in any two runs. */
  lemma ReconnectTranscriptsSameIff(env: Env, start: int, timeout: int, inputs: seq<Input>, r1: Bytes16,
                                    env': Env, start': int, timeout': int, inputs': seq<Input>, r1': Bytes16)
    ensures SameExactly(Run(env, NewStream(start, timeout), inputs).core.session, r1,
                        Run(env', NewStream(start', timeout'), inputs').core.session, r1')
  {
    RunFits(env, start, timeout, inputs);
    RunFits(env', start', timeout', inputs');
    FittingReconnectSameIff(Run(env, NewStream(start, timeout), inputs).core.session, r1,
                            Run(env', NewStream(start', timeout'), inputs').core.session, r1');
  }

  lemma FittingReconnectSameIff(s: Session, r1: Bytes16, s': Session, r1': Bytes16)
    requires Fits(s.nonce, RECONNECT_WIDTH) && Fits(s'.nonce, RECONNECT_WIDTH)
    ensures SameExactly(s, r1, s', r1')
  {
    ReconnectTranscriptSameIff(s.login, FromLE(r1), s.nonce, s.key, s'.login, FromLE(r1'), s'.nonce, s'.key);
    BytesFit(r1, RECONNECT_WIDTH);
    BytesFit(r1', RECONNECT_WIDTH);
    ToFromLE(r1);
    ToFromLE(r1');
    FittingRemainder(FromLE(r1), FromLE(r1'), RECONNECT_WIDTH);
    FittingRemainder(s.nonce, s'.nonce, RECONNECT_WIDTH);
    if Fits(s.key, SESSION_KEY_WIDTH) && Fits(s'.key, SESSION_KEY_WIDTH) {
      FittingRemainder(s.key, s'.key, SESSION_KEY_WIDTH);
    }
  }

  lemma FittingRemainder(m: nat, n: nat, w: nat)
    requires Fits(m, w) && Fits(n, w)
    ensures m % Pow(256, w) == n % Pow(256, w) <==> m == n
  {
    RemainderIsUnique(m, Pow(256, w), 0, m);
    RemainderIsUnique(n, Pow(256, w), 0, n);
  }
}
