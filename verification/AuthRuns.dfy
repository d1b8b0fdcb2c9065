/** What holds in every run of one socket, however chunks, loop passes, deadline checks and
    transport closes are interleaved. */
module AuthRuns {
  import opened Wire
  import opened Guard
  import opened Srp6
  import opened BuildPolicy
  import opened AuthSession
  import opened AuthStream
  import PatchStream

  /** The atomic steps of a socket: a chunk arrives, the loop makes one pass, the sweep checks
      the deadline and closes at once, the transport reports the peer gone, or the sweep closes
      the socket, whenever it was that it looked at the deadline. */
  datatype Input = Chunk(bytes: Bytes) | Pass | Tick(now: int) | PeerGone | Shut

  function Step(env: Env, st: Stream, input: Input): Stream {
    match input
    case Chunk(bytes) => Receive(st, bytes)
    case Pass => Iterate(env, st)
    case Tick(now) => st.(core := Expire(st.core, now))
    case PeerGone => st.(core := PeerClose(st.core))
    case Shut => st.(core := Close(st.core))
  }

  function Run(env: Env, st: Stream, inputs: seq<Input>): Stream
    decreases |inputs|
  {
    if inputs == [] then st else Step(env, Run(env, st, inputs[..|inputs| - 1]), inputs[|inputs| - 1])
  }

  lemma {:induction false} RunConcat(env: Env, st: Stream, xs: seq<Input>, ys: seq<Input>)
    ensures Run(env, st, xs + ys) == Run(env, Run(env, st, xs), ys)
    decreases |ys|
  {
    if ys == [] {
      assert xs + ys == xs;
    } else {
      assert (xs + ys)[..|xs + ys| - 1] == xs + ys[..|ys| - 1];
      RunConcat(env, st, xs, ys[..|ys| - 1]);
    }
  }

  /** A call of `onData` is one such run: the chunk, then passes until nothing is left. */
  lemma OnDataIsARun(env: Env, st: Stream, chunk: Bytes) returns (inputs: seq<Input>)
    ensures Run(env, st, inputs) == OnData(env, st, chunk)
  {
    var passes := DrainIsARun(env, Receive(st, chunk));
    assert Run(env, st, [Chunk(chunk)]) == Step(env, Run(env, st, []), Chunk(chunk));
    RunConcat(env, st, [Chunk(chunk)], passes);
    inputs := [Chunk(chunk)] + passes;
  }

  lemma {:induction false} DrainIsARun(env: Env, st: Stream) returns (passes: seq<Input>)
    ensures Run(env, st, passes) == Drain(env, st)
    decreases |st.pending|
  {
    if Settled(st) {
      passes := [];
    } else {
      CompleteIsPositive(st);
      var more := DrainIsARun(env, Iterate(env, st));
      assert Run(env, st, [Pass]) == Step(env, Run(env, st, []), Pass);
      RunConcat(env, st, [Pass], more);
      passes := [Pass] + more;
    }
  }

  // ----- what each status says about the past -----

  predicate RealmReply(e: Event) { e.Sent? && e.bytes != [] && e.bytes[0] == CMD_REALM_LIST }

  predicate RealmRequest(e: Event) { e.Dispatched? && e.frame != [] && e.frame[0] == CMD_REALM_LIST }

  predicate ProofRequest(e: Event) {
    e.Dispatched? && e.frame != [] && (e.frame[0] == CMD_AUTH_LOGON_PROOF || e.frame[0] == CMD_AUTH_RECONNECT_PROOF)
  }

  /** The command sequences a socket can have dispatched, by status. */
  predicate Language(s: Session, cmds: seq<byte>) {
    match s.status
    case Challenge => cmds == []
    case LogonProof => cmds == [CMD_AUTH_LOGON_CHALLENGE]
    case ReconnectProof => cmds == [CMD_AUTH_RECONNECT_CHALLENGE]
    case Patch =>
      || cmds == [CMD_AUTH_LOGON_CHALLENGE, CMD_AUTH_LOGON_PROOF]
      || (s.closed && cmds == [CMD_AUTH_LOGON_CHALLENGE, CMD_AUTH_LOGON_PROOF, CMD_XFER_CANCEL])
    case Authenticated =>
      && |cmds| >= 2
      && (cmds[..2] == [CMD_AUTH_LOGON_CHALLENGE, CMD_AUTH_LOGON_PROOF]
          || cmds[..2] == [CMD_AUTH_RECONNECT_CHALLENGE, CMD_AUTH_RECONNECT_PROOF])
      && forall i :: 2 <= i < |cmds| ==> cmds[i] == CMD_REALM_LIST
    case Closed =>
      || cmds == [CMD_AUTH_LOGON_CHALLENGE]
      || cmds == [CMD_AUTH_RECONNECT_CHALLENGE]
      || cmds == [CMD_AUTH_LOGON_CHALLENGE, CMD_AUTH_LOGON_PROOF]
      || cmds == [CMD_AUTH_RECONNECT_CHALLENGE, CMD_AUTH_RECONNECT_PROOF]
      || cmds == [CMD_AUTH_LOGON_CHALLENGE, CMD_AUTH_LOGON_PROOF, CMD_XFER_ACCEPT]
      || cmds == [CMD_AUTH_LOGON_CHALLENGE, CMD_AUTH_LOGON_PROOF, CMD_XFER_RESUME]
  }

  /** A logon challenge the server accepted, and the reply with its B and salt. */
  predicate LogonOpening(env: Env, f0: Bytes, reply: Bytes) {
    && ChallengeFrame(f0) && f0[0] == CMD_AUTH_LOGON_CHALLENGE
    && Refusal(BuildOf(f0), env.oracle(0)).None?
    && reply == ChallengeReply(KeysFor(env.sha, env.oracle(0)).public,
                               KeysFor(env.sha, env.oracle(0)).salt, env.oracle(0).filler)
  }

  /** A proof frame whose M1 is the hash of the account name, the salt and B of the challenge,
      the frame's own A, and the key agreed from them. */
  predicate LogonEvidence(env: Env, f0: Bytes, f1: Bytes)
    requires ChallengeFrame(f0) && env.oracle(0).account.Some? && |f1| == LOGON_PROOF_SIZE
  {
    var k, A := KeysFor(env.sha, env.oracle(0)), ProofA(f1);
    && A % PRIME != 0
    && f1[33..53] == env.sha(ProofTranscript(FromLE(GroupDigest(env.sha, PRIME, GENERATOR)), env.sha(AccountName(f0)),
                                             k.salt, A, k.public,
                                             SessionKey(env.sha, A, k.verifier, k.secret, k.public)))
  }

  /** A challenge, its reply and a proof that matches both. */
  predicate LogonProved(env: Env, f0: Bytes, reply: Bytes, f1: Bytes) {
    LogonOpening(env, f0, reply) && |f1| == LOGON_PROOF_SIZE && f1[0] == CMD_AUTH_LOGON_PROOF
    && LogonEvidence(env, f0, f1)
  }

  /** A logon by such a proof was let in: the build is supported and not selected for patching,
      and the agreed key was published under the challenged account. */
  predicate LoggedOn(env: Env, f0: Bytes, reply: Bytes, f1: Bytes, publication: Event) {
    && LogonProved(env, f0, reply, f1)
    && Supported(BuildOf(f0)) && !ShouldPatch(env.policy, BuildOf(f0), true) && env.oracle(1).published
    && publication == Published(AccountName(f0), Some(ExpectedKey(env.sha, KeysFor(env.sha, env.oracle(0)), f1)))
  }

  /** A logon by such a proof is to be patched. */
  predicate PatchDue(env: Env, f0: Bytes, reply: Bytes, f1: Bytes) {
    LogonProved(env, f0, reply, f1) && ShouldPatch(env.policy, BuildOf(f0), Supported(BuildOf(f0)))
  }

  predicate ReconnectOpening(env: Env, f0: Bytes, reply: Bytes) {
    && ChallengeFrame(f0) && f0[0] == CMD_AUTH_RECONNECT_CHALLENGE
    && env.oracle(0).sessionKey.Some?
    && reply == ReconnectReply(FromLE(env.oracle(0).nonce))
  }

  /** A reconnect was let in: its proof hashes the name, the nonce of the reply and the session
      key found for that name, and the client's identity was published under the name. */
  predicate Reconnected(env: Env, f0: Bytes, reply: Bytes, f1: Bytes, publication: Event) {
    && ReconnectOpening(env, f0, reply) && |f1| == RECONNECT_PROOF_SIZE && f1[0] == CMD_AUTH_RECONNECT_PROOF
    && var a := env.oracle(0);
    && a.sessionKey.value != 0
    && f1[17..37] == env.sha(
                     ReconnectTranscript(AccountName(f0), FromLE(f1[1..17]), FromLE(a.nonce), a.sessionKey.value))
    && env.oracle(1).published && publication == Published(AccountName(f0), None)
  }

  /** What the session must still hold of its challenge. */
  datatype Fixed = Fixed(login: Bytes, build: nat, keys: Keys, nonce: nat, key: nat)

  function FixedOf(s: Session): Fixed { Fixed(s.login, s.build, KeysOf(s), s.nonce, s.key) }

  predicate HoldsChallenge(env: Env, x: Fixed, f0: Bytes) {
    && ChallengeFrame(f0) && env.oracle(0).account.Some?
    && x.login == AccountName(f0) && x.build == BuildOf(f0) && x.keys == KeysFor(env.sha, env.oracle(0))
  }

  predicate HoldsReconnect(env: Env, x: Fixed, f0: Bytes) {
    && ChallengeFrame(f0) && env.oracle(0).sessionKey.Some?
    && x.login == AccountName(f0) && x.build == BuildOf(f0) && x.nonce == FromLE(env.oracle(0).nonce)
    && x.key == env.oracle(0).sessionKey.value
  }

  /** The claims about frames and values, kept apart from the claims about their order: the
      lemmas about order below hold for any such claims. */
  datatype Claims = Claims(
    logonOpened: (Fixed, Bytes, Bytes) -> bool, reconnectOpened: (Fixed, Bytes, Bytes) -> bool,
    admitted: (Bytes, Bytes, Bytes, Event) -> bool, patchDue: (Bytes, Bytes, Bytes) -> bool)

  function ClaimsOf(env: Env): Claims {
    Claims((x, f0, r) => HoldsChallenge(env, x, f0) && LogonOpening(env, f0, r),
           (x, f0, r) => HoldsReconnect(env, x, f0) && ReconnectOpening(env, f0, r),
           (f0, r, f1, e) => LoggedOn(env, f0, r, f1, e) || Reconnected(env, f0, r, f1, e),
           (f0, r, f1) => PatchDue(env, f0, r, f1))
  }

  /** Challenge and reply, the proof, publication, success reply; then realm lists only. */
  predicate Outline(t: seq<Event>) {
    && |t| >= 5 && t[0].Dispatched? && !ProofRequest(t[0]) && t[1].Sent? && ProofRequest(t[2])
    && t[3].Published? && t[4].Sent? && !RealmReply(t[1]) && !RealmReply(t[4])
    && forall i :: 5 <= i < |t| ==> RealmRequest(t[i]) || RealmReply(t[i])
  }

  predicate LetIn(k: Claims, t: seq<Event>) {
    Outline(t) && k.admitted(t[0].frame, t[1].bytes, t[2].frame, t[3])
  }

  /** An event that needs no proof before it. */
  predicate Calm(e: Event) { !RealmReply(e) && !e.Published? && !e.TransferStarted? }

  predicate QuietUpTo(trace: seq<Event>, n: nat)
    requires n <= |trace|
  {
    forall i :: 0 <= i < n ==> Calm(trace[i])
  }

  predicate Quiet(trace: seq<Event>) { QuietUpTo(trace, |trace|) }

  /** Challenge and reply, a proof of a client to be patched, the offer and its archive. */
  predicate Offered(k: Claims, t: seq<Event>, art: Artifact) {
    && |t| >= 5 && t[0].Dispatched? && t[1].Sent? && t[2].Dispatched?
    && k.patchDue(t[0].frame, t[1].bytes, t[2].frame) && t[4] == Sent(XferInit(art))
  }

  /** The offer was taken up, at an offset inside the archive. */
  predicate Transferred(k: Claims, t: seq<Event>) {
    && t != []
    && var n := |t| - 1;
    && QuietUpTo(t, n) && t[n].TransferStarted? && Offered(k, t, t[n].artifact)
    && PatchStream.SeekAccepted(|t[n].artifact.data|, t[n].offset)
  }

  /** Two quiet events: a challenge and its reply. */
  predicate TwoEvents(t: seq<Event>) { |t| == 2 && t[0].Dispatched? && t[1].Sent? && Quiet(t) && !ProofRequest(t[0]) }

  predicate Shape(k: Claims, c: Core) {
    match c.session.status
    case Challenge => c.trace == []
    case LogonProof => TwoEvents(c.trace) && k.logonOpened(FixedOf(c.session), c.trace[0].frame, c.trace[1].bytes)
    case ReconnectProof =>
      TwoEvents(c.trace) && k.reconnectOpened(FixedOf(c.session), c.trace[0].frame, c.trace[1].bytes)
    case Authenticated => LetIn(k, c.trace)
    case Patch => Quiet(c.trace) && c.session.artifact.Some? && Offered(k, c.trace, c.session.artifact.value)
    case Closed => Quiet(c.trace) || Transferred(k, c.trace)
  }

  /** The command, counter, artifact, deadline and closer discipline. */
  predicate Control(c: Core) {
    var s := c.session;
    && Language(s, c.commands)
    && c.counted == (if s.status == Authenticated then 1 else 0)
    && (s.artifact.Some? <==> s.status == Patch)
    && (s.deadline.active ==> !s.closed && s.status != Authenticated && s.status != Patch)
    && c.closers <= 1 && (c.closers == 1 ==> s.closed)
  }

  /** The invariant of every reachable socket. */
  predicate Inv(k: Claims, c: Core) { Control(c) && Shape(k, c) }

  // ----- the replies, told apart by their first byte -----

  lemma ChallengeReplyHead(public: nat, salt: nat, filler: Bytes16)
    ensures ChallengeReply(public, salt, filler) != []
    ensures ChallengeReply(public, salt, filler)[0] == CMD_AUTH_LOGON_CHALLENGE
  {
  }

  lemma ProofReplyHead(build: nat, m2: Digest)
    ensures ProofReply(build, m2) != [] && ProofReply(build, m2)[0] == CMD_AUTH_LOGON_PROOF
  {
  }

  lemma ReconnectReplyHead(nonce: nat, build: nat)
    ensures ReconnectReply(nonce) != [] && ReconnectReply(nonce)[0] == CMD_AUTH_RECONNECT_CHALLENGE
    ensures ReconnectProofReply(build) != [] && ReconnectProofReply(build)[0] == CMD_AUTH_RECONNECT_PROOF
  {
  }

  lemma XferInitHead(art: Artifact)
    ensures XferInit(art) != [] && XferInit(art)[0] == CMD_XFER_INITIATE
  {
  }

  lemma RealmListReplyHead(s: Session, a: Answer)
    ensures RealmListReply(s, a) != [] && RealmListReply(s, a)[0] == CMD_REALM_LIST
  {
  }

  // ----- what each handler adds -----

  predicate SameControl(c: Core, d: Core) {
    && d.commands == c.commands && d.counted == c.counted && d.closers == c.closers
    && d.session.closed == c.session.closed && d.session.deadline == c.session.deadline
    && d.session.artifact == c.session.artifact
  }

  /** A logon challenge's way from `c` to `d`, adding `es`. */
  predicate Opens(c: Core, f: Bytes, a: Answer, k: Keys, d: Core, es: seq<Event>)
    requires ChallengeFrame(f) && a.account.Some?
  {
    && SameControl(c, d) && d.session.status == LogonProof
    && es == [Sent(ChallengeReply(k.public, k.salt, a.filler))] && d.trace == c.trace + es && Quiet(es)
    && KeysOf(d.session) == k && d.session.login == AccountName(f) && d.session.build == BuildOf(f)
  }

  /** A challenge that is turned down. */
  predicate TurnsDown(c: Core, d: Core, es: seq<Event>) {
    && d.trace == c.trace + es && Quiet(es) && d.session.status == Closed
    && (SameControl(c, d) || SameControl(Close(c), d))
  }

  lemma LogonChallengeEffect(env: Env, c: Core, f: Bytes, a: Answer) returns (es: seq<Event>)
    requires ChallengeFrame(f) && !c.session.closed
    ensures var d := LogonChallenge(env, c, f, a).core;
            TurnsDown(c, d, es) || (Refusal(BuildOf(f), a).None? && Opens(c, f, a, KeysFor(env.sha, a), d, es))
  {
    if |WithIdentity(c, f).session.os| > 4 {
      es := [];
    } else {
      match Refusal(BuildOf(f), a)
      case Some(code) => es := [Sent([CMD_AUTH_LOGON_CHALLENGE, 0, code])];
      case None => es := OpenChallengeEffect(OsRestored(WithIdentity(c, f)), c, f, a, KeysFor(env.sha, a));
    }
  }

  lemma OpenChallengeEffect(c2: Core, c: Core, f: Bytes, a: Answer, k: Keys) returns (es: seq<Event>)
    requires ChallengeFrame(f) && !c.session.closed && a.account.Some? && c2 == OsRestored(WithIdentity(c, f))
    ensures Opens(c, f, a, k, OpenChallenge(c2, f, a, k), es)
  {
    ChallengeReplyHead(k.public, k.salt, a.filler);
    es := [Sent(ChallengeReply(k.public, k.salt, a.filler))];
  }

  /** A reconnect challenge's way from `c` to `d`, adding `es`. */
  predicate Reopens(c: Core, f: Bytes, a: Answer, d: Core, es: seq<Event>)
    requires ChallengeFrame(f)
  {
    && SameControl(c, d) && d.session.status == ReconnectProof
    && a.sessionKey.Some? && es == [Sent(ReconnectReply(FromLE(a.nonce)))] && d.trace == c.trace + es && Quiet(es)
    && d.session.login == AccountName(f) && d.session.build == BuildOf(f)
    && d.session.nonce == FromLE(a.nonce) && d.session.key == a.sessionKey.value
  }

  lemma ReconnectChallengeEffect(c: Core, f: Bytes, a: Answer) returns (es: seq<Event>)
    requires ChallengeFrame(f) && !c.session.closed
    ensures var d := ReconnectChallenge(c, f, a).core;
            TurnsDown(c, d, es) || Reopens(c, f, a, d, es)
  {
    ReconnectReplyHead(FromLE(a.nonce), 0);
    if ReconnectChallenge(c, f, a).ok {
      es := [Sent(ReconnectReply(FromLE(a.nonce)))];
    } else {
      es := [];
    }
  }

  /** A matching proof's way from `c` to `d`, adding `es`. */
  predicate Accepted(policy: PatchPolicy, c: Core, a: Answer, key: Option<nat>, d: Core, es: seq<Event>) {
    && d.trace == c.trace + es && d.commands == c.commands
    && match d.session.status
       case Closed => Quiet(es) && (SameControl(c, d) || SameControl(Close(c), d))
       case Patch =>
         && Quiet(es) && d.session.artifact.Some? && !d.session.deadline.active
         && ShouldPatch(policy, c.session.build, Supported(c.session.build))
         && |es| == 2 && es[1] == Sent(XferInit(d.session.artifact.value))
         && d.closers == c.closers && d.counted == c.counted && !d.session.closed
       case Authenticated =>
         && a.published
         && |es| == 2 && es[0] == Published(c.session.login, key) && es[1].Sent? && !RealmReply(es[1])
         && d.session == c.session.(status := Authenticated, deadline := c.session.deadline.Deactivate())
         && d.closers == c.closers && d.counted == c.counted + 1
       case _ => false
  }

  lemma OfferPatchEffect(policy: PatchPolicy, c: Core, a: Answer, key: Option<nat>) returns (es: seq<Event>)
    requires !c.session.closed && c.session.status == Closed
    requires ShouldPatch(policy, c.session.build, Supported(c.session.build))
    ensures Accepted(policy, c, a, key, OfferPatch(c, a), es) && OfferPatch(c, a).session.status != Authenticated
  {
    match a.archive
    case None => es := [Sent([CMD_AUTH_LOGON_CHALLENGE, 0, WOW_FAIL_VERSION_INVALID])];
    case Some(art) =>
      XferInitHead(art);
      es := [Sent([CMD_AUTH_LOGON_PROOF, WOW_FAIL_VERSION_UPDATE]), Sent(XferInit(art))];
      assert OfferPatch(c, a).trace == c.trace + es;
  }

  lemma PublishEffect(policy: PatchPolicy, c: Core, key: Option<nat>, reply: Bytes, a: Answer) returns (es: seq<Event>)
    requires !c.session.closed && a.published && reply != [] && reply[0] != CMD_REALM_LIST
    ensures Accepted(policy, c, a, key, Authenticate(Send(Record(c, Published(c.session.login, key)), reply)), es)
  {
    es := [Published(c.session.login, key), Sent(reply)];
  }

  lemma ProofAcceptedEffect(policy: PatchPolicy, c: Core, m2: Digest, a: Answer) returns (es: seq<Event>)
    requires !c.session.closed && c.session.status == Closed
    ensures Accepted(policy, c, a, Some(c.session.key), ProofAccepted(policy, c, m2, a).core, es)
    ensures ProofAccepted(policy, c, m2, a).core.session.status == Authenticated ==>
            Supported(c.session.build) && !ShouldPatch(policy, c.session.build, true)
  {
    var s := c.session;
    if ShouldPatch(policy, s.build, Supported(s.build)) {
      es := OfferPatchEffect(policy, c, a, Some(s.key));
    } else if !Supported(s.build) {
      es := [Sent([CMD_AUTH_LOGON_CHALLENGE, 0, WOW_FAIL_VERSION_INVALID])];
    } else if !a.published {
      es := [];
    } else {
      ProofReplyHead(s.build, m2);
      es := PublishEffect(policy, c, Some(s.key), ProofReply(s.build, m2), a);
    }
  }

  lemma ReconnectProofEffect(env: Env, c: Core, f: Bytes, a: Answer) returns (es: seq<Event>)
    requires |f| == RECONNECT_PROOF_SIZE && !c.session.closed
    ensures Accepted(env.policy, SetStatus(c, Closed), a, None, ReconnectProofStep(env, c, f, a).core, es)
    ensures var d := ReconnectProofStep(env, c, f, a).core;
            d.session.status != Patch && (d.session.status == Authenticated ==> ReconnectMatches(env, c.session, f))
  {
    ReconnectReplyHead(0, c.session.build);
    if ReconnectProofStep(env, c, f, a).ok {
      es := PublishEffect(env.policy, SetStatus(c, Closed), None, ReconnectProofReply(c.session.build), a);
    } else {
      es := [];
    }
  }

  // ----- order: each kind of outcome keeps the invariant, whatever is claimed -----

  lemma CloseKeeps(k: Claims, c: Core)
    requires Inv(k, c)
    ensures Inv(k, Close(c)) && Inv(k, PeerClose(c))
  {
  }

  /** Either nothing about closing changed, or the connection was closed once. */
  predicate ClosedAtMostOnce(c: Core, d: Core) {
    || (d.closers == c.closers && d.session.closed == c.session.closed && d.session.deadline == c.session.deadline)
    || (d.closers == c.closers + 1 && d.session.closed && !d.session.deadline.active)
  }

  /** A dispatch that ends in status Closed. */
  lemma ClosedKeeps(k: Claims, c: Core, f: Bytes, d: Core, es: seq<Event>)
    requires Control(c) && !c.session.closed && f != [] && Quiet(c.trace)
    requires d.trace == c.trace + [Dispatched(f)] + es && Quiet(es)
    requires d.session.status == Closed && d.session.artifact.None? && d.counted == 0
    requires Language(d.session, d.commands) && ClosedAtMostOnce(c, d)
    ensures Inv(k, d)
  {
  }

  lemma TurnsDownKeeps(k: Claims, c: Core, f: Bytes, d: Core, es: seq<Event>)
    requires Inv(k, c) && c.session.status == Challenge && !c.session.closed
    requires f != [] && f[0] in {CMD_AUTH_LOGON_CHALLENGE, CMD_AUTH_RECONNECT_CHALLENGE}
    requires TurnsDown(Entered(c, f), d, es)
    ensures Inv(k, d)
  {
    ClosedKeeps(k, c, f, d, es);
  }

  lemma OpensKeeps(k: Claims, c: Core, f: Bytes, d: Core, reply: Bytes)
    requires Inv(k, c) && c.session.status == Challenge && !c.session.closed && f != [] && SameControl(Entered(c, f), d)
    requires d.trace == Entered(c, f).trace + [Sent(reply)] && Calm(Sent(reply))
    requires || (d.session.status == LogonProof && f[0] == CMD_AUTH_LOGON_CHALLENGE
                 && k.logonOpened(FixedOf(d.session), f, reply))
             || (d.session.status == ReconnectProof && f[0] == CMD_AUTH_RECONNECT_CHALLENGE
                 && k.reconnectOpened(FixedOf(d.session), f, reply))
    ensures Inv(k, d)
  {
    assert d.trace == [Dispatched(f), Sent(reply)];
  }

  /** A proof that was let in. */
  lemma AdmittedKeeps(k: Claims, c: Core, f: Bytes, d: Core, es: seq<Event>)
    requires Control(c) && !c.session.closed && TwoEvents(c.trace) && f != []
    requires || (c.session.status == LogonProof && f[0] == CMD_AUTH_LOGON_PROOF)
             || (c.session.status == ReconnectProof && f[0] == CMD_AUTH_RECONNECT_PROOF)
    requires d.trace == c.trace + [Dispatched(f)] + es && |es| == 2 && es[0].Published? && es[1].Sent?
    requires !RealmReply(es[1])
    requires d.session.status == Authenticated && d.commands == c.commands + [f[0]] && d.counted == 1
    requires d.closers == c.closers
    requires !d.session.closed && !d.session.deadline.active && d.session.artifact.None?
    requires k.admitted(c.trace[0].frame, c.trace[1].bytes, f, es[0])
    ensures Inv(k, d)
  {
    var t := d.trace;
    assert t[0] == c.trace[0] && t[1] == c.trace[1] && t[2] == Dispatched(f) && t[3] == es[0] && t[4] == es[1];
    assert Calm(c.trace[1]);
  }

  /** A proof that is answered with a patch offer. */
  lemma PatchedKeeps(k: Claims, c: Core, f: Bytes, d: Core, es: seq<Event>)
    requires Control(c) && c.session.status == LogonProof && !c.session.closed && TwoEvents(c.trace)
    requires f != [] && f[0] == CMD_AUTH_LOGON_PROOF && d.session.status == Patch && d.session.artifact.Some?
    requires d.trace == c.trace + [Dispatched(f)] + es && |es| == 2 && Quiet(es)
    requires es[1] == Sent(XferInit(d.session.artifact.value))
    requires d.commands == c.commands + [f[0]] && d.counted == 0 && d.closers == c.closers
    requires !d.session.closed && !d.session.deadline.active
    requires k.patchDue(c.trace[0].frame, c.trace[1].bytes, f)
    ensures Inv(k, d)
  {
    var t := d.trace;
    assert t[0] == c.trace[0] && t[1] == c.trace[1] && t[2] == Dispatched(f) && t[4] == es[1];
  }

  lemma AcceptedKeeps(k: Claims, policy: PatchPolicy, c: Core, f: Bytes, c2: Core, a: Answer, key: Option<nat>,
                      d: Core, es: seq<Event>)
    requires Control(c) && !c.session.closed && TwoEvents(c.trace) && f != []
    requires || (c.session.status == LogonProof && f[0] == CMD_AUTH_LOGON_PROOF)
             || (c.session.status == ReconnectProof && f[0] == CMD_AUTH_RECONNECT_PROOF)
    requires c2 == Entered(c, f).(session := c.session.(status := Closed, key := c2.session.key))
    requires Accepted(policy, c2, a, key, d, es)
    requires d.session.status == Authenticated ==>
             k.admitted(c.trace[0].frame, c.trace[1].bytes, f, Published(c.session.login, key))
    requires d.session.status == Patch ==>
             c.session.status == LogonProof && k.patchDue(c.trace[0].frame, c.trace[1].bytes, f)
    ensures Inv(k, d)
  {
    match d.session.status
    case Closed => ClosedKeeps(k, c, f, d, es);
    case Patch => PatchedKeeps(k, c, f, d, es);
    case Authenticated => AdmittedKeeps(k, c, f, d, es);
  }

  lemma RealmEventKeeps(k: Claims, c: Core, d: Core, e: Event)
    requires Inv(k, c) && c.session.status == Authenticated && (RealmRequest(e) || RealmReply(e))
    requires d == c.(trace := c.trace + [e], commands := d.commands) && Language(d.session, d.commands)
    ensures Inv(k, d)
  {
  }

  lemma RealmListKeeps(k: Claims, c: Core, f: Bytes, a: Answer)
    requires Inv(k, c) && c.session.status == Authenticated && !c.session.closed && f != [] && f[0] == CMD_REALM_LIST
    ensures Inv(k, RealmListStep(Entered(c, f), a).core)
  {
    var c1 := Entered(c, f);
    RealmEventKeeps(k, c, c1, Dispatched(f));
    RealmListReplyHead(c1.session, a);
    if a.accountFound {
      RealmEventKeeps(k, c1, RealmListStep(c1, a).core, Sent(RealmListReply(c1.session, a)));
    } else {
      CloseKeeps(k, c1);
    }
  }

  lemma TransferKeeps(k: Claims, c: Core, f: Bytes, offset: nat)
    requires Inv(k, c) && c.session.status == Patch && !c.session.closed
    requires f != [] && (f[0] == CMD_XFER_ACCEPT || f[0] == CMD_XFER_RESUME)
    ensures Inv(k, BeginPatchStream(Entered(c, f), offset).core)
  {
    var d := BeginPatchStream(Entered(c, f), offset);
    if d.ok {
      var t := d.core.trace;
      assert t[0] == c.trace[0] && t[1] == c.trace[1] && t[2] == c.trace[2] && t[4] == c.trace[4];
    } else {
      ClosedKeeps(k, c, f, d.core, []);
    }
  }

  lemma CancelKeeps(k: Claims, c: Core, f: Bytes)
    requires Inv(k, c) && c.session.status == Patch && !c.session.closed && f != [] && f[0] == CMD_XFER_CANCEL
    ensures Inv(k, Close(Entered(c, f)))
  {
    var t := Entered(c, f).trace;
    assert t[0] == c.trace[0] && t[1] == c.trace[1] && t[2] == c.trace[2] && t[4] == c.trace[4];
  }

  // ----- content: the handlers establish what is claimed -----

  lemma LogonChallengeKeeps(env: Env, c: Core, f: Bytes)
    requires Inv(ClaimsOf(env), c) && c.session.status == Challenge && !c.session.closed
    requires ChallengeFrame(f) && f[0] == CMD_AUTH_LOGON_CHALLENGE
    ensures Inv(ClaimsOf(env), LogonChallenge(env, Entered(c, f), f, env.oracle(|c.commands|)).core)
  {
    var a := env.oracle(0);
    var es := LogonChallengeEffect(env, Entered(c, f), f, a);
    var d := LogonChallenge(env, Entered(c, f), f, a).core;
    if d.session.status == Closed {
      TurnsDownKeeps(ClaimsOf(env), c, f, d, es);
    } else {
      LogonOpenedClaim(env, Entered(c, f), f, d, es);
      OpensKeeps(ClaimsOf(env), c, f, d, es[0].bytes);
    }
  }

  lemma LogonOpenedClaim(env: Env, c: Core, f: Bytes, d: Core, es: seq<Event>)
    requires ChallengeFrame(f) && f[0] == CMD_AUTH_LOGON_CHALLENGE && Refusal(BuildOf(f), env.oracle(0)).None?
    requires Opens(c, f, env.oracle(0), KeysFor(env.sha, env.oracle(0)), d, es)
    ensures ClaimsOf(env).logonOpened(FixedOf(d.session), f, es[0].bytes)
  {
    assert HoldsChallenge(env, FixedOf(d.session), f);
    assert LogonOpening(env, f, es[0].bytes);
  }

  lemma ReconnectChallengeKeeps(env: Env, c: Core, f: Bytes)
    requires Inv(ClaimsOf(env), c) && c.session.status == Challenge && !c.session.closed
    requires ChallengeFrame(f) && f[0] == CMD_AUTH_RECONNECT_CHALLENGE
    ensures Inv(ClaimsOf(env), ReconnectChallenge(Entered(c, f), f, env.oracle(|c.commands|)).core)
  {
    var a := env.oracle(0);
    var es := ReconnectChallengeEffect(Entered(c, f), f, a);
    var d := ReconnectChallenge(Entered(c, f), f, a).core;
    if d.session.status == Closed {
      TurnsDownKeeps(ClaimsOf(env), c, f, d, es);
    } else {
      ReconnectOpenedClaim(env, Entered(c, f), f, d, es);
      OpensKeeps(ClaimsOf(env), c, f, d, es[0].bytes);
    }
  }

  lemma ReconnectOpenedClaim(env: Env, c: Core, f: Bytes, d: Core, es: seq<Event>)
    requires ChallengeFrame(f) && f[0] == CMD_AUTH_RECONNECT_CHALLENGE && Reopens(c, f, env.oracle(0), d, es)
    ensures ClaimsOf(env).reconnectOpened(FixedOf(d.session), f, es[0].bytes)
  {
    assert HoldsReconnect(env, FixedOf(d.session), f);
    assert ReconnectOpening(env, f, es[0].bytes);
  }

  /** What the proof comparison establishes, in terms of the challenge. */
  lemma MatchIsProof(env: Env, x: Fixed, f0: Bytes, reply: Bytes, f1: Bytes)
    requires HoldsChallenge(env, x, f0) && LogonOpening(env, f0, reply) && |f1| == LOGON_PROOF_SIZE
    requires f1[0] == CMD_AUTH_LOGON_PROOF
    requires Judge(env.sha, x.login, x.keys, f1).Match?
    ensures LogonProved(env, f0, reply, f1)
    ensures Judge(env.sha, x.login, x.keys, f1).key == ExpectedKey(env.sha, x.keys, f1)
  {
    ToFromLE(env.sha(ProofTranscript(FromLE(GroupDigest(env.sha, PRIME, GENERATOR)), env.sha(x.login), x.keys.salt,
                                     ProofA(f1),
                                     x.keys.public, ExpectedKey(env.sha, x.keys, f1))));
  }

  /** Under the claims of the challenge, a matching proof supports the claims that follow. */
  lemma MatchClaims(env: Env, x: Fixed, f0: Bytes, reply: Bytes, f1: Bytes)
    requires ClaimsOf(env).logonOpened(x, f0, reply) && |f1| == LOGON_PROOF_SIZE && f1[0] == CMD_AUTH_LOGON_PROOF
    requires Judge(env.sha, x.login, x.keys, f1).Match?
    ensures ShouldPatch(env.policy, x.build, Supported(x.build)) ==> ClaimsOf(env).patchDue(f0, reply, f1)
    ensures Supported(x.build) && !ShouldPatch(env.policy, x.build, true) && env.oracle(1).published ==>
            ClaimsOf(env).admitted(f0, reply, f1, Published(x.login, Some(Judge(env.sha, x.login, x.keys, f1).key)))
  {
    MatchIsProof(env, x, f0, reply, f1);
  }

  lemma LogonProofKeeps(env: Env, c: Core, f: Bytes)
    requires Inv(ClaimsOf(env), c) && c.session.status == LogonProof && !c.session.closed
    requires |f| == LOGON_PROOF_SIZE && f[0] == CMD_AUTH_LOGON_PROOF
    ensures Inv(ClaimsOf(env), LogonProofStep(env, Entered(c, f), f, env.oracle(|c.commands|)).core)
  {
    var j := Judge(env.sha, c.session.login, KeysOf(c.session), f);
    if j.Match? { MatchClaims(env, FixedOf(c.session), c.trace[0].frame, c.trace[1].bytes, f); }
    JudgedKeeps(ClaimsOf(env), env.policy, c, f, env.oracle(1), j);
  }

  /** From here on the proof is only its judgement. */
  lemma JudgedKeeps(k: Claims, policy: PatchPolicy, c: Core, f: Bytes, a: Answer, j: Judgement)
    requires Inv(k, c) && c.session.status == LogonProof && !c.session.closed && f != [] && f[0] == CMD_AUTH_LOGON_PROOF
    requires j.Match? && ShouldPatch(policy, c.session.build, Supported(c.session.build)) ==>
             k.patchDue(c.trace[0].frame, c.trace[1].bytes, f)
    requires j.Match? && Supported(c.session.build) && !ShouldPatch(policy, c.session.build, true) && a.published ==>
             k.admitted(c.trace[0].frame, c.trace[1].bytes, f, Published(c.session.login, Some(j.key)))
    ensures Inv(k, Judged(policy, Entered(c, f), a, j).core)
  {
    var c1 := Entered(c, f);
    match j
    case ZeroA => ClosedKeeps(k, c, f, SetStatus(c1, Closed), []);
    case Mismatch(key) =>
      var reply := WrongPassword(c1.session.build);
      ClosedKeeps(k, c, f, Send(Keyed(c1, key), reply), [Sent(reply)]);
    case Match(key, m2) =>
      var es := ProofAcceptedEffect(policy, Keyed(c1, key), m2, a);
      AcceptedKeeps(k, policy, c, f, Keyed(c1, key), a, Some(key),
                    ProofAccepted(policy, Keyed(c1, key), m2, a).core, es);
  }

  lemma ReconnectClaims(env: Env, s: Session, f0: Bytes, reply: Bytes, f1: Bytes)
    requires ClaimsOf(env).reconnectOpened(FixedOf(s), f0, reply) && env.oracle(1).published
    requires |f1| == RECONNECT_PROOF_SIZE && f1[0] == CMD_AUTH_RECONNECT_PROOF && ReconnectMatches(env, s, f1)
    ensures ClaimsOf(env).admitted(f0, reply, f1, Published(s.login, None))
  {
    assert Reconnected(env, f0, reply, f1, Published(s.login, None));
  }

  lemma ReconnectProofKeeps(env: Env, c: Core, f: Bytes)
    requires Inv(ClaimsOf(env), c) && c.session.status == ReconnectProof && !c.session.closed
    requires |f| == RECONNECT_PROOF_SIZE && f[0] == CMD_AUTH_RECONNECT_PROOF
    ensures Inv(ClaimsOf(env), ReconnectProofStep(env, Entered(c, f), f, env.oracle(|c.commands|)).core)
  {
    var a, c1 := env.oracle(1), Entered(c, f);
    var es := ReconnectProofEffect(env, c1, f, a);
    var d := ReconnectProofStep(env, c1, f, a).core;
    if d.session.status == Authenticated {
      ReconnectClaims(env, c.session, c.trace[0].frame, c.trace[1].bytes, f);
    }
    AcceptedKeeps(ClaimsOf(env), env.policy, c, f, SetStatus(c1, Closed), a, None, d, es);
  }

  lemma DispatchKeeps(env: Env, c: Core, f: Bytes)
    requires Inv(ClaimsOf(env), c) && !c.session.closed && FrameVerdict(c.session.status, f) == Complete(|f|)
    ensures Inv(ClaimsOf(env), Dispatch(env, c, f).core)
  {
    if f[0] == CMD_AUTH_LOGON_CHALLENGE { LogonChallengeKeeps(env, c, f); }
    else if f[0] == CMD_AUTH_RECONNECT_CHALLENGE { ReconnectChallengeKeeps(env, c, f); }
    else if f[0] == CMD_AUTH_LOGON_PROOF { LogonProofKeeps(env, c, f); }
    else if f[0] == CMD_AUTH_RECONNECT_PROOF { ReconnectProofKeeps(env, c, f); }
    else { AfterProofKeeps(ClaimsOf(env), env, c, f); }
  }

  /** The commands of an authenticated or patched session. */
  lemma AfterProofKeeps(k: Claims, env: Env, c: Core, f: Bytes)
    requires Inv(k, c) && !c.session.closed && FrameVerdict(c.session.status, f) == Complete(|f|)
    requires c.session.status == Authenticated || c.session.status == Patch
    ensures Inv(k, Dispatch(env, c, f).core)
  {
    if f[0] == CMD_REALM_LIST { RealmListKeeps(k, c, f, env.oracle(|c.commands|)); }
    else if f[0] == CMD_XFER_ACCEPT { TransferKeeps(k, c, f, 0); }
    else if f[0] == CMD_XFER_RESUME { TransferKeeps(k, c, f, FromLE(f[1..9])); }
    else { CancelKeeps(k, c, f); }
  }

  lemma PassKeeps(env: Env, st: Stream)
    requires Inv(ClaimsOf(env), st.core) && st.Open() && st.Verdict().Complete?
    ensures Inv(ClaimsOf(env), Iterate(env, st).core)
  {
    var f := st.pending[..st.Verdict().size];
    CompleteIsLocal(st.core.session.status, st.pending);
    DispatchKeeps(env, st.core, f);
    CloseKeeps(ClaimsOf(env), Dispatch(env, st.core, f).core);
  }

  lemma StepKeeps(env: Env, st: Stream, input: Input)
    requires Inv(ClaimsOf(env), st.core)
    ensures Inv(ClaimsOf(env), Step(env, st, input).core)
  {
    CloseKeeps(ClaimsOf(env), st.core);
    if input.Pass? && st.Open() && st.Verdict().Complete? { PassKeeps(env, st); }
  }

  /** Every reachable socket satisfies the invariant. */
  lemma {:induction false} RunKeeps(env: Env, start: int, timeout: int, inputs: seq<Input>)
    ensures Inv(ClaimsOf(env), Run(env, NewStream(start, timeout), inputs).core)
    decreases |inputs|
  {
    if inputs != [] {
      var n := |inputs| - 1;
      RunKeeps(env, start, timeout, inputs[..n]);
      StepKeeps(env, Run(env, NewStream(start, timeout), inputs[..n]), inputs[n]);
    }
  }

  // ----- the theorems -----

  /** Event `i` has before it exactly one matching proof and exactly one publication, both for
      the account of the socket's only challenge. */
  predicate AdmittedBefore(env: Env, t: seq<Event>, i: nat) {
    && Outline(t) && i >= 5
    && (|| LoggedOn(env, t[0].frame, t[1].bytes, t[2].frame, t[3])
        || Reconnected(env, t[0].frame, t[1].bytes, t[2].frame, t[3]))
    && (forall j :: 0 <= j < |t| ==> (ProofRequest(t[j]) <==> j == 2))
    && (forall j :: 0 <= j < |t| ==> (t[j].Published? <==> j == 3))
  }

  /** Every realm-list reply of every run has them before it. */
  lemma RealmListSafety(env: Env, start: int, timeout: int, inputs: seq<Input>, i: nat)
    requires i < |Run(env, NewStream(start, timeout), inputs).core.trace|
    requires RealmReply(Run(env, NewStream(start, timeout), inputs).core.trace[i])
    ensures AdmittedBefore(env, Run(env, NewStream(start, timeout), inputs).core.trace, i)
  {
    RunKeeps(env, start, timeout, inputs);
    ReplyNeedsAuthentication(ClaimsOf(env), Run(env, NewStream(start, timeout), inputs).core, i);
  }

  lemma OutlineEvent(t: seq<Event>, j: nat)
    requires Outline(t) && j < |t|
    ensures ProofRequest(t[j]) <==> j == 2
    ensures t[j].Published? <==> j == 3
    ensures RealmReply(t[j]) ==> j >= 5
    ensures !t[j].TransferStarted?
  {
    if j >= 5 { assert RealmRequest(t[j]) || RealmReply(t[j]); }
  }

  lemma TransferredEvent(k: Claims, t: seq<Event>, j: nat)
    requires Transferred(k, t) && j < |t|
    ensures !RealmReply(t[j]) && (t[j].TransferStarted? ==> j == |t| - 1)
  {
    if j < |t| - 1 { assert Calm(t[j]); }
  }

  lemma ReplyNeedsAuthentication(k: Claims, c: Core, i: nat)
    requires Inv(k, c) && i < |c.trace| && RealmReply(c.trace[i])
    ensures c.session.status == Authenticated && i >= 5 && LetIn(k, c.trace)
    ensures forall j :: 0 <= j < |c.trace| ==> (ProofRequest(c.trace[j]) <==> j == 2)
    ensures forall j :: 0 <= j < |c.trace| ==> (c.trace[j].Published? <==> j == 3)
  {
    assert !Calm(c.trace[i]);
    if c.session.status == Closed && Transferred(k, c.trace) { TransferredEvent(k, c.trace, i); }
    forall j | 0 <= j < |c.trace|
      ensures (ProofRequest(c.trace[j]) <==> j == 2) && (c.trace[j].Published? <==> j == 3)
              && (RealmReply(c.trace[j]) ==> j >= 5)
    {
      OutlineEvent(c.trace, j);
    }
  }

  /** Event `i` is the last, starts a transfer inside its archive, and has before it a matching
      proof of a client to be patched and the offer of that very archive. */
  predicate OfferedBefore(env: Env, t: seq<Event>, i: nat) {
    && i == |t| - 1 && i >= 5 && t[0].Dispatched? && t[1].Sent? && t[2].Dispatched? && t[i].TransferStarted?
    && PatchDue(env, t[0].frame, t[1].bytes, t[2].frame) && t[4] == Sent(XferInit(t[i].artifact))
    && PatchStream.SeekAccepted(|t[i].artifact.data|, t[i].offset)
  }

  /** No patch transfer starts otherwise. */
  lemma TransferSafety(env: Env, start: int, timeout: int, inputs: seq<Input>, i: nat)
    requires i < |Run(env, NewStream(start, timeout), inputs).core.trace|
    requires Run(env, NewStream(start, timeout), inputs).core.trace[i].TransferStarted?
    ensures OfferedBefore(env, Run(env, NewStream(start, timeout), inputs).core.trace, i)
  {
    RunKeeps(env, start, timeout, inputs);
    TransferNeedsClaims(env, Run(env, NewStream(start, timeout), inputs).core, i);
  }

  lemma TransferNeedsClaims(env: Env, c: Core, i: nat)
    requires Inv(ClaimsOf(env), c) && i < |c.trace| && c.trace[i].TransferStarted?
    ensures OfferedBefore(env, c.trace, i)
  {
    TransferNeedsOffer(ClaimsOf(env), c, i);
    TransferredClaims(env, c.trace);
  }

  lemma TransferredClaims(env: Env, t: seq<Event>)
    requires |t| >= 6 && Transferred(ClaimsOf(env), t)
    ensures OfferedBefore(env, t, |t| - 1)
  {
    assert ClaimsOf(env).patchDue(t[0].frame, t[1].bytes, t[2].frame);
  }

  lemma TransferNeedsOffer(k: Claims, c: Core, i: nat)
    requires Inv(k, c) && i < |c.trace| && c.trace[i].TransferStarted?
    ensures i == |c.trace| - 1 && i >= 5 && Transferred(k, c.trace)
  {
    assert !Calm(c.trace[i]);
    if c.session.status == Authenticated { OutlineEvent(c.trace, i); }
    if c.session.status == Closed && Transferred(k, c.trace) { TransferredEvent(k, c.trace, i); }
  }

  /** An event that needs no proof before it and is no transfer. */
  predicate Tame(e: Event) { !RealmReply(e) && !e.TransferStarted? }

  predicate AllTame(t: seq<Event>) { forall e :: e in t ==> Tame(e) }

  lemma QuietIsTame(t: seq<Event>)
    requires Quiet(t)
    ensures AllTame(t)
  {
    forall e | e in t ensures Tame(e) {
      var i :| 0 <= i < |t| && t[i] == e;
      assert Calm(t[i]);
    }
  }

  lemma ChallengeIsTame(env: Env, c: Core, f: Bytes, a: Answer)
    requires ChallengeFrame(f) && !c.session.closed && AllTame(c.trace)
    ensures AllTame(LogonChallenge(env, c, f, a).core.trace) && AllTame(ReconnectChallenge(c, f, a).core.trace)
  {
    var es := LogonChallengeEffect(env, c, f, a);
    var fs := ReconnectChallengeEffect(c, f, a);
    QuietIsTame(es);
    QuietIsTame(fs);
  }

  lemma AcceptedIsTame(policy: PatchPolicy, c: Core, a: Answer, key: Option<nat>, d: Core, es: seq<Event>)
    requires AllTame(c.trace) && Accepted(policy, c, a, key, d, es)
    ensures AllTame(d.trace)
  {
    if d.session.status != Authenticated { QuietIsTame(es); }
  }

  lemma JudgedIsTame(policy: PatchPolicy, c: Core, a: Answer, j: Judgement)
    requires !c.session.closed && AllTame(c.trace)
    ensures AllTame(Judged(policy, c, a, j).core.trace)
  {
    if j.Match? {
      var es := ProofAcceptedEffect(policy, Keyed(c, j.key), j.m2, a);
      AcceptedIsTame(policy, Keyed(c, j.key), a, Some(j.key), Judged(policy, c, a, j).core, es);
    }
  }

  lemma ReconnectProofIsTame(env: Env, c: Core, f: Bytes, a: Answer)
    requires |f| == RECONNECT_PROOF_SIZE && !c.session.closed && AllTame(c.trace)
    ensures AllTame(ReconnectProofStep(env, c, f, a).core.trace)
  {
    var es := ReconnectProofEffect(env, c, f, a);
    AcceptedIsTame(env.policy, SetStatus(c, Closed), a, None, ReconnectProofStep(env, c, f, a).core, es);
  }

  /** Up to and including the proof no realm list is sent and no transfer starts. */
  lemma DispatchIsTame(env: Env, c: Core, f: Bytes)
    requires FrameVerdict(c.session.status, f) == Complete(|f|) && !c.session.closed && AllTame(c.trace)
    requires c.session.status in {Challenge, LogonProof, ReconnectProof}
    ensures AllTame(Dispatch(env, c, f).core.trace)
  {
    EnteredIsTame(c, f);
    HandleIsTame(env, Entered(c, f), f, env.oracle(|c.commands|));
  }

  lemma EnteredIsTame(c: Core, f: Bytes)
    requires f != [] && AllTame(c.trace)
    ensures AllTame(Entered(c, f).trace)
  {
  }

  lemma HandleIsTame(env: Env, c: Core, f: Bytes, a: Answer)
    requires FrameVerdict(c.session.status, f) == Complete(|f|) && !c.session.closed && AllTame(c.trace)
    requires c.session.status in {Challenge, LogonProof, ReconnectProof}
    ensures AllTame(Handle(env, c, f, a).core.trace)
  {
    var d := Handle(env, c, f, a).core;
    if f[0] == CMD_AUTH_LOGON_CHALLENGE {
      assert d == LogonChallenge(env, c, f, a).core;
      ChallengeIsTame(env, c, f, a);
    } else if f[0] == CMD_AUTH_RECONNECT_CHALLENGE {
      assert d == ReconnectChallenge(c, f, a).core;
      ChallengeIsTame(env, c, f, a);
    } else if f[0] == CMD_AUTH_LOGON_PROOF {
      assert d == LogonProofStep(env, c, f, a).core;
      JudgedIsTame(env.policy, c, a, Judge(env.sha, c.session.login, KeysOf(c.session), f));
    } else {
      assert d == ReconnectProofStep(env, c, f, a).core;
      ReconnectProofIsTame(env, c, f, a);
    }
  }

  predicate OneOfEach(cmds: seq<byte>) {
    && (forall i :: 0 <= i < |cmds| ==> (CommandStatus(cmds[i]) == Some(Challenge) <==> i == 0))
    && (forall i :: 0 <= i < |cmds| ==>
          (CommandStatus(cmds[i]) in {Some(LogonProof), Some(ReconnectProof)} <==> i == 1))
    && (forall i :: 0 <= i < |cmds| && CommandStatus(cmds[i]) == Some(Patch) ==> i == 2 == |cmds| - 1)
  }

  lemma LanguageIsOneOfEach(s: Session, cmds: seq<byte>)
    requires Language(s, cmds)
    ensures OneOfEach(cmds)
  {
    if s.status == Authenticated {
      assert cmds[0] == cmds[..2][0] && cmds[1] == cmds[..2][1];
    }
  }

  /** The dispatched commands of every run form one of the sequences of `Language`: at most
      one challenge, then at most one proof, then realm-list requests or one transfer command. */
  lemma CommandLanguage(env: Env, start: int, timeout: int, inputs: seq<Input>)
    ensures var c := Run(env, NewStream(start, timeout), inputs).core;
            Control(c) && OneOfEach(c.commands)
  {
    RunKeeps(env, start, timeout, inputs);
    var c := Run(env, NewStream(start, timeout), inputs).core;
    LanguageIsOneOfEach(c.session, c.commands);
  }

  // ----- progress -----

  function Rank(s: Status): nat {
    match s
    case Challenge => 0
    case LogonProof => 1 case ReconnectProof => 1
    case Patch => 2 case Authenticated => 2
    case Closed => 3
  }

  /** From one dispatched frame: the trace only grows, the deadline never comes back, and the
      status moves strictly up, except that a realm-list request or a cancel leaves it. */
  predicate Progress(c: Core, f: Bytes, d: Core) {
    && c.trace + [Dispatched(f)] <= d.trace
    && (!c.session.deadline.active ==> !d.session.deadline.active)
    && (if f != [] && f[0] in {CMD_REALM_LIST, CMD_XFER_CANCEL} then d.session.status == c.session.status
        else Rank(d.session.status) > Rank(c.session.status))
  }

  lemma ChallengeProgress(env: Env, c: Core, f: Bytes, a: Answer)
    requires !c.session.closed && c.session.status == Challenge && ChallengeFrame(f) && f[0] != CMD_REALM_LIST
    requires f[0] != CMD_XFER_CANCEL
    ensures Progress(c, f, LogonChallenge(env, Entered(c, f), f, a).core)
    ensures Progress(c, f, ReconnectChallenge(Entered(c, f), f, a).core)
  {
    var es := LogonChallengeEffect(env, Entered(c, f), f, a);
    var fs := ReconnectChallengeEffect(Entered(c, f), f, a);
  }

  lemma JudgedProgress(policy: PatchPolicy, c: Core, f: Bytes, a: Answer, j: Judgement)
    requires !c.session.closed && c.session.status == LogonProof && f != [] && f[0] == CMD_AUTH_LOGON_PROOF
    ensures Progress(c, f, Judged(policy, Entered(c, f), a, j).core)
  {
    if j.Match? {
      var es := ProofAcceptedEffect(policy, Keyed(Entered(c, f), j.key), j.m2, a);
    }
  }

  lemma ReconnectProofProgress(env: Env, c: Core, f: Bytes, a: Answer)
    requires !c.session.closed && c.session.status == ReconnectProof && |f| == RECONNECT_PROOF_SIZE
    requires f[0] == CMD_AUTH_RECONNECT_PROOF
    ensures Progress(c, f, ReconnectProofStep(env, Entered(c, f), f, a).core)
  {
    var es := ReconnectProofEffect(env, Entered(c, f), f, a);
  }

  lemma RealmListProgress(c: Core, f: Bytes, a: Answer)
    requires !c.session.closed && f != [] && f[0] == CMD_REALM_LIST
    ensures Progress(c, f, RealmListStep(Entered(c, f), a).core)
  {
  }

  lemma TransferProgress(c: Core, f: Bytes, offset: nat)
    requires !c.session.closed && c.session.status == Patch && c.session.artifact.Some?
    requires f != [] && (f[0] == CMD_XFER_ACCEPT || f[0] == CMD_XFER_RESUME)
    ensures Progress(c, f, BeginPatchStream(Entered(c, f), offset).core)
  {
  }

  lemma DispatchProgress(env: Env, c: Core, f: Bytes)
    requires FrameVerdict(c.session.status, f) == Complete(|f|)
    requires !c.session.closed && (c.session.status == Patch ==> c.session.artifact.Some?)
    ensures Progress(c, f, Dispatch(env, c, f).core)
  {
    var a := env.oracle(|c.commands|);
    if f[0] == CMD_AUTH_LOGON_CHALLENGE || f[0] == CMD_AUTH_RECONNECT_CHALLENGE { ChallengeProgress(env, c, f, a); }
    else if f[0] == CMD_AUTH_LOGON_PROOF {
      JudgedProgress(env.policy, c, f, a, Judge(env.sha, c.session.login, KeysOf(c.session), f));
    }
    else if f[0] == CMD_AUTH_RECONNECT_PROOF { ReconnectProofProgress(env, c, f, a); }
    else if f[0] == CMD_REALM_LIST { RealmListProgress(c, f, a); }
    else if f[0] == CMD_XFER_ACCEPT { TransferProgress(c, f, 0); }
    else if f[0] == CMD_XFER_RESUME { TransferProgress(c, f, FromLE(f[1..9])); }
    else { assert Dispatch(env, c, f).core == Close(Entered(c, f)); }
  }

  /** What a step may change. */
  predicate Forward(c: Core, d: Core) {
    && (d.session.status == c.session.status || Rank(d.session.status) > Rank(c.session.status))
    && (!c.session.deadline.active ==> !d.session.deadline.active)
    && c.trace <= d.trace
  }

  lemma PassProgress(env: Env, st: Stream)
    requires Control(st.core) && st.Open() && st.Verdict().Complete?
    ensures Forward(st.core, Iterate(env, st).core)
  {
    var f := st.pending[..st.Verdict().size];
    CompleteIsLocal(st.core.session.status, st.pending);
    DispatchProgress(env, st.core, f);
  }

  /** In every run a step keeps the status or raises it, never revives the deadline, never
      rewrites the past, and does nothing at all to a closed socket. */
  lemma StepProgress(env: Env, st: Stream, input: Input)
    requires Control(st.core)
    ensures Forward(st.core, Step(env, st, input).core)
    ensures !st.Open() ==> Step(env, st, input) == st
  {
    if input.Pass? && st.Open() && st.Verdict().Complete? { PassProgress(env, st); }
  }

  lemma {:induction false} DrainExtendsTrace(env: Env, st: Stream)
    requires Inv(ClaimsOf(env), st.core)
    ensures st.core.trace <= Drain(env, st).core.trace && Inv(ClaimsOf(env), Drain(env, st).core)
    decreases |st.pending|
  {
    if !Settled(st) {
      CompleteIsPositive(st);
      StepProgress(env, st, Pass);
      StepKeeps(env, st, Pass);
      assert Iterate(env, st) == Step(env, st, Pass);
      DrainExtendsTrace(env, Iterate(env, st));
    }
  }
}
