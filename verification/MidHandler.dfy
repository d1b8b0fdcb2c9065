/** A close from another thread that lands inside a handler. A handler is a sequence of
    operations on the socket; only its sends look at the closed flag, so only they are lost. */
module MidHandler {
  import opened Wire
  import opened Guard
  import opened Srp6
  import opened BuildPolicy
  import opened AuthSession
  import opened AuthStream
  import opened AuthRuns
  import opened HonestLogin
  import opened HonestSession
  import PatchStream
  import RealmIndex
  import LateExpiry

  // ----- operations -----

  /** Assign session members (all but the closed flag and the deadline), send, leave a mark
      outside (a publication, a transfer), end the deadline, close, count. */
  datatype Op = Assign(s: Session) | Transmit(bytes: Bytes) | Mark(e: Event) | EndDeadline | Shutdown | Count

  function Apply(c: Core, op: Op): Core {
    match op
    case Assign(s) => c.(session := s.(closed := c.session.closed, deadline := c.session.deadline))
    case Transmit(bytes) => Send(c, bytes)
    case Mark(e) => Record(c, e)
    case EndDeadline => c.(session := c.session.(deadline := c.session.deadline.Deactivate()))
    case Shutdown => Close(c)
    case Count => c.(counted := c.counted + 1)
  }

  function Perform(c: Core, ops: seq<Op>): Core
    decreases |ops|
  {
    if ops == [] then c else Perform(Apply(c, ops[0]), ops[1..])
  }

  /** The same with a close from outside after `p` operations. */
  function Interrupted(c: Core, ops: seq<Op>, p: nat): Core
    requires p <= |ops|
    decreases |ops|
  {
    if p == 0 then Perform(Close(c), ops) else Interrupted(Apply(c, ops[0]), ops[1..], p - 1)
  }

  /** `d` is `c`, closed, with nothing in its trace that is not in that of `c`. */
  predicate Twin(c: Core, d: Core) {
    && d.session == c.session.(closed := true, deadline := c.session.deadline.Deactivate())
    && d.commands == c.commands && d.counted == c.counted
    && forall e :: e in d.trace ==> e in c.trace
  }

  lemma ApplyTwin(c: Core, d: Core, op: Op)
    requires Twin(c, d)
    ensures Twin(Apply(c, op), Apply(d, op)) && Apply(d, op).closers == d.closers
    ensures d.trace <= Apply(d, op).trace
    ensures d.trace == c.trace && !op.Transmit? ==> Apply(d, op).trace == Apply(c, op).trace
  {
  }

  lemma {:induction false} PerformTwin(c: Core, d: Core, ops: seq<Op>)
    requires Twin(c, d)
    ensures Twin(Perform(c, ops), Perform(d, ops)) && Perform(d, ops).closers == d.closers
    ensures d.trace <= Perform(d, ops).trace
    ensures d.trace == c.trace && (forall op :: op in ops ==> !op.Transmit?) ==>
            Perform(d, ops).trace == Perform(c, ops).trace
    decreases |ops|
  {
    if ops != [] {
      ApplyTwin(c, d, ops[0]);
      PerformTwin(Apply(c, ops[0]), Apply(d, ops[0]), ops[1..]);
    }
  }

  /** For every sequence of operations and every point in it: the interrupted socket is the
      undisturbed one, closed once, less some of its sends. */
  lemma {:induction false} InterruptedIsTwin(c: Core, ops: seq<Op>, p: nat)
    requires p <= |ops|
    ensures Twin(Perform(c, ops), Interrupted(c, ops, p)) && c.trace <= Interrupted(c, ops, p).trace
    ensures !c.session.closed ==> Interrupted(c, ops, p).closers == c.closers + 1
    ensures c.session.closed ==> Interrupted(c, ops, p).closers == c.closers
    ensures (forall op :: op in ops ==> !op.Transmit?) ==> Interrupted(c, ops, p).trace == Perform(c, ops).trace
    decreases |ops|
  {
    if p == 0 {
      PerformTwin(c, Close(c), ops);
    } else {
      InterruptedIsTwin(Apply(c, ops[0]), ops[1..], p - 1);
      assert c.trace <= Apply(c, ops[0]).trace;
    }
  }

  lemma PerformOne(c: Core, x: Op)
    ensures Perform(c, [x]) == Apply(c, x)
  {
    assert Perform(c, [x]) == Perform(Apply(c, x), [x][1..]);
  }

  lemma PerformTwo(c: Core, x: Op, y: Op)
    ensures Perform(c, [x, y]) == Apply(Apply(c, x), y)
  {
    assert [x, y][1..] == [y];
    PerformOne(Apply(c, x), y);
  }

  lemma PerformThree(c: Core, x: Op, y: Op, z: Op)
    ensures Perform(c, [x, y, z]) == Apply(Apply(Apply(c, x), y), z)
  {
    assert [x, y, z][1..] == [y, z];
    PerformTwo(Apply(c, x), y, z);
  }

  lemma {:induction false} PerformConcat(c: Core, xs: seq<Op>, ys: seq<Op>)
    ensures Perform(c, xs + ys) == Perform(Perform(c, xs), ys)
    decreases |xs|
  {
    if xs == [] {
      assert xs + ys == ys;
    } else {
      assert (xs + ys)[1..] == xs[1..] + ys;
      PerformConcat(Apply(c, xs[0]), xs[1..], ys);
    }
  }

  // ----- the handlers as operations, in the order of the source -----

  datatype Program = Program(ops: seq<Op>, ok: bool)

  /** The program and the outcome are the same. */
  predicate Runs(c: Core, prog: Program, o: Outcome) {
    Perform(c, prog.ops) == o.core && prog.ok == o.ok
  }

  function Invalid(): Op { Transmit([CMD_AUTH_LOGON_CHALLENGE, 0, WOW_FAIL_VERSION_INVALID]) }

  function LogonChallengeOps(env: Env, c: Core, f: Bytes, a: Answer): Program
    requires ChallengeFrame(f)
  {
    var s1 := WithIdentity(c, f).session;
    if |s1.os| > 4 then Program([Assign(s1)], false)
    else
      var s2 := OsRestored(WithIdentity(c, f)).session;
      match Refusal(s2.build, a)
      case Some(code) => Program([Assign(s2), Transmit([CMD_AUTH_LOGON_CHALLENGE, 0, code])], true)
      case None => Program(OpenOps(s2, f, a, KeysFor(env.sha, a)), true)
  }

  function OpenOps(s: Session, f: Bytes, a: Answer, k: Keys): seq<Op>
    requires ChallengeFrame(f) && a.account.Some?
  {
    [Assign(s), Assign(OpenSession(s, f, a, k)), Transmit(ChallengeReply(k.public, k.salt, a.filler))]
  }

  function OpenSession(s: Session, f: Bytes, a: Answer, k: Keys): Session
    requires ChallengeFrame(f) && a.account.Some?
  {
    WithKeys(s, k).(status := LogonProof, security := RealmIndex.ClampSecurity(a.account.value.gmLevel),
                    locale := LocaleOf(f))
  }

  lemma OpenRuns(c: Core, f: Bytes, a: Answer, k: Keys)
    requires ChallengeFrame(f) && a.account.Some?
    ensures Perform(c, OpenOps(OsRestored(WithIdentity(c, f)).session, f, a, k))
         == OpenChallenge(OsRestored(WithIdentity(c, f)), f, a, k)
  {
    var s := OsRestored(WithIdentity(c, f)).session;
    PerformThree(c, Assign(s), Assign(OpenSession(s, f, a, k)), Transmit(ChallengeReply(k.public, k.salt, a.filler)));
  }

  lemma LogonChallengeRuns(env: Env, c: Core, f: Bytes, a: Answer)
    requires ChallengeFrame(f)
    ensures Runs(c, LogonChallengeOps(env, c, f, a), LogonChallenge(env, c, f, a))
  {
    var s1, s2 := WithIdentity(c, f).session, OsRestored(WithIdentity(c, f)).session;
    if |s1.os| > 4 {
      PerformOne(c, Assign(s1));
    } else {
      match Refusal(s2.build, a)
      case Some(code) => PerformTwo(c, Assign(s2), Transmit([CMD_AUTH_LOGON_CHALLENGE, 0, code]));
      case None => OpenRuns(c, f, a, KeysFor(env.sha, a));
    }
  }

  function OfferOps(s: Session, a: Answer): seq<Op> {
    match a.archive
    case None => [Invalid()]
    case Some(art) => ArchiveOps(s, art, [CMD_AUTH_LOGON_PROOF, WOW_FAIL_VERSION_UPDATE], XferInit(art))
  }

  function ArchiveOps(s: Session, art: Artifact, update: Bytes, init: Bytes): seq<Op> {
    [Assign(s.(artifact := Some(art))), Transmit(update), Transmit(init)]
    + [Assign(s.(artifact := Some(art), status := Patch)), EndDeadline]
  }

  lemma OfferSent(c: Core, s: Session, update: Bytes, init: Bytes)
    requires s.closed == c.session.closed && s.deadline == c.session.deadline
    ensures Perform(c, [Assign(s), Transmit(update), Transmit(init)]) == Send(Send(c.(session := s), update), init)
  {
    PerformThree(c, Assign(s), Transmit(update), Transmit(init));
  }

  lemma PatchEntered(c: Core)
    ensures Perform(c, [Assign(c.session.(status := Patch)), EndDeadline])
         == c.(session := c.session.(status := Patch, deadline := c.session.deadline.Deactivate()))
  {
    PerformTwo(c, Assign(c.session.(status := Patch)), EndDeadline);
  }

  lemma ArchiveRuns(c: Core, art: Artifact, update: Bytes, init: Bytes)
    ensures var c1 := c.(session := c.session.(artifact := Some(art)));
            var c2 := Send(Send(c1, update), init);
            Perform(c, ArchiveOps(c.session, art, update, init))
            == c2.(session := c2.session.(status := Patch, deadline := c2.session.deadline.Deactivate()))
  {
    var s1 := c.session.(artifact := Some(art));
    var c2 := Send(Send(c.(session := s1), update), init);
    PerformConcat(c, [Assign(s1), Transmit(update), Transmit(init)], [Assign(s1.(status := Patch)), EndDeadline]);
    OfferSent(c, s1, update, init);
    assert c2.session == s1;
    PatchEntered(c2);
  }

  lemma OfferRuns(c: Core, a: Answer)
    ensures Perform(c, OfferOps(c.session, a)) == OfferPatch(c, a)
  {
    match a.archive
    case None => PerformOne(c, Invalid());
    case Some(art) => ArchiveRuns(c, art, [CMD_AUTH_LOGON_PROOF, WOW_FAIL_VERSION_UPDATE], XferInit(art));
  }

  /** Publish, reply, then authenticate: the end of both proof handlers. */
  function AdmitOps(s: Session, e: Event, reply: Bytes): seq<Op> {
    [Mark(e), Transmit(reply)] + [Assign(s.(status := Authenticated)), EndDeadline, Count]
  }

  lemma AuthenticateRuns(c: Core)
    ensures Perform(c, [Assign(c.session.(status := Authenticated)), EndDeadline, Count]) == Authenticate(c)
  {
    PerformThree(c, Assign(c.session.(status := Authenticated)), EndDeadline, Count);
  }

  lemma AdmitRuns(c: Core, e: Event, reply: Bytes)
    ensures Perform(c, AdmitOps(c.session, e, reply)) == Authenticate(Send(Record(c, e), reply))
  {
    var s, c1 := c.session.(status := Authenticated), Send(Record(c, e), reply);
    PerformConcat(c, [Mark(e), Transmit(reply)], [Assign(s), EndDeadline, Count]);
    PerformTwo(c, Mark(e), Transmit(reply));
    assert c1.session == c.session;
    AuthenticateRuns(c1);
  }

  /** A matching proof, once it is known whether to patch and whether the build is supported. */
  function ByChecks(patch: bool, supported: bool, c: Core, a: Answer, reply: Bytes): Outcome {
    var s := c.session;
    if patch then Outcome(OfferPatch(c, a), true)
    else if !supported then Outcome(InvalidVersion(c), true)
    else if !a.published then Outcome(Close(c), false)
    else Outcome(Authenticate(Send(Record(c, Published(s.login, Some(s.key))), reply)), true)
  }

  function OpsByChecks(patch: bool, supported: bool, s: Session, a: Answer, reply: Bytes): Program {
    if patch then Program(OfferOps(s, a), true)
    else if !supported then Program([Invalid()], true)
    else if !a.published then Program([Shutdown], false)
    else Program(AdmitOps(s, Published(s.login, Some(s.key)), reply), true)
  }

  lemma ChecksRun(patch: bool, supported: bool, c: Core, a: Answer, reply: Bytes)
    ensures Runs(c, OpsByChecks(patch, supported, c.session, a, reply), ByChecks(patch, supported, c, a, reply))
  {
    if patch { OfferRuns(c, a); }
    else if !supported { PerformOne(c, Invalid()); }
    else if !a.published { PerformOne(c, Shutdown); }
    else { AdmitRuns(c, Published(c.session.login, Some(c.session.key)), reply); }
  }

  function AcceptedOps(policy: PatchPolicy, s: Session, m2: Digest, a: Answer): Program {
    OpsByChecks(ShouldPatch(policy, s.build, Supported(s.build)), Supported(s.build), s, a, ProofReply(s.build, m2))
  }

  lemma AcceptedIsByChecks(policy: PatchPolicy, c: Core, m2: Digest, a: Answer, supported: bool)
    requires supported == Supported(c.session.build)
    ensures ProofAccepted(policy, c, m2, a)
         == ByChecks(ShouldPatch(policy, c.session.build, supported), supported, c, a, ProofReply(c.session.build, m2))
  {
  }

  lemma AcceptedRuns(policy: PatchPolicy, c: Core, m2: Digest, a: Answer)
    ensures Runs(c, AcceptedOps(policy, c.session, m2, a), ProofAccepted(policy, c, m2, a))
  {
    var supported := Supported(c.session.build);
    AcceptedIsByChecks(policy, c, m2, a, supported);
    ChecksRun(ShouldPatch(policy, c.session.build, supported), supported, c, a, ProofReply(c.session.build, m2));
  }

  function JudgedOps(policy: PatchPolicy, c: Core, a: Answer, j: Judgement): Program {
    match j
    case ZeroA => Program([Assign(SetStatus(c, Closed).session)], false)
    case Mismatch(key) => Program([Assign(Keyed(c, key).session), Transmit(WrongPassword(c.session.build))], true)
    case Match(key, m2) =>
      var prog := AcceptedOps(policy, Keyed(c, key).session, m2, a);
      Program([Assign(Keyed(c, key).session)] + prog.ops, prog.ok)
  }

  lemma JudgedRuns(policy: PatchPolicy, c: Core, a: Answer, j: Judgement)
    ensures Runs(c, JudgedOps(policy, c, a, j), Judged(policy, c, a, j))
  {
    match j
    case ZeroA => PerformOne(c, Assign(SetStatus(c, Closed).session));
    case Mismatch(key) => PerformTwo(c, Assign(Keyed(c, key).session), Transmit(WrongPassword(c.session.build)));
    case Match(key, m2) =>
      var prog := AcceptedOps(policy, Keyed(c, key).session, m2, a);
      PerformConcat(c, [Assign(Keyed(c, key).session)], prog.ops);
      PerformOne(c, Assign(Keyed(c, key).session));
      AcceptedRuns(policy, Keyed(c, key), m2, a);
  }

  function ReconnectChallengeOps(c: Core, f: Bytes, a: Answer): Program
    requires ChallengeFrame(f)
  {
    var s1 := WithIdentity(c, f).session.(locale := LocaleOf(f));
    if |s1.os| > 4 then Program([Assign(s1)], false)
    else
      var s2 := s1.(os := Reverse(s1.os));
      match a.sessionKey
      case None => Program([Assign(s2), Shutdown], false)
      case Some(k) =>
        Program([Assign(s2), Assign(s2.(key := k, status := ReconnectProof, nonce := FromLE(a.nonce))),
                 Transmit(ReconnectReply(FromLE(a.nonce)))], true)
  }

  lemma ReconnectChallengeRuns(c: Core, f: Bytes, a: Answer)
    requires ChallengeFrame(f)
    ensures Runs(c, ReconnectChallengeOps(c, f, a), ReconnectChallenge(c, f, a))
  {
    var s1 := WithIdentity(c, f).session.(locale := LocaleOf(f));
    if |s1.os| > 4 {
      PerformOne(c, Assign(s1));
    } else {
      var s2 := s1.(os := Reverse(s1.os));
      match a.sessionKey
      case None => PerformTwo(c, Assign(s2), Shutdown);
      case Some(k) =>
        PerformThree(c, Assign(s2), Assign(s2.(key := k, status := ReconnectProof, nonce := FromLE(a.nonce))),
                     Transmit(ReconnectReply(FromLE(a.nonce))));
    }
  }

  function ReconnectProofOps(env: Env, c: Core, f: Bytes, a: Answer): Program
    requires |f| == RECONNECT_PROOF_SIZE
  {
    var s := SetStatus(c, Closed).session;
    if s.login == [] || s.nonce == 0 || s.key == 0 then Program([Assign(s)], false)
    else if !ReconnectMatches(env, s, f) || !a.published then Program([Assign(s), Shutdown], false)
    else Program([Assign(s)] + AdmitOps(s, Published(s.login, None), ReconnectProofReply(s.build)), true)
  }

  lemma ReconnectProofRuns(env: Env, c: Core, f: Bytes, a: Answer)
    requires |f| == RECONNECT_PROOF_SIZE
    ensures Runs(c, ReconnectProofOps(env, c, f, a), ReconnectProofStep(env, c, f, a))
  {
    var c1 := SetStatus(c, Closed);
    var s := c1.session;
    PerformOne(c, Assign(s));
    PerformTwo(c, Assign(s), Shutdown);
    PerformConcat(c, [Assign(s)], AdmitOps(s, Published(s.login, None), ReconnectProofReply(s.build)));
    AdmitRuns(c1, Published(s.login, None), ReconnectProofReply(s.build));
  }

  function RealmListOps(c: Core, a: Answer): Program {
    if !a.accountFound then Program([Shutdown], false) else Program([Transmit(RealmListReply(c.session, a))], true)
  }

  function TransferOps(c: Core, offset: nat): Program {
    match c.session.artifact
    case None => Program([Shutdown], false)
    case Some(art) =>
      var s := c.session.(status := Closed, artifact := None);
      if PatchStream.SeekAccepted(|art.data|, offset)
      then Program([Assign(s), Mark(TransferStarted(art, offset))], true) else Program([Assign(s), Shutdown], false)
  }

  lemma AfterProofRuns(c: Core, a: Answer, offset: nat)
    ensures Runs(c, RealmListOps(c, a), RealmListStep(c, a))
    ensures Runs(c, TransferOps(c, offset), BeginPatchStream(c, offset))
  {
    PerformOne(c, Shutdown);
    PerformOne(c, Transmit(RealmListReply(c.session, a)));
    if c.session.artifact.Some? {
      var s := c.session.(status := Closed, artifact := None);
      PerformTwo(c, Assign(s), Mark(TransferStarted(c.session.artifact.value, offset)));
      PerformTwo(c, Assign(s), Shutdown);
    }
  }

  function HandlerOps(env: Env, c: Core, f: Bytes, a: Answer): Program
    requires FrameVerdict(c.session.status, f) == Complete(|f|)
  {
    var cmd := f[0];
    if cmd == CMD_AUTH_LOGON_CHALLENGE then LogonChallengeOps(env, c, f, a)
    else if cmd == CMD_AUTH_LOGON_PROOF then
      JudgedOps(env.policy, c, a, Judge(env.sha, c.session.login, KeysOf(c.session), f))
    else if cmd == CMD_AUTH_RECONNECT_CHALLENGE then ReconnectChallengeOps(c, f, a)
    else if cmd == CMD_AUTH_RECONNECT_PROOF then ReconnectProofOps(env, c, f, a)
    else if cmd == CMD_REALM_LIST then RealmListOps(c, a)
    else if cmd == CMD_XFER_ACCEPT then TransferOps(c, 0)
    else if cmd == CMD_XFER_RESUME then TransferOps(c, FromLE(f[1..9]))
    else Program([Shutdown], true)
  }

  /** Undisturbed, the operations are the handler. */
  lemma OpsAreHandler(env: Env, c: Core, f: Bytes, a: Answer)
    requires FrameVerdict(c.session.status, f) == Complete(|f|)
    ensures Runs(c, HandlerOps(env, c, f, a), Handle(env, c, f, a))
  {
    if f[0] == CMD_AUTH_LOGON_CHALLENGE { LogonChallengeRuns(env, c, f, a); }
    else if f[0] == CMD_AUTH_LOGON_PROOF {
      JudgedRuns(env.policy, c, a, Judge(env.sha, c.session.login, KeysOf(c.session), f));
    }
    else if f[0] == CMD_AUTH_RECONNECT_CHALLENGE { ReconnectChallengeRuns(c, f, a); }
    else if f[0] == CMD_AUTH_RECONNECT_PROOF { ReconnectProofRuns(env, c, f, a); }
    else if f[0] == CMD_REALM_LIST || f[0] == CMD_XFER_ACCEPT { AfterProofRuns(c, a, 0); }
    else if f[0] == CMD_XFER_RESUME { AfterProofRuns(c, a, FromLE(f[1..9])); }
    else { PerformOne(c, Shutdown); }
  }

  // ----- runs in which any pass may be interrupted -----

  /** A whole step, or a pass with a close from outside after `p` of its handler's operations. */
  datatype Fine = Whole(input: Input) | Cut(p: nat)

  /** The dispatch of a frame, interrupted. */
  function CutDispatch(env: Env, c: Core, f: Bytes, p: nat): Core
    requires FrameVerdict(c.session.status, f) == Complete(|f|)
  {
    var ops := HandlerOps(env, Entered(c, f), f, env.oracle(|c.commands|)).ops;
    Interrupted(Entered(c, f), ops, if p <= |ops| then p else |ops|)
  }

  /** A handler that fails is closed once more, to no effect; the loop ends either way. */
  function CutPass(env: Env, st: Stream, p: nat): Stream {
    if st.Open() && st.Verdict().Complete? then
      CompleteIsLocal(st.core.session.status, st.pending);
      var n := st.Verdict().size;
      var f := st.pending[..n];
      var ok := HandlerOps(env, Entered(st.core, f), f, env.oracle(|st.core.commands|)).ok;
      var d := CutDispatch(env, st.core, f, p);
      if ok then Stream(d, st.pending[n..]) else Stream(Close(d), [])
    else Step(env, st, Shut)
  }

  function FineStep(env: Env, st: Stream, x: Fine): Stream {
    match x
    case Whole(input) => Step(env, st, input)
    case Cut(p) => CutPass(env, st, p)
  }

  function FineRun(env: Env, start: int, timeout: int, xs: seq<Fine>): Stream
    decreases |xs|
  {
    if xs == [] then NewStream(start, timeout)
    else FineStep(env, FineRun(env, start, timeout, xs[..|xs| - 1]), xs[|xs| - 1])
  }

  lemma CutIsTwin(env: Env, c: Core, f: Bytes, p: nat)
    requires FrameVerdict(c.session.status, f) == Complete(|f|) && !c.session.closed
    ensures var d := CutDispatch(env, c, f, p);
            Twin(Dispatch(env, c, f).core, d) && d.closers == c.closers + 1 && Close(d) == d
  {
    var c1, a := Entered(c, f), env.oracle(|c.commands|);
    var ops := HandlerOps(env, c1, f, a).ops;
    OpsAreHandler(env, c1, f, a);
    InterruptedIsTwin(c1, ops, if p <= |ops| then p else |ops|);
  }

  /** Interrupted, a transfer command loses nothing but the connection. */
  lemma CutTransferKeepsTrace(env: Env, c: Core, f: Bytes, p: nat)
    requires FrameVerdict(c.session.status, f) == Complete(|f|) && c.session.status == Patch
    ensures CutDispatch(env, c, f, p).trace == Dispatch(env, c, f).core.trace
  {
    var c1, a := Entered(c, f), env.oracle(|c.commands|);
    var ops := HandlerOps(env, c1, f, a).ops;
    OpsAreHandler(env, c1, f, a);
    InterruptedIsTwin(c1, ops, if p <= |ops| then p else |ops|);
  }

  /** A realm-list request loses at most its reply. */
  lemma CutRealmListTrace(env: Env, c: Core, f: Bytes, p: nat)
    requires FrameVerdict(c.session.status, f) == Complete(|f|)
    requires c.session.status == Authenticated && !c.session.closed
    ensures var t := CutDispatch(env, c, f, p).trace;
            || t == Entered(c, f).trace
            || t == Entered(c, f).trace + [Sent(RealmListReply(c.session, env.oracle(|c.commands|)))]
  {
    var c1, a := Entered(c, f), env.oracle(|c.commands|);
    var ops := RealmListOps(c1, a).ops;
    assert HandlerOps(env, c1, f, a).ops == ops && |ops| == 1 && ops[1..] == [];
    PerformOne(Close(c1), ops[0]);
    if p > 0 { assert Interrupted(c1, ops, 1) == Interrupted(Apply(c1, ops[0]), ops[1..], 0); }
  }

  lemma TwinControl(c: Core, d: Core)
    requires Control(c) && Twin(c, d) && d.closers == 1
    ensures Control(d)
  {
  }

  /** Closed by an interruption: control is intact, and there is nothing to be safe about. */
  predicate Silenced(c: Core) { c.session.closed && Control(c) && AllTame(c.trace) }

  ghost predicate FineInv(env: Env, c: Core) { Inv(ClaimsOf(env), c) || Silenced(c) }

  lemma CutBeforeAdmission(env: Env, c: Core, f: Bytes, p: nat)
    requires Inv(ClaimsOf(env), c) && FrameVerdict(c.session.status, f) == Complete(|f|) && !c.session.closed
    requires c.session.status in {Challenge, LogonProof, ReconnectProof}
    ensures Silenced(CutDispatch(env, c, f, p))
  {
    QuietIsTame(c.trace);
    DispatchIsTame(env, c, f);
    DispatchKeeps(env, c, f);
    CutIsTwin(env, c, f, p);
    TwinControl(Dispatch(env, c, f).core, CutDispatch(env, c, f, p));
  }

  lemma SameTraceKeeps(k: Claims, c: Core, d: Core)
    requires Inv(k, c) && Twin(c, d) && d.closers == 1 && d.trace == c.trace
    ensures Inv(k, d)
  {
    TwinControl(c, d);
  }

  lemma CutTransfer(env: Env, c: Core, f: Bytes, p: nat)
    requires Inv(ClaimsOf(env), c) && FrameVerdict(c.session.status, f) == Complete(|f|) && !c.session.closed
    requires c.session.status == Patch
    ensures Inv(ClaimsOf(env), CutDispatch(env, c, f, p))
  {
    DispatchKeeps(env, c, f);
    CutIsTwin(env, c, f, p);
    CutTransferKeepsTrace(env, c, f, p);
    SameTraceKeeps(ClaimsOf(env), Dispatch(env, c, f).core, CutDispatch(env, c, f, p));
  }

  lemma ExtendedKeeps(k: Claims, c: Core, d: Core)
    requires LetIn(k, c.trace) && d.session.status == Authenticated && Control(d) && c.trace <= d.trace
    requires forall i :: |c.trace| <= i < |d.trace| ==> RealmRequest(d.trace[i]) || RealmReply(d.trace[i])
    ensures Inv(k, d)
  {
    var t := d.trace;
    assert t[0] == c.trace[0] && t[1] == c.trace[1] && t[2] == c.trace[2] && t[3] == c.trace[3] && t[4] == c.trace[4];
    forall i | 5 <= i < |t| ensures RealmRequest(t[i]) || RealmReply(t[i]) {
      if i < |c.trace| { assert t[i] == c.trace[i]; }
    }
  }

  lemma RealmTraceKeeps(k: Claims, c: Core, f: Bytes, d: Core, reply: Bytes)
    requires Inv(k, c) && c.session.status == Authenticated && RealmRequest(Dispatched(f)) && RealmReply(Sent(reply))
    requires d.session.status == Authenticated && Control(d)
    requires d.trace == c.trace + [Dispatched(f)] || d.trace == c.trace + [Dispatched(f)] + [Sent(reply)]
    ensures Inv(k, d)
  {
    ExtendedKeeps(k, c, d);
  }

  lemma RealmListStays(env: Env, c: Core, f: Bytes)
    requires FrameVerdict(c.session.status, f) == Complete(|f|)
    requires !c.session.closed && c.session.status == Authenticated
    ensures f[0] == CMD_REALM_LIST && Dispatch(env, c, f).core.session.status == Authenticated
  {
    DispatchProgress(env, c, f);
  }

  lemma CutControl(env: Env, c: Core, f: Bytes, p: nat)
    requires FrameVerdict(c.session.status, f) == Complete(|f|) && !c.session.closed
    requires Control(c) && Control(Dispatch(env, c, f).core)
    ensures var d := CutDispatch(env, c, f, p);
            Control(d) && d.session.status == Dispatch(env, c, f).core.session.status
  {
    CutIsTwin(env, c, f, p);
    TwinControl(Dispatch(env, c, f).core, CutDispatch(env, c, f, p));
  }

  lemma CutRealmListShape(k: Claims, env: Env, c: Core, f: Bytes, p: nat)
    requires Inv(k, c) && FrameVerdict(c.session.status, f) == Complete(|f|) && !c.session.closed
    requires c.session.status == Authenticated && f[0] == CMD_REALM_LIST
    requires Control(CutDispatch(env, c, f, p)) && CutDispatch(env, c, f, p).session.status == Authenticated
    ensures Inv(k, CutDispatch(env, c, f, p))
  {
    var reply := RealmListReply(c.session, env.oracle(|c.commands|));
    CutRealmListTrace(env, c, f, p);
    RealmListReplyHead(c.session, env.oracle(|c.commands|));
    RealmTraceKeeps(k, c, f, CutDispatch(env, c, f, p), reply);
  }

  lemma CutRealmList(env: Env, c: Core, f: Bytes, p: nat)
    requires Inv(ClaimsOf(env), c) && FrameVerdict(c.session.status, f) == Complete(|f|) && !c.session.closed
    requires c.session.status == Authenticated
    ensures Inv(ClaimsOf(env), CutDispatch(env, c, f, p))
  {
    DispatchKeeps(env, c, f);
    RealmListStays(env, c, f);
    CutControl(env, c, f, p);
    CutRealmListShape(ClaimsOf(env), env, c, f, p);
  }

  lemma CutPassKeeps(env: Env, st: Stream, p: nat)
    requires Inv(ClaimsOf(env), st.core)
    ensures FineInv(env, CutPass(env, st, p).core)
  {
    if st.Open() && st.Verdict().Complete? {
      CompleteIsLocal(st.core.session.status, st.pending);
      var f := st.pending[..st.Verdict().size];
      CutIsTwin(env, st.core, f, p);
      if st.core.session.status == Patch { CutTransfer(env, st.core, f, p); }
      else if st.core.session.status == Authenticated { CutRealmList(env, st.core, f, p); }
      else { CutBeforeAdmission(env, st.core, f, p); }
    } else {
      StepKeeps(env, st, Shut);
    }
  }

  lemma {:induction false} FineRunKeeps(env: Env, start: int, timeout: int, xs: seq<Fine>)
    ensures FineInv(env, FineRun(env, start, timeout, xs).core)
    decreases |xs|
  {
    if xs == [] {
      RunKeeps(env, start, timeout, []);
    } else {
      var n := |xs| - 1;
      var st := FineRun(env, start, timeout, xs[..n]);
      FineRunKeeps(env, start, timeout, xs[..n]);
      FineStepKeeps(env, st, xs[n]);
    }
  }

  lemma FineStepKeeps(env: Env, st: Stream, x: Fine)
    requires FineInv(env, st.core)
    ensures FineInv(env, FineStep(env, st, x).core)
  {
    if Inv(ClaimsOf(env), st.core) {
      match x
      case Whole(input) => StepKeeps(env, st, input);
      case Cut(p) => CutPassKeeps(env, st, p);
    } else {
      StepProgress(env, st, if x.Whole? then x.input else Shut);
    }
  }

  // ----- the guarantees -----

  lemma SafeReply(env: Env, c: Core, i: nat)
    requires FineInv(env, c) && i < |c.trace| && RealmReply(c.trace[i])
    ensures AdmittedBefore(env, c.trace, i)
  {
    NotSilenced(c, i);
    ReplyNeedsAuthentication(ClaimsOf(env), c, i);
  }

  lemma NotSilenced(c: Core, i: nat)
    requires i < |c.trace| && !Tame(c.trace[i])
    ensures !Silenced(c)
  {
    assert c.trace[i] in c.trace;
  }

  lemma SafeTransfer(env: Env, c: Core, i: nat)
    requires FineInv(env, c) && i < |c.trace| && c.trace[i].TransferStarted?
    ensures OfferedBefore(env, c.trace, i)
  {
    NotSilenced(c, i);
    TransferNeedsClaims(env, c, i);
  }

  /** Wherever closes from other threads land, inside handlers or between them: every
      realm-list reply has its one proof and one publication before it ... */
  lemma FineRealmListSafety(env: Env, start: int, timeout: int, xs: seq<Fine>, i: nat)
    requires i < |FineRun(env, start, timeout, xs).core.trace|
    requires RealmReply(FineRun(env, start, timeout, xs).core.trace[i])
    ensures AdmittedBefore(env, FineRun(env, start, timeout, xs).core.trace, i)
  {
    FineRunKeeps(env, start, timeout, xs);
    SafeReply(env, FineRun(env, start, timeout, xs).core, i);
  }

  /** ... every transfer its proof and its offer ... */
  lemma FineTransferSafety(env: Env, start: int, timeout: int, xs: seq<Fine>, i: nat)
    requires i < |FineRun(env, start, timeout, xs).core.trace|
    requires FineRun(env, start, timeout, xs).core.trace[i].TransferStarted?
    ensures OfferedBefore(env, FineRun(env, start, timeout, xs).core.trace, i)
  {
    FineRunKeeps(env, start, timeout, xs);
    SafeTransfer(env, FineRun(env, start, timeout, xs).core, i);
  }

  /** ... and commands, counters, artifact, deadline and closer keep their discipline. */
  lemma FineCommandLanguage(env: Env, start: int, timeout: int, xs: seq<Fine>)
    ensures var c := FineRun(env, start, timeout, xs).core;
            Control(c) && OneOfEach(c.commands)
  {
    FineRunKeeps(env, start, timeout, xs);
    var c := FineRun(env, start, timeout, xs).core;
    LanguageIsOneOfEach(c.session, c.commands);
  }

  // ----- what can be lost -----

  lemma {:induction false} InterruptedBetween(c: Core, xs: seq<Op>, ys: seq<Op>)
    ensures Interrupted(c, xs + ys, |xs|) == Perform(Close(Perform(c, xs)), ys)
    decreases |xs|
  {
    if xs == [] {
      assert xs + ys == ys;
    } else {
      assert (xs + ys)[1..] == xs[1..] + ys;
      InterruptedBetween(Apply(c, xs[0]), xs[1..], ys);
    }
  }

  lemma {:induction false} ClosedIsSilent(d: Core, ops: seq<Op>)
    requires d.session.closed && forall op :: op in ops ==> !op.Mark?
    ensures Perform(d, ops).trace == d.trace
    decreases |ops|
  {
    if ops != [] { ClosedIsSilent(Apply(d, ops[0]), ops[1..]); }
  }

  /** Closed between publication and reply, a logon is authenticated and published, and its
      client is never told. */
  lemma SilentAdmission(c: Core, s: Session, e: Event, reply: Bytes)
    requires !c.session.closed
    ensures var ops := [Assign(s)] + AdmitOps(s, e, reply);
            |ops| >= 2 && Interrupted(c, ops, 2).trace == c.trace + [e]
  {
    var xs, ys := [Assign(s), Mark(e)], [Transmit(reply), Assign(s.(status := Authenticated)), EndDeadline, Count];
    assert [Assign(s)] + AdmitOps(s, e, reply) == xs + ys;
    InterruptedBetween(c, xs, ys);
    PerformTwo(c, Assign(s), Mark(e));
    ClosedIsSilent(Close(Perform(c, xs)), ys);
  }

  lemma MatchedOps(env: Env, c: Core, f1: Bytes, j: Judgement)
    requires c.session.status == LogonProof && FrameVerdict(LogonProof, f1) == Complete(|f1|)
    requires Judge(env.sha, c.session.login, KeysOf(c.session), f1) == j
    ensures HandlerOps(env, c, f1, env.oracle(1)) == JudgedOps(env.policy, c, env.oracle(1), j)
  {
    assert f1[0] == CMD_AUTH_LOGON_PROOF;
  }

  lemma MatchOps(policy: PatchPolicy, c: Core, a: Answer, key: nat, m2: Digest)
    requires Supported(c.session.build) && !ShouldPatch(policy, c.session.build, true) && a.published
    ensures var s := Keyed(c, key).session;
            JudgedOps(policy, c, a, Match(key, m2)).ops
            == [Assign(s)] + AdmitOps(s, Published(s.login, Some(key)), ProofReply(s.build, m2))
  {
  }

  lemma SilentLogon(env: Env, c: Core, f1: Bytes, key: nat, m2: Digest)
    requires c.session.status == LogonProof && !c.session.closed && |c.commands| == 1
    requires FrameVerdict(LogonProof, f1) == Complete(|f1|)
    requires Judge(env.sha, c.session.login, KeysOf(c.session), f1) == Match(key, m2)
    requires Supported(c.session.build) && !ShouldPatch(env.policy, c.session.build, true) && env.oracle(1).published
    ensures var d := CutDispatch(env, c, f1, 2);
            && d.session.status == Authenticated && d.session.closed
            && d.trace == c.trace + [Dispatched(f1)] + [Published(c.session.login, Some(key))]
  {
    var c1 := Entered(c, f1);
    var s := Keyed(c1, key).session;
    MatchedOps(env, c1, f1, Match(key, m2));
    MatchOps(env.policy, c1, env.oracle(1), key, m2);
    SilentAdmission(c1, s, Published(s.login, Some(key)), ProofReply(s.build, m2));
    CutIsTwin(env, c, f1, 2);
    var e := MatchDispatched(env, c, f1, key, m2);
  }

  lemma FineSnoc(env: Env, start: int, timeout: int, xs: seq<Fine>, x: Fine)
    ensures FineRun(env, start, timeout, xs + [x]) == FineStep(env, FineRun(env, start, timeout, xs), x)
  {
    assert (xs + [x])[..|xs|] == xs;
  }

  function SilentSteps(f0: Bytes, f1: Bytes): seq<Fine> {
    [Whole(Chunk(f0))] + [Whole(Pass)] + [Whole(Chunk(f1))] + [Cut(2)]
  }

  lemma SilentRun(env: Env, start: int, timeout: int, f0: Bytes, f1: Bytes, c: Core, d: Core)
    requires c == Fresh(start, timeout) && Accepts(env, c, f0, d)
    requires |f0| <= MAX_PENDING_INPUT && |f1| <= MAX_PENDING_INPUT
    requires FrameVerdict(d.session.status, f1) == Complete(|f1|)
    ensures FineRun(env, start, timeout, SilentSteps(f0, f1)).core == CutDispatch(env, d, f1, 2)
  {
    var x0: seq<Fine> := [];
    var x1 := x0 + [Whole(Chunk(f0))];
    var x2 := x1 + [Whole(Pass)];
    var x3 := x2 + [Whole(Chunk(f1))];
    FineSnoc(env, start, timeout, x0, Whole(Chunk(f0)));
    LateExpiry.ChunkArrives(env, c, f0);
    FineSnoc(env, start, timeout, x1, Whole(Pass));
    LateExpiry.PassAccepts(env, Stream(c, f0), f0, d);
    FineSnoc(env, start, timeout, x2, Whole(Chunk(f1)));
    LateExpiry.ChunkArrives(env, d, f1);
    FineSnoc(env, start, timeout, x3, Cut(2));
    CutOfFrame(env, d, f1, 2);
    assert SilentSteps(f0, f1) == x3 + [Cut(2)];
  }

  lemma CutOfFrame(env: Env, d: Core, f: Bytes, p: nat)
    requires FrameVerdict(d.session.status, f) == Complete(|f|) && !d.session.closed
    ensures CutPass(env, Stream(d, f), p).core == CutDispatch(env, d, f, p)
  {
    assert f[..|f|] == f;
    CutIsTwin(env, d, f, p);
  }

  /** This can happen to every honest logon that would be let in: its key is published and its
      socket authenticated, and the reply is all that is missing. */
  lemma HonestLogonCanBeSilent(env: Env, start: int, timeout: int, f0: Bytes, client: Client, crc: Digest, flags: byte)
    requires Welcome(env, f0, client)
    requires Supported(BuildOf(f0)) && !ShouldPatch(env.policy, BuildOf(f0), true) && env.oracle(1).published
    ensures var k, f1 := KeysSent(env), HonestProof(env, client, crc, flags);
            var c := FineRun(env, start, timeout, SilentSteps(f0, f1)).core;
            && c.session.status == Authenticated && c.session.closed
            && c.trace == [Dispatched(f0), Sent(ChallengeReply(k.public, k.salt, env.oracle(0).filler))]
                          + [Dispatched(f1)]
                          + [Published(client.name, Some(FromLE(ClientKey(env.sha, client, OfferOf(k)))))]
  {
    var k, f1 := KeysSent(env), HonestProof(env, client, crc, flags);
    var d := ChallengeDispatched(env, start, timeout, f0, client);
    ChallengeFrameSize(f0);
    RowMakesKeys(env.sha, env.oracle(0), client.digest);
    HonestProofMatches(env.sha, k, client, crc, flags);
    SilentRun(env, start, timeout, f0, f1, Fresh(start, timeout), d);
    SilentLogon(env, d, f1, FromLE(ClientKey(env.sha, client, OfferOf(k))), ClientM2(env.sha, client, OfferOf(k)));
  }
}
