/** One socket and the realm list together: the list is refreshed by any threads while the
    socket goes through its run, and each realm-list request looks at the list as it is then. */
module RealmReplies {
  import opened Wire
  import opened Guard
  import opened BuildPolicy
  import opened AuthSession
  import opened AuthStream
  import opened AuthRuns
  import opened RealmIndex
  import opened RealmPacket
  import opened RealmDelivery
  import RealmRefresh

  /** What the database and the transport add to a view: the character counts found by the
      n-th handler call, by realm id, and the address picked for the client. */
  datatype Outside = Outside(characters: nat -> nat -> byte, address: Realm -> Bytes)

  datatype Joint = Joint(st: Stream, list: RealmRefresh.State)

  datatype Move = Refresh(action: RealmRefresh.Action) | Do(input: Input)

  /** The list is in a state its protocol can reach. */
  predicate Ready(list: RealmRefresh.State) { RealmRefresh.Sane(list) && RealmRefresh.OnlyComplete(list) }

  /** The view taken of the current snapshot for the client's version. */
  function ViewNow(out: Outside, j: Joint): seq<Shown>
    requires Ready(j.list)
  {
    ViewOf(j.list.memory[j.list.current], BelongsToVersion(j.st.core.session.build),
           out.characters(|j.st.core.commands|), out.address)
  }

  function WithView(a: Answer, view: seq<Shown>): Answer { a.(view := view) }

  function EnvWith(env: Env, view: seq<Shown>): Env { env.(oracle := (n: nat) => WithView(env.oracle(n), view)) }

  function JointStep(env: Env, out: Outside, j: Joint, m: Move): Joint
    requires Ready(j.list)
  {
    match m
    case Refresh(action) => j.(list := RealmRefresh.Step(j.list, action))
    case Do(input) => j.(st := Step(EnvWith(env, ViewNow(out, j)), j.st, input))
  }

  function JointRun(env: Env, out: Outside, start: int, timeout: int, moves: seq<Move>): (j: Joint)
    ensures Ready(j.list)
    decreases |moves|
  {
    if moves == [] then Joint(NewStream(start, timeout), RealmRefresh.Start())
    else
      var before := JointRun(env, out, start, timeout, moves[..|moves| - 1]);
      RefreshStaysReady(before.list, moves[|moves| - 1]);
      JointStep(env, out, before, moves[|moves| - 1])
  }

  lemma RefreshStaysReady(list: RealmRefresh.State, m: Move)
    requires Ready(list)
    ensures m.Refresh? ==> Ready(RealmRefresh.Step(list, m.action))
  {
    if m.Refresh? {
      RealmRefresh.StepSane(list, m.action);
      RealmRefresh.StepComplete(list, m.action);
    }
  }

  // ----- what is claimed about proofs does not depend on views -----

  lemma KeysIgnoreView(env: Env, view: seq<Shown>)
    requires env.oracle(0).account.Some?
    ensures KeysFor(env.sha, WithView(env.oracle(0), view)) == KeysFor(env.sha, env.oracle(0))
  {
  }

  lemma RefusalIgnoresView(build: nat, a: Answer, view: seq<Shown>)
    ensures Refusal(build, WithView(a, view)) == Refusal(build, a)
  {
  }

  lemma LogonIgnoresView(env: Env, view: seq<Shown>, f0: Bytes, r: Bytes)
    ensures LogonOpening(EnvWith(env, view), f0, r) <==> LogonOpening(env, f0, r)
  {
    if ChallengeFrame(f0) { RefusalIgnoresView(BuildOf(f0), env.oracle(0), view); }
    if env.oracle(0).account.Some? { KeysIgnoreView(env, view); }
  }

  lemma HeldIgnoresView(env: Env, view: seq<Shown>, x: Fixed, f0: Bytes)
    ensures HoldsChallenge(EnvWith(env, view), x, f0) <==> HoldsChallenge(env, x, f0)
    ensures HoldsReconnect(EnvWith(env, view), x, f0) <==> HoldsReconnect(env, x, f0)
  {
    if env.oracle(0).account.Some? { KeysIgnoreView(env, view); }
  }

  lemma OpeningIgnoresView(env: Env, view: seq<Shown>, x: Fixed, f0: Bytes, r: Bytes)
    ensures ClaimsOf(EnvWith(env, view)).logonOpened(x, f0, r) <==> ClaimsOf(env).logonOpened(x, f0, r)
    ensures ClaimsOf(EnvWith(env, view)).reconnectOpened(x, f0, r) <==> ClaimsOf(env).reconnectOpened(x, f0, r)
  {
    LogonIgnoresView(env, view, f0, r);
    HeldIgnoresView(env, view, x, f0);
  }

  lemma ProvedIgnoresView(env: Env, view: seq<Shown>, f0: Bytes, r: Bytes, f1: Bytes)
    ensures LogonProved(EnvWith(env, view), f0, r, f1) <==> LogonProved(env, f0, r, f1)
  {
    LogonIgnoresView(env, view, f0, r);
    if env.oracle(0).account.Some? { KeysIgnoreView(env, view); }
  }

  lemma ProofIgnoresView(env: Env, view: seq<Shown>, f0: Bytes, r: Bytes, f1: Bytes, e: Event)
    ensures ClaimsOf(EnvWith(env, view)).patchDue(f0, r, f1) <==> ClaimsOf(env).patchDue(f0, r, f1)
    ensures LoggedOn(EnvWith(env, view), f0, r, f1, e) <==> LoggedOn(env, f0, r, f1, e)
    ensures Reconnected(EnvWith(env, view), f0, r, f1, e) <==> Reconnected(env, f0, r, f1, e)
  {
    ProvedIgnoresView(env, view, f0, r, f1);
    if env.oracle(0).account.Some? { KeysIgnoreView(env, view); }
  }

  /** Two sets of claims that agree everywhere. */
  ghost predicate SameClaims(k: Claims, l: Claims) {
    && (forall x, f, r :: k.logonOpened(x, f, r) <==> l.logonOpened(x, f, r))
    && (forall x, f, r :: k.reconnectOpened(x, f, r) <==> l.reconnectOpened(x, f, r))
    && (forall f, r, g, e :: k.admitted(f, r, g, e) <==> l.admitted(f, r, g, e))
    && (forall f, r, g :: k.patchDue(f, r, g) <==> l.patchDue(f, r, g))
  }

  lemma InvCarries(k: Claims, l: Claims, c: Core)
    requires SameClaims(k, l) && Inv(k, c)
    ensures Inv(l, c)
  {
  }

  lemma ClaimsIgnoreView(env: Env, view: seq<Shown>)
    ensures SameClaims(ClaimsOf(env), ClaimsOf(EnvWith(env, view)))
  {
    var k, l := ClaimsOf(env), ClaimsOf(EnvWith(env, view));
    forall x, f, r ensures k.logonOpened(x, f, r) <==> l.logonOpened(x, f, r) {
      OpeningIgnoresView(env, view, x, f, r);
    }
    forall x, f, r ensures k.reconnectOpened(x, f, r) <==> l.reconnectOpened(x, f, r) {
      OpeningIgnoresView(env, view, x, f, r);
    }
    forall f, r, g, e ensures k.admitted(f, r, g, e) <==> l.admitted(f, r, g, e) {
      ProofIgnoresView(env, view, f, r, g, e);
    }
    forall f, r, g ensures k.patchDue(f, r, g) <==> l.patchDue(f, r, g) {
      ProofIgnoresView(env, view, f, r, g, Dispatched([]));
    }
  }

  lemma StepKeepsClaims(env: Env, view: seq<Shown>, st: Stream, input: Input)
    requires Inv(ClaimsOf(env), st.core)
    ensures Inv(ClaimsOf(env), Step(EnvWith(env, view), st, input).core)
  {
    ClaimsIgnoreView(env, view);
    InvCarries(ClaimsOf(env), ClaimsOf(EnvWith(env, view)), st.core);
    StepKeeps(EnvWith(env, view), st, input);
    InvCarries(ClaimsOf(EnvWith(env, view)), ClaimsOf(env), Step(EnvWith(env, view), st, input).core);
  }

  // ----- what a reply is made of -----

  /** The reply for a session, from the rows of a table. */
  function ReplyFor(out: Outside, s: Session, rows: seq<Row>, n: nat): Bytes {
    Reply(LayoutOf(s.build),
          Entries(s.build, s.security, ViewOf(rows, BelongsToVersion(s.build), out.characters(n), out.address)))
  }

  /** Event `e` is the reply made of all the rows of generation `g`. */
  predicate FromGeneration(out: Outside, list: RealmRefresh.State, s: Session, e: Event, g: nat, n: nat) {
    RealmRefresh.Complete(list, g) && e == Sent(ReplyFor(out, s, list.queried[g], n))
  }

  ghost predicate AllFromGenerations(out: Outside, list: RealmRefresh.State, s: Session, t: seq<Event>) {
    forall i :: 0 <= i < |t| && RealmReply(t[i]) ==> exists g, n :: FromGeneration(out, list, s, t[i], g, n)
  }

  lemma RefreshKeepsReplies(out: Outside, list: RealmRefresh.State, s: Session, t: seq<Event>,
                            action: RealmRefresh.Action)
    requires Ready(list) && AllFromGenerations(out, list, s, t)
    ensures AllFromGenerations(out, RealmRefresh.Step(list, action), s, t)
  {
    var later := RealmRefresh.Step(list, action);
    RealmRefresh.StepSane(list, action);
    forall i | 0 <= i < |t| && RealmReply(t[i]) ensures exists g, n :: FromGeneration(out, later, s, t[i], g, n) {
      var g, n :| FromGeneration(out, list, s, t[i], g, n);
      assert FromGeneration(out, later, s, t[i], g, n);
    }
  }

  lemma NoReplies(out: Outside, list: RealmRefresh.State, s: Session, t: seq<Event>)
    requires AllTame(t)
    ensures AllFromGenerations(out, list, s, t)
  {
    forall i | 0 <= i < |t| ensures !RealmReply(t[i]) { assert t[i] in t; }
  }

  lemma SameSessionSameReplies(out: Outside, list: RealmRefresh.State, s: Session, u: Session, t: seq<Event>)
    requires AllFromGenerations(out, list, s, t) && u.build == s.build && u.security == s.security
    ensures AllFromGenerations(out, list, u, t)
  {
    forall i | 0 <= i < |t| && RealmReply(t[i]) ensures exists g, n :: FromGeneration(out, list, u, t[i], g, n) {
      var g, n :| FromGeneration(out, list, s, t[i], g, n);
      assert FromGeneration(out, list, u, t[i], g, n);
    }
  }

  lemma OneMoreReply(out: Outside, list: RealmRefresh.State, s: Session, t: seq<Event>, e: Event, g: nat, n: nat)
    requires AllFromGenerations(out, list, s, t) && (RealmReply(e) ==> FromGeneration(out, list, s, e, g, n))
    ensures AllFromGenerations(out, list, s, t + [e])
  {
    forall i | 0 <= i < |t + [e]| && RealmReply((t + [e])[i])
      ensures exists g, n :: FromGeneration(out, list, s, (t + [e])[i], g, n)
    {
      if i < |t| { assert (t + [e])[i] == t[i]; }
    }
  }

  /** What a step does, as far as replies are concerned. */
  lemma StepTrace(env: Env, st: Stream, input: Input)
    ensures var d, v := Step(env, st, input).core, st.Verdict();
            if input.Pass? && st.Open() && v.Complete?
            then && v.size <= |st.pending|
                 && FrameVerdict(st.core.session.status, st.pending[..v.size]) == Complete(v.size)
                 && var o := Dispatch(env, st.core, st.pending[..v.size]).core;
                 && d.trace == o.trace && d.session.status == o.session.status
                 && d.session.build == o.session.build && d.session.security == o.session.security
            else && d.trace == st.core.trace && d.session.status == st.core.session.status
                 && d.session.build == st.core.session.build && d.session.security == st.core.session.security
  {
    CompleteIsPositive(st);
    if st.Verdict().Complete? { CompleteIsLocal(st.core.session.status, st.pending); }
  }

  /** A realm-list request adds itself and the reply made of the current generation. */
  lemma RequestFromGeneration(env: Env, out: Outside, j: Joint, f: Bytes)
    requires Ready(j.list) && j.st.core.session.status == Authenticated && !j.st.core.session.closed
    requires FrameVerdict(Authenticated, f) == Complete(|f|)
    requires AllFromGenerations(out, j.list, j.st.core.session, j.st.core.trace)
    ensures var d := Dispatch(EnvWith(env, ViewNow(out, j)), j.st.core, f).core;
            && d.session.build == j.st.core.session.build && d.session.security == j.st.core.session.security
            && AllFromGenerations(out, j.list, j.st.core.session, d.trace)
  {
    var c, n := j.st.core, |j.st.core.commands|;
    var a := WithView(env.oracle(n), ViewNow(out, j));
    var d := Dispatch(EnvWith(env, ViewNow(out, j)), c, f).core;
    assert f[0] == CMD_REALM_LIST && d == RealmListStep(Entered(c, f), a).core;
    OneMoreReply(out, j.list, c.session, c.trace, Dispatched(f), 0, 0);
    if a.accountFound {
      assert RealmListReply(c.session, a) == ReplyFor(out, c.session, j.list.queried[j.list.current], n);
      OneMoreReply(out, j.list, c.session, Entered(c, f).trace, Sent(RealmListReply(c.session, a)), j.list.current, n);
      RealmListReplyHead(c.session, a);
    }
  }

  lemma NoReplyUnlessAuthenticated(k: Claims, c: Core)
    requires Inv(k, c) && c.session.status != Authenticated
    ensures forall i :: 0 <= i < |c.trace| ==> !RealmReply(c.trace[i])
  {
    forall i | 0 <= i < |c.trace| ensures !RealmReply(c.trace[i]) {
      if RealmReply(c.trace[i]) { ReplyNeedsAuthentication(k, c, i); }
    }
  }

  lemma TransferAuthenticatesNobody(env: Env, c: Core, f: Bytes)
    requires FrameVerdict(c.session.status, f) == Complete(|f|) && !c.session.closed
    requires c.session.status == Patch && c.session.artifact.Some?
    ensures Dispatch(env, c, f).core.session.status != Authenticated
  {
    DispatchProgress(env, c, f);
  }

  /** Before admission nothing is a reply; after a transfer command nothing is either. */
  lemma OtherFrames(env: Env, c: Core, f: Bytes)
    requires Inv(ClaimsOf(env), c) && FrameVerdict(c.session.status, f) == Complete(|f|) && !c.session.closed
    requires c.session.status != Authenticated
    ensures forall i :: 0 <= i < |Dispatch(env, c, f).core.trace| ==> !RealmReply(Dispatch(env, c, f).core.trace[i])
  {
    var d := Dispatch(env, c, f).core;
    if c.session.status == Patch {
      DispatchKeeps(env, c, f);
      TransferAuthenticatesNobody(env, c, f);
      NoReplyUnlessAuthenticated(ClaimsOf(env), d);
    } else {
      TameBefore(env, c, f);
      forall i | 0 <= i < |d.trace| ensures !RealmReply(d.trace[i]) { assert d.trace[i] in d.trace; }
    }
  }

  lemma TameBefore(env: Env, c: Core, f: Bytes)
    requires Inv(ClaimsOf(env), c) && FrameVerdict(c.session.status, f) == Complete(|f|) && !c.session.closed
    requires c.session.status in {Challenge, LogonProof, ReconnectProof}
    ensures AllTame(Dispatch(env, c, f).core.trace)
  {
    QuietIsTame(c.trace);
    DispatchIsTame(env, c, f);
  }

  lemma SocketKeepsReplies(env: Env, out: Outside, j: Joint, input: Input)
    requires Ready(j.list) && Inv(ClaimsOf(EnvWith(env, ViewNow(out, j))), j.st.core)
    requires AllFromGenerations(out, j.list, j.st.core.session, j.st.core.trace)
    ensures var d := Step(EnvWith(env, ViewNow(out, j)), j.st, input).core;
            AllFromGenerations(out, j.list, d.session, d.trace)
  {
    var now := EnvWith(env, ViewNow(out, j));
    var c, d := j.st.core, Step(now, j.st, input).core;
    StepTrace(now, j.st, input);
    if input.Pass? && j.st.Open() && j.st.Verdict().Complete? {
      var f := j.st.pending[..j.st.Verdict().size];
      if c.session.status == Authenticated {
        RequestFromGeneration(env, out, j, f);
        SameSessionSameReplies(out, j.list, c.session, d.session, d.trace);
      } else {
        OtherFrames(now, c, f);
      }
    } else {
      SameSessionSameReplies(out, j.list, c.session, d.session, d.trace);
    }
  }

  // ----- every joint run -----

  ghost predicate JointInv(env: Env, out: Outside, j: Joint) {
    && Ready(j.list) && Inv(ClaimsOf(env), j.st.core)
    && AllFromGenerations(out, j.list, j.st.core.session, j.st.core.trace)
  }

  lemma JointStepKeeps(env: Env, out: Outside, j: Joint, m: Move)
    requires JointInv(env, out, j)
    ensures JointInv(env, out, JointStep(env, out, j, m))
  {
    match m
    case Refresh(action) =>
      RefreshStaysReady(j.list, m);
      RefreshKeepsReplies(out, j.list, j.st.core.session, j.st.core.trace, action);
    case Do(input) =>
      var view := ViewNow(out, j);
      ClaimsIgnoreView(env, view);
      InvCarries(ClaimsOf(env), ClaimsOf(EnvWith(env, view)), j.st.core);
      SocketKeepsReplies(env, out, j, input);
      StepKeepsClaims(env, view, j.st, input);
  }

  lemma {:induction false} JointRunKeeps(env: Env, out: Outside, start: int, timeout: int, moves: seq<Move>)
    ensures JointInv(env, out, JointRun(env, out, start, timeout, moves))
    decreases |moves|
  {
    if moves == [] {
      RunKeeps(env, start, timeout, []);
    } else {
      var n := |moves| - 1;
      JointRunKeeps(env, out, start, timeout, moves[..n]);
      JointStepKeeps(env, out, JointRun(env, out, start, timeout, moves[..n]), moves[n]);
    }
  }

  /** In every interleaving of one socket with any refreshers: each realm-list reply has its
      proof and publication before it and is made of all the rows of one query. */
  lemma ReplyIsOneGeneration(env: Env, out: Outside, start: int, timeout: int, moves: seq<Move>, i: nat)
    returns (g: nat, n: nat)
    requires i < |JointRun(env, out, start, timeout, moves).st.core.trace|
    requires RealmReply(JointRun(env, out, start, timeout, moves).st.core.trace[i])
    ensures var j := JointRun(env, out, start, timeout, moves);
            && AdmittedBefore(env, j.st.core.trace, i)
            && FromGeneration(out, j.list, j.st.core.session, j.st.core.trace[i], g, n)
  {
    JointRunKeeps(env, out, start, timeout, moves);
    var j := JointRun(env, out, start, timeout, moves);
    ReplyNeedsAuthentication(ClaimsOf(env), j.st.core, i);
    g, n :| FromGeneration(out, j.list, j.st.core.session, j.st.core.trace[i], g, n);
  }

  /** Such a reply decodes to exactly the rows of the client's version, in row order, when the
      names of that query are distinct and everything fits its field. */
  lemma ReplyDecodesToRows(out: Outside, list: RealmRefresh.State, s: Session, e: Event, g: nat, n: nat)
    requires FromGeneration(out, list, s, e, g, n) && DistinctNames(list.queried[g])
    requires FitsFields(LayoutOf(s.build),
                        Entries(s.build, s.security, ViewOf(list.queried[g], BelongsToVersion(s.build),
                                                            out.characters(n), out.address)))
    ensures var kept := Kept(list.queried[g], Belongs(BelongsToVersion(s.build)));
            var r := DecodeReply(OldClient(s.build), e.bytes);
            && r.Some? && |r.value| == |kept|
            && forall i :: 0 <= i < |kept| ==>
                 Shows(s.build, s.security, ShownRealm(RealmOfRow(kept[i]), out.characters(n), out.address), r.value[i])
  {
    ClientSeesRows(list.queried[g], s.build, s.security, out.characters(n), out.address);
  }
}
