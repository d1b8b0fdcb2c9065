/** `ExpireAuthentication` looks at the deadline and then closes, with no lock around the two.
    Here the look and the close are separate steps, and anything may happen in between. */
module LateExpiry {
  import opened Wire
  import opened Guard
  import opened Srp6
  import opened BuildPolicy
  import opened AuthSession
  import opened AuthStream
  import opened AuthRuns
  import opened HonestSession
  import opened ChallengeCodec

  /** The socket, and whether the sweep has found it overdue and not yet closed it. */
  datatype Racing = Racing(st: Stream, overdue: bool)

  /** A step of the socket, the sweep's look at the deadline, or the close it owes. */
  datatype Move = Do(input: Input) | Look(now: int) | LateClose

  function Advance(env: Env, r: Racing, m: Move): Racing {
    match m
    case Do(input) => r.(st := Step(env, r.st, input))
    case Look(now) => r.(overdue := r.st.core.session.deadline.Expired(now))
    case LateClose => if r.overdue then Racing(Step(env, r.st, Shut), false) else r
  }

  function Race(env: Env, start: int, timeout: int, moves: seq<Move>): Racing
    decreases |moves|
  {
    if moves == [] then Racing(NewStream(start, timeout), false)
    else Advance(env, Race(env, start, timeout, moves[..|moves| - 1]), moves[|moves| - 1])
  }

  // ----- nothing else is lost -----

  /** The socket of a race has gone through one of the runs of AuthRuns. */
  lemma {:induction false} RaceIsARun(env: Env, start: int, timeout: int, moves: seq<Move>) returns (inputs: seq<Input>)
    ensures Race(env, start, timeout, moves).st == Run(env, NewStream(start, timeout), inputs)
    decreases |moves|
  {
    inputs := [];
    if moves != [] {
      var n := |moves| - 1;
      var before := RaceIsARun(env, start, timeout, moves[..n]);
      var r := Race(env, start, timeout, moves[..n]);
      inputs := before;
      if moves[n].Do? {
        inputs := before + [moves[n].input];
      } else if moves[n].LateClose? && r.overdue {
        inputs := before + [Shut];
      }
      assert inputs != before ==> inputs[..|inputs| - 1] == before;
    }
  }

  lemma RaceKeeps(env: Env, start: int, timeout: int, moves: seq<Move>)
    ensures Inv(ClaimsOf(env), Race(env, start, timeout, moves).st.core)
  {
    var inputs := RaceIsARun(env, start, timeout, moves);
    RunKeeps(env, start, timeout, inputs);
  }

  /** The guarantees of every run hold in every race. */
  lemma RaceRealmListSafety(env: Env, start: int, timeout: int, moves: seq<Move>, i: nat)
    requires i < |Race(env, start, timeout, moves).st.core.trace|
    requires RealmReply(Race(env, start, timeout, moves).st.core.trace[i])
    ensures AdmittedBefore(env, Race(env, start, timeout, moves).st.core.trace, i)
  {
    var inputs := RaceIsARun(env, start, timeout, moves);
    RealmListSafety(env, start, timeout, inputs, i);
  }

  lemma RaceCommandLanguage(env: Env, start: int, timeout: int, moves: seq<Move>)
    ensures var c := Race(env, start, timeout, moves).st.core;
            Control(c) && OneOfEach(c.commands)
  {
    var inputs := RaceIsARun(env, start, timeout, moves);
    CommandLanguage(env, start, timeout, inputs);
  }

  // ----- when a late close hits an authenticated socket -----

  /** A pass that authenticates leaves the socket open. */
  lemma AuthenticatedPassIsOpen(env: Env, st: Stream)
    requires st.core.session.status != Authenticated && Iterate(env, st).core.session.status == Authenticated
    ensures st.Open() && Iterate(env, st).Open()
  {
    CompleteIsPositive(st);
    if st.Verdict().Complete? {
      CompleteIsLocal(st.core.session.status, st.pending);
      AuthenticatingDispatch(env, st.core, st.pending[..st.Verdict().size]);
    }
  }

  lemma AuthenticatingDispatch(env: Env, c: Core, f: Bytes)
    requires FrameVerdict(c.session.status, f) == Complete(|f|) && !c.session.closed
    requires c.session.status != Authenticated
    requires Dispatch(env, c, f).core.session.status == Authenticated
    ensures Dispatch(env, c, f).ok && !Dispatch(env, c, f).core.session.closed
  {
    var a, c1 := env.oracle(|c.commands|), Entered(c, f);
    if f[0] == CMD_AUTH_LOGON_CHALLENGE {
      var es := LogonChallengeEffect(env, c1, f, a);
    } else if f[0] == CMD_AUTH_RECONNECT_CHALLENGE {
      var es := ReconnectChallengeEffect(c1, f, a);
    } else if f[0] == CMD_AUTH_LOGON_PROOF {
      JudgedAuthenticates(env.policy, c1, a, Judge(env.sha, c1.session.login, KeysOf(c1.session), f));
    } else if f[0] == CMD_AUTH_RECONNECT_PROOF {
      ReconnectAuthenticates(env, c1, f, a);
    }
  }

  lemma JudgedAuthenticates(policy: PatchPolicy, c: Core, a: Answer, j: Judgement)
    requires !c.session.closed && Judged(policy, c, a, j).core.session.status == Authenticated
    ensures Judged(policy, c, a, j).ok && !Judged(policy, c, a, j).core.session.closed
  {
  }

  lemma ReconnectAuthenticates(env: Env, c: Core, f: Bytes, a: Answer)
    requires |f| == RECONNECT_PROOF_SIZE && !c.session.closed
    requires ReconnectProofStep(env, c, f, a).core.session.status == Authenticated
    ensures ReconnectProofStep(env, c, f, a).ok && !ReconnectProofStep(env, c, f, a).core.session.closed
  {
  }

  /** Only a pass changes the status, and never that of an authenticated socket. */
  lemma StatusMoves(env: Env, st: Stream, input: Input)
    requires Control(st.core)
    ensures !input.Pass? ==> Step(env, st, input).core.session.status == st.core.session.status
    ensures st.core.session.status == Authenticated ==> Step(env, st, input).core.session.status == Authenticated
  {
    if input.Pass? && st.Open() && st.core.session.status == Authenticated && st.Verdict().Complete? {
      CompleteIsPositive(st);
      CompleteIsLocal(st.core.session.status, st.pending);
      DispatchProgress(env, st.core, st.pending[..st.Verdict().size]);
    }
  }

  /** The status before each move, and after the last. */
  function Statuses(env: Env, start: int, timeout: int, moves: seq<Move>): (states: seq<Status>)
    ensures |states| == |moves| + 1
  {
    seq(|moves| + 1, k requires 0 <= k <= |moves| => StatusAfter(env, start, timeout, moves[..k]))
  }

  function StatusAfter(env: Env, start: int, timeout: int, moves: seq<Move>): Status {
    Race(env, start, timeout, moves).st.core.session.status
  }

  /** Move `i` is the sweep's last word so far, and it found an active deadline past. */
  predicate SawOverdue(env: Env, start: int, timeout: int, moves: seq<Move>, i: nat) {
    && i < |moves| && moves[i].Look?
    && Race(env, start, timeout, moves[..i]).st.core.session.deadline.Expired(moves[i].now)
    && forall k :: i < k < |moves| ==> moves[k].Do?
  }

  /** Move `j` is a pass that authenticates. */
  predicate Authenticates(moves: seq<Move>, states: seq<Status>, j: nat) {
    j < |moves| < |states| && moves[j] == Do(Pass) && states[j] != Authenticated && states[j + 1] == Authenticated
  }

  lemma SawOverduePrefix(env: Env, start: int, timeout: int, moves: seq<Move>, n: nat, i: nat)
    requires i < n <= |moves| && forall k :: n <= k < |moves| ==> moves[k].Do?
    ensures SawOverdue(env, start, timeout, moves, i) <==> SawOverdue(env, start, timeout, moves[..n], i)
  {
    assert moves[..n][..i] == moves[..i];
    if SawOverdue(env, start, timeout, moves[..n], i) {
      forall k | i < k < |moves| ensures moves[k].Do? {
        if k < n { assert moves[..n][k].Do?; }
      }
    }
  }

  /** A close is owed exactly after such a look. */
  lemma {:induction false} OverdueIff(env: Env, start: int, timeout: int, moves: seq<Move>)
    ensures Race(env, start, timeout, moves).overdue <==> exists i :: SawOverdue(env, start, timeout, moves, i)
    decreases |moves|
  {
    if moves != [] {
      var n := |moves| - 1;
      OverdueIff(env, start, timeout, moves[..n]);
      match moves[n]
      case Do(_) =>
        forall i | 0 <= i < n
          ensures SawOverdue(env, start, timeout, moves, i) <==> SawOverdue(env, start, timeout, moves[..n], i)
        {
          SawOverduePrefix(env, start, timeout, moves, n, i);
        }
        if Race(env, start, timeout, moves).overdue {
          var i :| SawOverdue(env, start, timeout, moves[..n], i);
          assert SawOverdue(env, start, timeout, moves, i);
        }
      case Look(now) =>
        if Race(env, start, timeout, moves).overdue { assert SawOverdue(env, start, timeout, moves, n); }
      case LateClose =>
    }
  }

  /** Only passes change the status, and once authenticated it stays. */
  predicate Steady(moves: seq<Move>, states: seq<Status>) {
    && |states| == |moves| + 1
    && (forall k :: 0 <= k < |moves| ==> (states[k] == Authenticated ==> states[k + 1] == Authenticated))
    && (forall k :: 0 <= k < |moves| ==> (moves[k] != Do(Pass) ==> states[k + 1] == states[k]))
  }

  lemma {:induction false} AuthenticatedSince(moves: seq<Move>, states: seq<Status>, i: nat)
    requires Steady(moves, states) && i < |moves| && states[i] != Authenticated && moves[i] != Do(Pass)
    ensures states[|moves|] == Authenticated <==> exists j :: i < j && Authenticates(moves, states, j)
    decreases |moves|
  {
    var n := |moves| - 1;
    if i < n {
      var front, before := moves[..n], states[..n + 1];
      AuthenticatedSince(front, before, i);
      forall j: nat | j < n ensures Authenticates(moves, states, j) <==> Authenticates(front, before, j) {
      }
      if states[n + 1] == Authenticated {
        if states[n] == Authenticated {
          var j :| i < j && Authenticates(front, before, j);
          assert Authenticates(moves, states, j);
        } else {
          assert Authenticates(moves, states, n);
        }
      }
    }
  }

  lemma StatusStep(env: Env, start: int, timeout: int, moves: seq<Move>, m: Move)
    ensures StatusAfter(env, start, timeout, moves) == Authenticated ==>
            StatusAfter(env, start, timeout, moves + [m]) == Authenticated
    ensures m != Do(Pass) ==> StatusAfter(env, start, timeout, moves + [m]) == StatusAfter(env, start, timeout, moves)
  {
    RaceKeeps(env, start, timeout, moves);
    RaceSnoc(env, start, timeout, moves, m);
    StatusMoves(env, Race(env, start, timeout, moves).st, if m.Do? then m.input else Shut);
  }

  lemma StatusesAreSteady(env: Env, start: int, timeout: int, moves: seq<Move>)
    ensures Steady(moves, Statuses(env, start, timeout, moves))
    ensures Statuses(env, start, timeout, moves)[|moves|] == StatusAfter(env, start, timeout, moves)
  {
    var states := Statuses(env, start, timeout, moves);
    forall k | 0 <= k < |moves|
      ensures states[k] == Authenticated ==> states[k + 1] == Authenticated
      ensures moves[k] != Do(Pass) ==> states[k + 1] == states[k]
    {
      assert moves[..k + 1] == moves[..k] + [moves[k]];
      StatusStep(env, start, timeout, moves[..k], moves[k]);
    }
    assert moves[..|moves|] == moves;
  }

  /** After such a look the socket was not authenticated; it is now exactly when a pass has
      authenticated it since. */
  lemma AuthenticatedSinceIff(env: Env, start: int, timeout: int, moves: seq<Move>, i: nat)
    requires SawOverdue(env, start, timeout, moves, i)
    ensures StatusAfter(env, start, timeout, moves) == Authenticated
       <==> exists j :: i < j && Authenticates(moves, Statuses(env, start, timeout, moves), j)
  {
    StatusesAreSteady(env, start, timeout, moves);
    RaceKeeps(env, start, timeout, moves[..i]);
    assert Statuses(env, start, timeout, moves)[i] == StatusAfter(env, start, timeout, moves[..i]);
    AuthenticatedSince(moves, Statuses(env, start, timeout, moves), i);
  }

  /** The close that is owed would hit an open, authenticated socket. */
  predicate WouldHit(r: Racing) { r.overdue && r.st.Open() && r.st.core.session.status == Authenticated }

  /** It closes it, for good and through the closer, with its status still AUTHED. */
  lemma HitCloses(env: Env, start: int, timeout: int, moves: seq<Move>)
    requires WouldHit(Race(env, start, timeout, moves))
    ensures var r := Race(env, start, timeout, moves + [LateClose]);
            && !r.st.Open() && r.st.core.session.status == Authenticated && r.st.core.closers == 1
            && r.st.core.trace == Race(env, start, timeout, moves).st.core.trace
  {
    RaceKeeps(env, start, timeout, moves);
    RaceSnoc(env, start, timeout, moves, LateClose);
    LateCloseActs(env, Race(env, start, timeout, moves));
  }

  lemma LateCloseActs(env: Env, r: Racing)
    requires WouldHit(r) && Control(r.st.core)
    ensures var d := Advance(env, r, LateClose).st;
            && !d.Open() && d.core.session.status == Authenticated && d.core.closers == 1
            && d.core.trace == r.st.core.trace
  {
  }

  /** Right after the pass that authenticates, the socket is still open: a close owed then
      always hits. */
  lemma HitsRightAfterProof(env: Env, start: int, timeout: int, moves: seq<Move>, i: nat)
    requires SawOverdue(env, start, timeout, moves, i)
    requires Race(env, start, timeout, moves).st.core.session.status != Authenticated
    requires Race(env, start, timeout, moves + [Do(Pass)]).st.core.session.status == Authenticated
    ensures WouldHit(Race(env, start, timeout, moves + [Do(Pass)]))
  {
    OverdueIff(env, start, timeout, moves);
    RaceSnoc(env, start, timeout, moves, Do(Pass));
    AuthenticatedPassIsOpen(env, Race(env, start, timeout, moves).st);
  }

  /** In every race: a late close hits an authenticated socket exactly when the socket is still
      open, its look saw an active deadline past, and a pass has authenticated it since. */
  lemma LateCloseHitsIff(env: Env, start: int, timeout: int, moves: seq<Move>)
    ensures WouldHit(Race(env, start, timeout, moves))
       <==> && Race(env, start, timeout, moves).st.Open()
            && exists i, j ::
                 SawOverdue(env, start, timeout, moves, i) && i < j
                 && Authenticates(moves, Statuses(env, start, timeout, moves), j)
  {
    OverdueIff(env, start, timeout, moves);
    forall i | SawOverdue(env, start, timeout, moves, i)
      ensures StatusAfter(env, start, timeout, moves) == Authenticated
         <==> exists j :: i < j && Authenticates(moves, Statuses(env, start, timeout, moves), j)
    {
      AuthenticatedSinceIff(env, start, timeout, moves, i);
    }
  }

  // ----- it happens to every honest client that is slow enough -----

  lemma PassAccepts(env: Env, st: Stream, f: Bytes, d: Core)
    requires st.Open() && st.pending == f && Accepts(env, st.core, f, d)
    ensures Step(env, st, Pass) == Stream(d, [])
  {
    assert f[..|f|] == f;
  }

  lemma ChunkArrives(env: Env, c: Core, f: Bytes)
    requires !c.session.closed && |f| <= MAX_PENDING_INPUT
    ensures Step(env, Stream(c, []), Chunk(f)) == Stream(c, f)
  {
    assert [] + f == f;
  }

  lemma RaceSnoc(env: Env, start: int, timeout: int, moves: seq<Move>, m: Move)
    ensures Race(env, start, timeout, moves + [m]) == Advance(env, Race(env, start, timeout, moves), m)
  {
    assert (moves + [m])[..|moves|] == moves;
  }

  /** Two frames with the look between the second one's arrival and its pass. */
  function SlowMoves(f0: Bytes, f1: Bytes, now: int): seq<Move> {
    [Do(Chunk(f0))] + [Do(Pass)] + [Do(Chunk(f1))] + [Look(now)] + [Do(Pass)]
  }

  lemma FrameArrives(env: Env, start: int, timeout: int, moves: seq<Move>, c: Core, f: Bytes)
    requires Race(env, start, timeout, moves) == Racing(Stream(c, []), false)
    requires !c.session.closed && |f| <= MAX_PENDING_INPUT
    ensures Race(env, start, timeout, moves + [Do(Chunk(f))]) == Racing(Stream(c, f), false)
  {
    RaceSnoc(env, start, timeout, moves, Do(Chunk(f)));
    ChunkArrives(env, c, f);
  }

  lemma FramePasses(env: Env, start: int, timeout: int, moves: seq<Move>, c: Core, f: Bytes, d: Core, overdue: bool)
    requires Race(env, start, timeout, moves) == Racing(Stream(c, f), overdue)
    requires !c.session.closed && Accepts(env, c, f, d)
    ensures Race(env, start, timeout, moves + [Do(Pass)]) == Racing(Stream(d, []), overdue)
  {
    RaceSnoc(env, start, timeout, moves, Do(Pass));
    PassAccepts(env, Stream(c, f), f, d);
  }

  lemma SlowRace(env: Env, start: int, timeout: int, f0: Bytes, f1: Bytes, now: int, c: Core, d: Core, e: Core)
    requires c == Fresh(start, timeout) && Accepts(env, c, f0, d) && Accepts(env, d, f1, e)
    requires |f0| <= MAX_PENDING_INPUT && |f1| <= MAX_PENDING_INPUT && d.session.deadline.Expired(now)
    ensures Race(env, start, timeout, SlowMoves(f0, f1, now)) == Racing(Stream(e, []), true)
  {
    var m0: seq<Move> := [];
    var m1 := m0 + [Do(Chunk(f0))];
    var m2 := m1 + [Do(Pass)];
    var m3 := m2 + [Do(Chunk(f1))];
    var m4 := m3 + [Look(now)];
    FrameArrives(env, start, timeout, m0, c, f0);
    FramePasses(env, start, timeout, m1, c, f0, d, false);
    FrameArrives(env, start, timeout, m2, d, f1);
    RaceSnoc(env, start, timeout, m3, Look(now));
    FramePasses(env, start, timeout, m4, d, f1, e, true);
    assert SlowMoves(f0, f1, now) == m4 + [Do(Pass)];
  }

  /** For every honest logon that would be let in, under any timeout: when the sweep looks at
      the deadline after the proof has arrived and before it is handled, its close hits the
      authenticated socket. */
  lemma HonestLogonCanBeHit(env: Env, start: int, timeout: int, now: int, f0: Bytes, client: Client, crc: Digest,
                            flags: byte)
    requires Welcome(env, f0, client) && timeout > 0 && now >= start + timeout
    requires Supported(BuildOf(f0)) && !ShouldPatch(env.policy, BuildOf(f0), true) && env.oracle(1).published
    ensures WouldHit(Race(env, start, timeout, SlowMoves(f0, HonestProof(env, client, crc, flags), now)))
  {
    ChallengeFrameSize(f0);
    var d, e := HonestDispatches(env, start, timeout, f0, client, crc, flags);
    SlowRace(env, start, timeout, f0, HonestProof(env, client, crc, flags), now, Fresh(start, timeout), d, e);
  }

  /** There are such logons: a database that knows an account without a stored verifier and
      takes every publication. */
  function Knowing(sha: Hash, digest: Digest): Env {
    var row := AccountRow(FromLE(Reverse(digest)), false, false, 0, NoBan, None);
    var a := Answer(false, Some(row), Zeros(32), Zeros(19), Zeros(16), None, Zeros(16), true, None, true, []);
    Env(sha, n => a, PatchPolicy(false, {}))
  }

  /** Every logon packet of a supported build with a readable OS tag, for every hash, password
      digest and ephemeral secret, belongs to one. */
  lemma AnyoneCanBeHit(sha: Hash, p: Packet, tag: Bytes, digest: Digest, a: nat, start: int, timeout: int, now: int,
                       crc: Digest, flags: byte)
    requires Sendable(p) && p.cmd == CMD_AUTH_LOGON_CHALLENGE && Supported(p.build)
    requires |tag| <= 4 && 0 !in tag && p.os == Padded(tag) && (|tag| == 4 ==> p.country[0] == 0)
    requires timeout > 0 && now >= start + timeout
    ensures var env, client := Knowing(sha, digest), Client(p.name, digest, a);
            && Welcome(env, Encode(p), client)
            && WouldHit(Race(env, start, timeout, SlowMoves(Encode(p), HonestProof(env, client, crc, flags), now)))
  {
    var env, client := Knowing(sha, digest), Client(p.name, digest, a);
    ChallengeRoundTrip(p);
    OsTagRecovered(p, tag);
    assert Welcome(env, Encode(p), client);
    HonestLogonCanBeHit(env, start, timeout, now, Encode(p), client, crc, flags);
  }
}
