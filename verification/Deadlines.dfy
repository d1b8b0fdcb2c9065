/** When the sweep closes a socket, in terms of its creation, its timeout and what it is doing. */
module Deadlines {
  import opened Wire
  import opened Guard
  import opened BuildPolicy
  import opened AuthSession
  import opened AuthStream
  import opened AuthRuns
  import PatchVisits
  import PatchStream

  /** A transfer is under way: the last thing that happened was its start. */
  predicate Streaming(c: Core) { c.trace != [] && c.trace[|c.trace| - 1].TransferStarted? }

  /** The socket still has to prove itself. */
  predicate Unproven(c: Core) {
    !c.session.closed && c.session.status != Authenticated && c.session.status != Patch && !Streaming(c)
  }

  /** The deadline is that of the creation, and active exactly while a timed socket is unproven. */
  predicate OnTime(start: int, timeout: int, c: Core) {
    && c.session.deadline.at == start + timeout && (c.session.deadline.active <==> timeout > 0 && Unproven(c))
    && (Streaming(c) ==> c.session.status == Closed)
  }

  /** A deadline check at `now` closes an open socket exactly when a positive timeout has run
      out since its creation and it is unproven. */
  lemma CheckClosesIff(start: int, timeout: int, c: Core, now: int)
    requires OnTime(start, timeout, c) && !c.session.closed
    ensures Expire(c, now).session.closed
       <==> && timeout > 0 && now >= start + timeout
            && c.session.status != Authenticated && c.session.status != Patch && !Streaming(c)
  {
  }

  // ----- the handlers -----

  /** Neither closed nor proven by now, or it has the deadline off. */
  predicate Runs(c: Core, d: Core) {
    && d.session.deadline.at == c.session.deadline.at
    && (d.session.deadline.active <==> c.session.deadline.active && Unproven(d))
    && (Streaming(d) ==> d.session.status == Closed)
  }

  /** A challenge has been dealt with, one way or the other. */
  lemma AnsweredRuns(c: Core, d: Core, es: seq<Event>)
    requires !c.session.closed && !Streaming(c) && d.trace == c.trace + es && Quiet(es)
    requires d.session.deadline.at == c.session.deadline.at
    requires d.session.status in {Closed, LogonProof, ReconnectProof}
    requires SameControl(c, d) || SameControl(Close(c), d)
    ensures Runs(c, d)
  {
    QuietRuns(c, d, es);
  }

  lemma LogonChallengeRuns(env: Env, c: Core, f: Bytes, a: Answer)
    requires ChallengeFrame(f) && !c.session.closed && !Streaming(c)
    ensures Runs(c, LogonChallenge(env, c, f, a).core)
  {
    var es := LogonChallengeEffect(env, c, f, a);
    ChallengeAt(env, c, f, a);
    AnsweredRuns(c, LogonChallenge(env, c, f, a).core, es);
  }

  lemma ReconnectChallengeRuns(env: Env, c: Core, f: Bytes, a: Answer)
    requires ChallengeFrame(f) && !c.session.closed && !Streaming(c)
    ensures Runs(c, ReconnectChallenge(c, f, a).core)
  {
    var es := ReconnectChallengeEffect(c, f, a);
    ChallengeAt(env, c, f, a);
    AnsweredRuns(c, ReconnectChallenge(c, f, a).core, es);
  }

  lemma ChallengeAt(env: Env, c: Core, f: Bytes, a: Answer)
    requires ChallengeFrame(f)
    ensures LogonChallenge(env, c, f, a).core.session.deadline.at == c.session.deadline.at
    ensures ReconnectChallenge(c, f, a).core.session.deadline.at == c.session.deadline.at
  {
  }

  lemma QuietRuns(c: Core, d: Core, es: seq<Event>)
    requires !Streaming(c) && d.trace == c.trace + es && Quiet(es)
    ensures !Streaming(d)
  {
    if es != [] { assert Calm(es[|es| - 1]); }
  }

  lemma AcceptedRuns(policy: PatchPolicy, c: Core, a: Answer, key: Option<nat>, d: Core, es: seq<Event>)
    requires !c.session.closed && !Streaming(c) && c.session.status == Closed && Accepted(policy, c, a, key, d, es)
    requires d.session.deadline.at == c.session.deadline.at
    ensures Runs(c, d)
  {
    if d.session.status != Authenticated { QuietRuns(c, d, es); }
  }

  lemma JudgedRuns(policy: PatchPolicy, c: Core, a: Answer, j: Judgement)
    requires !c.session.closed && !Streaming(c)
    ensures Runs(c, Judged(policy, c, a, j).core)
  {
    JudgedAt(policy, c, a, j);
    if j.Match? {
      var k := Keyed(c, j.key);
      var es := ProofAcceptedEffect(policy, k, j.m2, a);
      AcceptedRuns(policy, k, a, Some(j.key), Judged(policy, c, a, j).core, es);
    }
  }

  lemma JudgedAt(policy: PatchPolicy, c: Core, a: Answer, j: Judgement)
    ensures Judged(policy, c, a, j).core.session.deadline.at == c.session.deadline.at
  {
  }

  lemma ReconnectProofRuns(env: Env, c: Core, f: Bytes, a: Answer)
    requires |f| == RECONNECT_PROOF_SIZE && !c.session.closed && !Streaming(c)
    ensures Runs(c, ReconnectProofStep(env, c, f, a).core)
  {
    var es := ReconnectProofEffect(env, c, f, a);
    AcceptedRuns(env.policy, SetStatus(c, Closed), a, None, ReconnectProofStep(env, c, f, a).core, es);
  }

  lemma LaterRuns(c: Core, a: Answer, offset: nat)
    requires !c.session.closed && !Streaming(c) && !c.session.deadline.active
    ensures Runs(c, RealmListStep(c, a).core) && Runs(c, BeginPatchStream(c, offset).core) && Runs(c, Close(c))
  {
  }

  lemma HandleRuns(env: Env, c: Core, f: Bytes, a: Answer)
    requires FrameVerdict(c.session.status, f) == Complete(|f|) && !c.session.closed && !Streaming(c)
    requires c.session.status in {Authenticated, Patch} ==> !c.session.deadline.active
    ensures Runs(c, Handle(env, c, f, a).core)
  {
    var d := Handle(env, c, f, a).core;
    if f[0] == CMD_AUTH_LOGON_CHALLENGE {
      assert d == LogonChallenge(env, c, f, a).core;
      LogonChallengeRuns(env, c, f, a);
    } else if f[0] == CMD_AUTH_RECONNECT_CHALLENGE {
      assert d == ReconnectChallenge(c, f, a).core;
      ReconnectChallengeRuns(env, c, f, a);
    } else if f[0] == CMD_AUTH_LOGON_PROOF {
      assert d == LogonProofStep(env, c, f, a).core;
      JudgedRuns(env.policy, c, a, Judge(env.sha, c.session.login, KeysOf(c.session), f));
    } else if f[0] == CMD_AUTH_RECONNECT_PROOF {
      assert d == ReconnectProofStep(env, c, f, a).core;
      ReconnectProofRuns(env, c, f, a);
    } else {
      LaterRuns(c, a, if f[0] == CMD_XFER_RESUME then FromLE(f[1..9]) else 0);
    }
  }

  // ----- every run -----

  lemma DispatchOnTime(env: Env, c: Core, f: Bytes, start: int, timeout: int)
    requires OnTime(start, timeout, c) && !c.session.closed && FrameVerdict(c.session.status, f) == Complete(|f|)
    ensures OnTime(start, timeout, Dispatch(env, c, f).core)
  {
    assert Entered(c, f).trace[|c.trace|] == Dispatched(f);
    HandleRuns(env, Entered(c, f), f, env.oracle(|c.commands|));
    if !Unproven(c) { assert c.session.status in {Authenticated, Patch}; }
  }

  lemma CloseOnTime(c: Core, start: int, timeout: int)
    requires OnTime(start, timeout, c)
    ensures OnTime(start, timeout, Close(c)) && OnTime(start, timeout, PeerClose(c))
  {
  }

  lemma PassOnTime(env: Env, st: Stream, start: int, timeout: int)
    requires OnTime(start, timeout, st.core)
    ensures OnTime(start, timeout, Iterate(env, st).core)
  {
    CloseOnTime(st.core, start, timeout);
    if st.Open() && st.Verdict().Complete? {
      CompleteIsLocal(st.core.session.status, st.pending);
      var f := st.pending[..st.Verdict().size];
      DispatchOnTime(env, st.core, f, start, timeout);
      CloseOnTime(Dispatch(env, st.core, f).core, start, timeout);
    }
  }

  lemma StepOnTime(env: Env, st: Stream, input: Input, start: int, timeout: int)
    requires OnTime(start, timeout, st.core)
    ensures OnTime(start, timeout, Step(env, st, input).core)
  {
    CloseOnTime(st.core, start, timeout);
    PassOnTime(env, st, start, timeout);
  }

  lemma {:induction false} DrainOnTime(env: Env, st: Stream, start: int, timeout: int)
    requires OnTime(start, timeout, st.core)
    ensures OnTime(start, timeout, Drain(env, st).core)
    decreases |st.pending|
  {
    if !Settled(st) {
      CompleteIsPositive(st);
      PassOnTime(env, st, start, timeout);
      DrainOnTime(env, Iterate(env, st), start, timeout);
    }
  }

  lemma OnDataOnTime(env: Env, st: Stream, chunk: Bytes, start: int, timeout: int)
    requires OnTime(start, timeout, st.core)
    ensures OnTime(start, timeout, OnData(env, st, chunk).core)
  {
    CloseOnTime(st.core, start, timeout);
    DrainOnTime(env, Receive(st, chunk), start, timeout);
  }

  lemma {:induction false} RunOnTime(env: Env, start: int, timeout: int, inputs: seq<Input>)
    ensures OnTime(start, timeout, Run(env, NewStream(start, timeout), inputs).core)
    decreases |inputs|
  {
    if inputs != [] {
      var n := |inputs| - 1;
      RunOnTime(env, start, timeout, inputs[..n]);
      StepOnTime(env, Run(env, NewStream(start, timeout), inputs[..n]), inputs[n], start, timeout);
    }
  }

  /** In every run of a socket created at `start`: a deadline check at `now` closes it exactly
      when the timeout is positive and has run out, the status is neither AUTHED nor PATCH, and
      no transfer is under way. */
  lemma DeadlineClosesIff(env: Env, start: int, timeout: int, inputs: seq<Input>, now: int)
    requires Run(env, NewStream(start, timeout), inputs).Open()
    ensures var st := Run(env, NewStream(start, timeout), inputs);
            !Step(env, st, Tick(now)).Open()
            <==> && timeout > 0 && now >= start + timeout
                 && st.core.session.status != Authenticated && st.core.session.status != Patch && !Streaming(st.core)
  {
    RunOnTime(env, start, timeout, inputs);
    CheckClosesIff(start, timeout, Run(env, NewStream(start, timeout), inputs).core, now);
  }

  lemma {:induction false} FeedOnTime(env: Env, st: Stream, chunks: seq<Bytes>, start: int, timeout: int)
    requires OnTime(start, timeout, st.core)
    ensures OnTime(start, timeout, Feed(env, st, chunks).core)
    decreases |chunks|
  {
    if chunks != [] {
      OnDataOnTime(env, st, chunks[0], start, timeout);
      FeedOnTime(env, OnData(env, st, chunks[0]), chunks[1..], start, timeout);
    }
  }

  /** The status alone does not tell: while a transfer is under way it is CLOSED, and no check
      at any time closes the socket. */
  lemma TransferIsSpared(v: PatchVisits.Visit, st: Stream, art: Artifact, offset: nat, now: int)
    requires PatchVisits.Resumes(v, art, offset) && PatchStream.SeekAccepted(|art.data|, offset)
    requires st == Feed(v.env, NewStream(v.start, v.timeout), v.chunks)
    ensures st.Open() && st.core.session.status == Closed && Step(v.env, st, Tick(now)) == st
  {
    PatchVisits.VisitStartsTransfer(v, art, offset);
    VisitOnTime(v);
    StartedIsStreaming(st.core, art, offset);
    StreamingIsSpared(v.env, st, v.start, v.timeout, now);
  }

  lemma VisitOnTime(v: PatchVisits.Visit)
    ensures OnTime(v.start, v.timeout, Feed(v.env, NewStream(v.start, v.timeout), v.chunks).core)
  {
    FeedOnTime(v.env, NewStream(v.start, v.timeout), v.chunks, v.start, v.timeout);
  }

  lemma StartedIsStreaming(c: Core, art: Artifact, offset: nat)
    requires PatchVisits.AnnouncedAndStarted(c.trace, art, offset)
    ensures Streaming(c)
  {
  }

  lemma StreamingIsSpared(env: Env, st: Stream, start: int, timeout: int, now: int)
    requires OnTime(start, timeout, st.core) && Streaming(st.core)
    ensures Step(env, st, Tick(now)) == st
  {
  }
}
