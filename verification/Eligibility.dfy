/** Who gets past the challenge, in every run: nothing that only an eligible account may have
    is sent or published for any other. */
module Eligibility {
  import opened Wire
  import opened Guard
  import opened BuildPolicy
  import opened AuthSession
  import opened AuthStream
  import opened AuthRuns
  import opened Outcomes

  /** A challenge reply that announces success, or the publication of a logon's key. */
  predicate Privileged(e: Event) {
    || (e.Sent? && |e.bytes| >= 3 && e.bytes[0] == 0x00 && e.bytes[1] == 0x00 && e.bytes[2] == 0x00)
    || (e.Published? && e.key.Some?)
  }

  predicate Plain(t: seq<Event>) { forall e :: e in t ==> !Privileged(e) }

  lemma PlainConcat(s: seq<Event>, t: seq<Event>)
    requires Plain(s) && Plain(t)
    ensures Plain(s + t)
  {
  }

  // ----- what the ineligible get -----

  lemma LogonChallengePlain(env: Env, c: Core, f: Bytes, a: Answer)
    requires ChallengeFrame(f) && !c.session.closed && !Eligible(a) && Plain(c.trace)
    ensures var d := LogonChallenge(env, c, f, a).core; Plain(d.trace) && d.session.status != LogonProof
  {
    if |OsField(f)| <= 4 {
      RefusedChallenge(env, c, f, a);
      PlainConcat(c.trace, [Sent([0x00, 0x00, Code(BuildOf(f), a)])]);
    }
  }

  lemma ReconnectChallengePlain(c: Core, f: Bytes, a: Answer)
    requires ChallengeFrame(f) && !c.session.closed && Plain(c.trace)
    ensures var d := ReconnectChallenge(c, f, a).core; Plain(d.trace) && d.session.status != LogonProof
  {
    if |OsField(f)| <= 4 { ReconnectChallenged(c, f, a); }
  }

  lemma ReconnectProofPlain(env: Env, c: Core, f: Bytes, a: Answer)
    requires |f| == RECONNECT_PROOF_SIZE && !c.session.closed && Plain(c.trace)
    ensures var d := ReconnectProofStep(env, c, f, a).core; Plain(d.trace) && d.session.status != LogonProof
  {
    ReconnectProofReplyBytes(c.session.build);
  }

  lemma RealmListPlain(c: Core, a: Answer)
    requires Plain(c.trace) && c.session.status != LogonProof
    ensures var d := RealmListStep(c, a).core; Plain(d.trace) && d.session.status != LogonProof
  {
    RealmListReplyHead(c.session, a);
  }

  lemma TransferPlain(c: Core, offset: nat)
    requires Plain(c.trace) && c.session.status != LogonProof
    ensures var d := BeginPatchStream(c, offset).core; Plain(d.trace) && d.session.status != LogonProof
  {
  }

  lemma HandlePlain(env: Env, c: Core, f: Bytes, a: Answer)
    requires FrameVerdict(c.session.status, f) == Complete(|f|) && !c.session.closed && Plain(c.trace)
    requires c.session.status != LogonProof && (c.session.status == Challenge ==> !Eligible(a))
    ensures var d := Handle(env, c, f, a).core; Plain(d.trace) && d.session.status != LogonProof
  {
    var d := Handle(env, c, f, a).core;
    if f[0] == CMD_AUTH_LOGON_CHALLENGE {
      assert d == LogonChallenge(env, c, f, a).core;
      LogonChallengePlain(env, c, f, a);
    } else if f[0] == CMD_AUTH_RECONNECT_CHALLENGE {
      assert d == ReconnectChallenge(c, f, a).core;
      ReconnectChallengePlain(c, f, a);
    } else if f[0] == CMD_AUTH_RECONNECT_PROOF {
      assert d == ReconnectProofStep(env, c, f, a).core;
      ReconnectProofPlain(env, c, f, a);
    } else if f[0] == CMD_REALM_LIST {
      assert d == RealmListStep(c, a).core;
      RealmListPlain(c, a);
    } else if f[0] != CMD_XFER_CANCEL {
      TransferPlain(c, if f[0] == CMD_XFER_ACCEPT then 0 else FromLE(f[1..9]));
    }
  }

  // ----- every run -----

  /** A socket that waits for a logon proof, or has done anything privileged, has an eligible
      account. */
  predicate Earned(env: Env, c: Core) {
    c.session.status == LogonProof || !Plain(c.trace) ==> Eligible(env.oracle(0))
  }

  lemma DispatchEarned(env: Env, c: Core, f: Bytes)
    requires Control(c) && Earned(env, c) && !c.session.closed && FrameVerdict(c.session.status, f) == Complete(|f|)
    ensures Earned(env, Dispatch(env, c, f).core)
  {
    if !Eligible(env.oracle(0)) {
      PlainConcat(c.trace, [Dispatched(f)]);
      HandlePlain(env, Entered(c, f), f, env.oracle(|c.commands|));
    }
  }

  /** What a step changes of status and trace it changes through a dispatch. */
  lemma StepIsDispatch(env: Env, st: Stream, input: Input)
    ensures var d, v := Step(env, st, input).core, st.Verdict();
            if input.Pass? && st.Open() && v.Complete?
            then && v.size <= |st.pending|
                 && FrameVerdict(st.core.session.status, st.pending[..v.size]) == Complete(v.size)
                 && var o := Dispatch(env, st.core, st.pending[..v.size]).core;
                 && d.trace == o.trace && d.commands == o.commands && d.session.status == o.session.status
                 && d.session.security == o.session.security
            else && d.trace == st.core.trace && d.commands == st.core.commands
                 && d.session.status == st.core.session.status && d.session.security == st.core.session.security
  {
    CompleteIsPositive(st);
    if st.Verdict().Complete? { CompleteIsLocal(st.core.session.status, st.pending); }
  }

  lemma StepEarned(env: Env, st: Stream, input: Input)
    requires Control(st.core) && Earned(env, st.core)
    ensures Earned(env, Step(env, st, input).core)
  {
    StepIsDispatch(env, st, input);
    if input.Pass? && st.Open() && st.Verdict().Complete? {
      DispatchEarned(env, st.core, st.pending[..st.Verdict().size]);
    }
  }

  lemma {:induction false} RunEarned(env: Env, start: int, timeout: int, inputs: seq<Input>)
    ensures Earned(env, Run(env, NewStream(start, timeout), inputs).core)
    decreases |inputs|
  {
    if inputs != [] {
      var n := |inputs| - 1;
      RunEarned(env, start, timeout, inputs[..n]);
      RunKeeps(env, start, timeout, inputs[..n]);
      StepEarned(env, Run(env, NewStream(start, timeout), inputs[..n]), inputs[n]);
    }
  }

  /** In every run a success reply to a challenge, or the publication of a logon's key, means:
      the address is not banned, the account exists, it is not locked to another address and
      it is not banned. */
  lemma OnlyEligible(env: Env, start: int, timeout: int, inputs: seq<Input>, i: nat)
    requires i < |Run(env, NewStream(start, timeout), inputs).core.trace|
    requires Privileged(Run(env, NewStream(start, timeout), inputs).core.trace[i])
    ensures var a := env.oracle(0);
            && !a.ipBanned && a.account.Some? && a.account.value.ban == NoBan
            && (a.account.value.lockedToIp ==> a.account.value.ipMatches)
  {
    RunEarned(env, start, timeout, inputs);
    var t := Run(env, NewStream(start, timeout), inputs).core.trace;
    assert t[i] in t;
  }

  /** And so does every realm list of a socket that logged on. */
  lemma RealmListOfEligible(env: Env, start: int, timeout: int, inputs: seq<Input>, i: nat)
    requires i < |Run(env, NewStream(start, timeout), inputs).core.trace|
    requires RealmReply(Run(env, NewStream(start, timeout), inputs).core.trace[i])
    ensures var t, a := Run(env, NewStream(start, timeout), inputs).core.trace, env.oracle(0);
            && |t| >= 6 && t[0].Dispatched? && t[0].frame != [] && t[3].Published?
            && (t[0].frame[0] == 0x00 ==>
                  && !a.ipBanned && a.account.Some? && a.account.value.ban == NoBan
                  && (a.account.value.lockedToIp ==> a.account.value.ipMatches))
  {
    RealmListSafety(env, start, timeout, inputs, i);
    var t := Run(env, NewStream(start, timeout), inputs).core.trace;
    if t[0].frame[0] == 0x00 { LoggedOnIsEligible(env, t[0].frame, t[1].bytes, t[2].frame, t[3]); }
  }

  lemma LoggedOnIsEligible(env: Env, f0: Bytes, reply: Bytes, f1: Bytes, e: Event)
    requires LoggedOn(env, f0, reply, f1, e)
    ensures Eligible(env.oracle(0))
  {
    RefusalIs(BuildOf(f0), env.oracle(0));
  }

  // ----- levels -----

  /** The account's level counts for a logon, up to an administrator's; a reconnect is a
      player's, whatever the account. */
  predicate Levelled(env: Env, c: Core) {
    && (c.commands == [] || c.commands[0] == 0x02 ==> c.session.security == 0)
    && (c.commands != [] && c.commands[0] == 0x00 && c.session.status in {LogonProof, Patch, Authenticated} ==>
          && env.oracle(0).account.Some?
          && var gm := env.oracle(0).account.value.gmLevel; c.session.security == (if gm < 3 then gm else 3))
  }

  lemma ChallengeLevels(env: Env, c: Core, f: Bytes)
    requires ChallengeFrame(f) && !c.session.closed && c.session.security == 0 && c.commands == [f[0]]
    ensures f[0] == 0x00 ==> Levelled(env, LogonChallenge(env, c, f, env.oracle(0)).core)
    ensures f[0] == 0x02 ==> Levelled(env, ReconnectChallenge(c, f, env.oracle(0)).core)
  {
    var a := env.oracle(0);
    if |OsField(f)| <= 4 {
      ReconnectChallenged(c, f, a);
      if Eligible(a) { AcceptedChallenge(env, c, f, a); } else { RefusedChallenge(env, c, f, a); }
    }
    ChallengeKeepsCommands(env, c, f, a);
  }

  lemma ChallengeKeepsCommands(env: Env, c: Core, f: Bytes, a: Answer)
    requires ChallengeFrame(f)
    ensures LogonChallenge(env, c, f, a).core.commands == c.commands
    ensures ReconnectChallenge(c, f, a).core.commands == c.commands
    ensures |OsField(f)| > 4 ==> LogonChallenge(env, c, f, a).core.session.status == Closed
    ensures ReconnectChallenge(c, f, a).core.session.security == c.session.security
  {
  }

  predicate SameLevel(c: Core, d: Core) { d.session.security == c.session.security && d.commands == c.commands }

  lemma JudgedKeepsLevel(policy: PatchPolicy, c: Core, a: Answer, j: Judgement)
    ensures SameLevel(c, Judged(policy, c, a, j).core)
  {
  }

  lemma LaterKeepsLevel(env: Env, c: Core, f: Bytes, a: Answer, offset: nat)
    ensures |f| == RECONNECT_PROOF_SIZE ==> SameLevel(c, ReconnectProofStep(env, c, f, a).core)
    ensures SameLevel(c, RealmListStep(c, a).core) && SameLevel(c, BeginPatchStream(c, offset).core)
    ensures SameLevel(c, Close(c))
  {
  }

  /** After the challenge no handler changes the level. */
  lemma HandleKeepsLevel(env: Env, c: Core, f: Bytes, a: Answer)
    requires FrameVerdict(c.session.status, f) == Complete(|f|) && c.session.status != Challenge
    ensures SameLevel(c, Handle(env, c, f, a).core)
  {
    var d := Handle(env, c, f, a).core;
    if f[0] == CMD_AUTH_LOGON_PROOF {
      assert d == LogonProofStep(env, c, f, a).core;
      JudgedKeepsLevel(env.policy, c, a, Judge(env.sha, c.session.login, KeysOf(c.session), f));
    } else {
      LaterKeepsLevel(env, c, f, a, if f[0] == CMD_XFER_RESUME then FromLE(f[1..9]) else 0);
    }
  }

  lemma ChallengeDispatchLevels(env: Env, c: Core, f: Bytes)
    requires Control(c) && Levelled(env, c) && !c.session.closed && c.session.status == Challenge
    requires FrameVerdict(Challenge, f) == Complete(|f|)
    ensures Levelled(env, Dispatch(env, c, f).core)
  {
    CompleteIff(Challenge, f, |f|);
    var c1 := Entered(c, f);
    assert c1.commands == [f[0]];
    ChallengeLevels(env, c1, f);
  }

  lemma DispatchLevels(env: Env, c: Core, f: Bytes)
    requires Control(c) && Levelled(env, c) && !c.session.closed && FrameVerdict(c.session.status, f) == Complete(|f|)
    ensures Levelled(env, Dispatch(env, c, f).core)
  {
    if c.session.status == Challenge {
      ChallengeDispatchLevels(env, c, f);
    } else {
      HandleKeepsLevel(env, Entered(c, f), f, env.oracle(|c.commands|));
    }
  }

  lemma {:induction false} RunLevels(env: Env, start: int, timeout: int, inputs: seq<Input>)
    ensures Levelled(env, Run(env, NewStream(start, timeout), inputs).core)
    decreases |inputs|
  {
    if inputs != [] {
      var n := |inputs| - 1;
      RunLevels(env, start, timeout, inputs[..n]);
      RunKeeps(env, start, timeout, inputs[..n]);
      StepLevels(env, Run(env, NewStream(start, timeout), inputs[..n]), inputs[n]);
    }
  }

  lemma StepLevels(env: Env, st: Stream, input: Input)
    requires Control(st.core) && Levelled(env, st.core)
    ensures Levelled(env, Step(env, st, input).core)
  {
    StepIsDispatch(env, st, input);
    if input.Pass? && st.Open() && st.Verdict().Complete? {
      DispatchLevels(env, st.core, st.pending[..st.Verdict().size]);
    }
  }
}
