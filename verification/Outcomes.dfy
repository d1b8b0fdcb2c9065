/** What each handler answers, cause by cause, in the bytes of the protocol. */
module Outcomes {
  import opened Wire
  import opened Arith
  import opened Guard
  import opened Srp6
  import opened BuildPolicy
  import opened AuthSession
  import RealmPacket

  // ----- who is challenged -----

  /** The account may log on: no ban of the address, a row, the right address if it is locked
      to one, and no ban of the account. */
  predicate Eligible(a: Answer) {
    && !a.ipBanned && a.account.Some?
    && !(a.account.value.lockedToIp && !a.account.value.ipMatches) && a.account.value.ban == NoBan
  }

  /** The code of each refusal, in the order in which the causes are looked for. */
  function Code(build: nat, a: Answer): byte
    requires !Eligible(a)
  {
    if a.ipBanned then 0x03
    else if a.account.None? then 0x04
    else if a.account.value.lockedToIp && !a.account.value.ipMatches then (if build in LATER_BUILDS then 0x10 else 0x08)
    else if a.account.value.ban == Permanent then 0x03
    else 0x0C
  }

  lemma LockedCode(build: nat)
    ensures LockedResult(build) == if build in LATER_BUILDS then 0x10 else 0x08
  {
    SupportedIff(build);
  }

  /** Exactly the eligible are not refused, and the others get the code of their first cause. */
  lemma RefusalIs(build: nat, a: Answer)
    ensures Refusal(build, a) == if Eligible(a) then None else Some(Code(build, a))
  {
    LockedCode(build);
  }

  /** A refused challenge is answered by its code and leaves the status CLOSED. */
  lemma RefusedChallenge(env: Env, c: Core, f: Bytes, a: Answer)
    requires ChallengeFrame(f) && !c.session.closed && |OsField(f)| <= 4 && !Eligible(a)
    ensures var o := LogonChallenge(env, c, f, a);
            && o.ok && o.core.session.status == Closed && !o.core.session.closed
            && o.core.trace == c.trace + [Sent([0x00, 0x00, Code(BuildOf(f), a)])]
  {
    RefusalIs(BuildOf(f), a);
  }

  /** An accepted one fixes level and locale with the keys. */
  lemma AcceptedChallenge(env: Env, c: Core, f: Bytes, a: Answer)
    requires ChallengeFrame(f) && !c.session.closed && |OsField(f)| <= 4 && Eligible(a)
    ensures var o, gm := LogonChallenge(env, c, f, a), a.account.value.gmLevel;
            && o.ok && o.core.session.status == LogonProof && o.core.session.locale == LocaleOf(f)
            && o.core.session.security == (if gm < 3 then gm else 3)
  {
    RefusalIs(BuildOf(f), a);
  }

  /** The locale is the field reversed, if that is two small letters and two capitals. */
  lemma LocaleIs(f: Bytes)
    requires ChallengeFrame(f)
    ensures |f| >= 35
    ensures var l := [f[24], f[23], f[22], f[21]];
            LocaleOf(f) == if 'a' as int <= l[0] <= 'z' as int && 'a' as int <= l[1] <= 'z' as int
                              && 'A' as int <= l[2] <= 'Z' as int && 'A' as int <= l[3] <= 'Z' as int
                           then l else []
  {
    ChallengeFrameSize(f);
    assert Reverse(f[21..25]) == [f[24], f[23], f[22], f[21]];
  }

  /** A stored verifier is used as it is, whatever the hash column says; otherwise a new salt. */
  lemma KeysAre(sha: Hash, a: Answer)
    requires a.account.Some?
    ensures var k, row := KeysFor(sha, a), a.account.value;
            && k.secret == FromLE(a.secret) && k.public == (3 * k.verifier + Pow(7, k.secret) % PRIME) % PRIME
            && match row.stored
               case Some(st) => k.salt == FromLE(st.salt) && k.verifier == st.v
               case None => k.salt == FromLE(a.salt)
  {
  }

  // ----- what a proof is answered -----

  lemma WrongPasswordBytes(build: nat)
    ensures WrongPassword(build) == if build > 6005 then [0x01, 0x04, 0x03, 0x00] else [0x01, 0x04]
  {
  }

  lemma TwoBytes(n: nat)
    ensures ToLE(n, 2) == [n % 256, (n / 256) % 256]
  {
    assert ToLE(n / 256, 1) == [(n / 256) % 256] + ToLE(n / 256 / 256, 0);
  }

  lemma FourBytes(n: nat)
    ensures ToLE(n, 4) == ToLE(n, 2) + ToLE(n / 256 / 256, 2)
  {
    TwoBytes(n);
    assert ToLE(n, 4) == [n % 256] + ToLE(n / 256, 3) && ToLE(n / 256, 3) == [(n / 256) % 256] + ToLE(n / 256 / 256, 2);
  }

  lemma FixedNumbers()
    ensures ToLE(0, 2) == [0, 0] && ToLE(0, 4) == [0, 0, 0, 0]
    ensures ToLE(ACCOUNT_FLAG_PROPASS, 4) == [0x00, 0x00, 0x80, 0x00]
  {
    TwoBytes(0);
    FourBytes(0);
    FourBytes(ACCOUNT_FLAG_PROPASS);
    TwoBytes(ACCOUNT_FLAG_PROPASS);
    TwoBytes(0x80);
  }

  /** 26 bytes for the 1.12 clients, 32 with the account flags for all others. */
  lemma ProofReplyBytes(build: nat, m2: Digest)
    ensures ProofReply(build, m2)
         == if build in {5875, 6005, 6141} then [0x01, 0x00] + m2 + [0, 0, 0, 0]
            else [0x01, 0x00] + m2 + [0x00, 0x00, 0x80, 0x00] + [0, 0, 0, 0] + [0, 0]
  {
    FixedNumbers();
  }

  /** The announcement of an archive: opcode, the name "Patch" with its length, the size in
      eight bytes and the digest in sixteen. */
  lemma XferInitBytes(art: Artifact)
    requires |art.data| <= 0xFFFF_FFFF_FFFF_FFFF
    ensures var r := XferInit(art);
            && |r| == 31 && r[..2] == [0x30, 5] && r[2..7] == [0x50, 0x61, 0x74, 0x63, 0x68]
            && FromLE(r[7..15]) == |art.data| && r[15..31] == art.digest
  {
    EightBytes();
    FromToLE(|art.data|, 8);
    assert XferInit(art)[7..15] == ToLE(|art.data|, 8);
  }

  lemma EightBytes()
    ensures Pow(256, 8) == 0x1_0000_0000_0000_0000
  {
    PowAdd(256, 1, 1);
    PowAdd(256, 2, 2);
    PowAdd(256, 4, 4);
    assert Pow(256, 1) == 256 by { assert Pow(256, 0) == 1; }
    assert Pow(256, 2) == 0x1_0000;
    assert Pow(256, 4) == 0x1_0000_0000;
  }

  /** A proof that does not match is told so and nothing else happens. */
  lemma WrongProof(policy: PatchPolicy, c: Core, a: Answer, key: nat)
    requires !c.session.closed
    ensures var o := Judged(policy, c, a, Mismatch(key));
            && o.ok && o.core.session.status == Closed && !o.core.session.closed && o.core.counted == c.counted
            && o.core.trace == c.trace
                               + [Sent(if c.session.build > 6005 then [0x01, 0x04, 0x03, 0x00] else [0x01, 0x04])]
  {
    WrongPasswordBytes(c.session.build);
  }

  /** A matching one whose client cannot be let in: patched if there is an archive to offer,
      turned away as an invalid version, or dropped because the key could not be published. */
  lemma MatchNotLetIn(policy: PatchPolicy, c: Core, m2: Digest, a: Answer, patch: bool, supported: bool)
    requires !c.session.closed && c.session.status == Closed
    requires supported == Supported(c.session.build) && patch == ShouldPatch(policy, c.session.build, supported)
    requires patch || !supported || !a.published
    ensures var o := ProofAccepted(policy, c, m2, a);
            if patch && a.archive.Some?
            then && o.ok && o.core.session.status == Patch && o.core.session.artifact == a.archive
                 && o.core.trace == c.trace + [Sent([0x01, 0x0A])] + [Sent(XferInit(a.archive.value))]
                 && !o.core.session.deadline.active && !o.core.session.closed
            else if patch || !supported
            then && o.ok && o.core.session.status == Closed && !o.core.session.closed
                 && o.core.trace == c.trace + [Sent([0x00, 0x00, 0x09])]
            else !o.ok && o.core.session.closed && o.core.session.status == Closed && o.core.trace == c.trace
  {
    if patch && a.archive.Some? { OfferIs(c, a); }
  }

  lemma OfferIs(c: Core, a: Answer)
    requires !c.session.closed && a.archive.Some?
    ensures var d := OfferPatch(c, a);
            && d.session.status == Patch && d.session.artifact == a.archive && !d.session.closed
            && d.trace == c.trace + [Sent([0x01, 0x0A])] + [Sent(XferInit(a.archive.value))]
            && !d.session.deadline.active
  {
    assert XferInit(a.archive.value) != [];
  }

  // ----- reconnect -----

  lemma {:induction false} ZeroBytes(w: nat)
    ensures ToLE(0, w) == Zeros(w)
  {
    if w > 0 { ZeroBytes(w - 1); }
  }

  lemma ReconnectReplyBytes(nonce: Bytes16)
    ensures ReconnectReply(FromLE(nonce)) == [0x02, 0x00] + nonce + Zeros(16)
  {
    ToFromLE(nonce);
    ZeroBytes(8);
  }

  lemma ReconnectProofReplyBytes(build: nat)
    ensures ReconnectProofReply(build) == if build > 6141 then [0x03, 0x00, 0x00, 0x00] else [0x03, 0x00]
  {
  }

  /** A reconnect challenge: an unknown account is dropped; a known one is sent the nonce, keeps
      the key of the database, and no level above that of a player. */
  lemma ReconnectChallenged(c: Core, f: Bytes, a: Answer)
    requires ChallengeFrame(f) && !c.session.closed && |OsField(f)| <= 4
    ensures var o := ReconnectChallenge(c, f, a);
            && o.core.session.security == c.session.security && o.core.session.locale == LocaleOf(f)
            && if a.sessionKey.None?
               then !o.ok && o.core.session.closed && o.core.session.status == Closed && o.core.trace == c.trace
               else && o.ok && !o.core.session.closed && o.core.session.status == ReconnectProof
                    && o.core.session.key == a.sessionKey.value && o.core.session.nonce == FromLE(a.nonce)
                    && o.core.trace == c.trace + [Sent([0x02, 0x00] + a.nonce + Zeros(16))]
  {
    ReconnectReplyBytes(a.nonce);
  }

  // ----- after the proof -----

  /** The commands of a client that has been offered an archive: accept starts at its first
      byte, resume where the client asks if that is inside, cancel closes. */
  lemma PatchCommands(env: Env, c: Core, f: Bytes, art: Artifact)
    requires c.session.status == Patch && !c.session.closed && c.session.artifact == Some(art)
    requires FrameVerdict(Patch, f) == Complete(|f|)
    ensures var o, t := Dispatch(env, c, f), c.trace + [Dispatched(f)];
            if f[0] == 0x34 then o.ok && o.core.session.closed && o.core.trace == t
            else
              var offset := if f[0] == 0x32 then 0 else FromLE(f[1..9]);
              if offset <= |art.data| && offset <= 0x7FFF_FFFF_FFFF_FFFF
              then && o.ok && !o.core.session.closed && o.core.session.status == Closed && o.core.session.artifact.None?
                   && o.core.trace == t + [TransferStarted(art, offset)]
              else !o.ok && o.core.session.closed && o.core.trace == t
  {
    CompleteIff(Patch, f, |f|);
  }

  /** A realm-list request is answered unless the account is gone, which closes. */
  lemma RealmListAnswered(c: Core, a: Answer)
    requires !c.session.closed
    ensures var o, s := RealmListStep(c, a), c.session;
            var body := RealmPacket.Body(RealmPacket.LayoutOf(s.build),
                                         RealmPacket.Entries(s.build, s.security, a.view));
            if a.accountFound
            then o.ok && o.core.session == s && o.core.trace == c.trace + [Sent([0x10] + (ToLE(|body|, 2) + body))]
            else !o.ok && o.core.session.closed && o.core.trace == c.trace
  {
  }
}
