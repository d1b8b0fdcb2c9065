/** One authentication session: its state, the outside answers it depends on, what it does
    to the outside world, and the effect of each command handler as a function. */
module AuthSession {
  import opened Wire
  import opened Guard
  import opened Srp6
  import opened BuildPolicy
  import RealmIndex
  import RealmPacket
  import PatchStream

  const WOW_FAIL_BANNED: byte := 0x03
  const WOW_FAIL_UNKNOWN_ACCOUNT: byte := 0x04
  const WOW_FAIL_DB_BUSY: byte := 0x08
  const WOW_FAIL_VERSION_INVALID: byte := 0x09
  const WOW_FAIL_VERSION_UPDATE: byte := 0x0A
  const WOW_FAIL_SUSPENDED: byte := 0x0C
  const WOW_FAIL_LOCKED_ENFORCED: byte := 0x10
  const ACCOUNT_FLAG_PROPASS: nat := 0x0080_0000
  const SEC_PLAYER: nat := 0

  // ----- the outside -----

  datatype Ban = NoBan | Permanent | Temporary

  /** A stored verifier and salt, both columns of the full 64 hexadecimal digits. */
  datatype StoredVerifier = StoredVerifier(v: nat, salt: Bytes32)

  /** The account row; `passHash` is its hash column read as a hexadecimal number. */
  datatype AccountRow = AccountRow(passHash: nat, lockedToIp: bool, ipMatches: bool, gmLevel: nat,
                                   ban: Ban, stored: Option<StoredVerifier>)

  /** An opened patch archive: its bytes and their advertised digest. */
  datatype Artifact = Artifact(data: Bytes, digest: Bytes16)

  /** Everything one handler call may learn from the database, the random source, the file
      system and the realm list. */
  datatype Answer = Answer(ipBanned: bool, account: Option<AccountRow>,
                           salt: Bytes32, secret: Bytes19, filler: Bytes16,
                           sessionKey: Option<nat>, nonce: Bytes16, published: bool,
                           archive: Option<Artifact>, accountFound: bool, view: seq<RealmPacket.Shown>)

  datatype Env = Env(sha: Hash, oracle: nat -> Answer, policy: PatchPolicy)

  datatype Event =
    | Dispatched(frame: Bytes)
    | Sent(bytes: Bytes)
    | Published(login: Bytes, key: Option<nat>)
    | TransferStarted(artifact: Artifact, offset: nat)

  // ----- the session -----

  datatype Deadline = Deadline(at: int, active: bool) {
    predicate Expired(now: int) { active && now >= at }
    function Deactivate(): Deadline { this.(active := false) }
  }

  datatype Session = Session(status: Status, closed: bool, deadline: Deadline,
                             login: Bytes, build: nat, os: Bytes, locale: Bytes,
                             salt: nat, verifier: nat, secret: nat, public: nat, key: nat, nonce: nat,
                             artifact: Option<Artifact>, security: nat)

  /** The session, what it has done so far, the commands it has dispatched, and how often it
      has added to the authenticated counter and invoked the transport's closer. */
  datatype Core = Core(session: Session, trace: seq<Event>, commands: seq<byte>, counted: nat, closers: nat)

  datatype Outcome = Outcome(core: Core, ok: bool)

  function Fresh(start: int, timeout: int): Core {
    Core(Session(Challenge, false, Deadline(start + timeout, timeout > 0), [], 0, [], [],
                 0, 0, 0, 0, 0, 0, None, SEC_PLAYER), [], [], 0, 0)
  }

  function Record(c: Core, e: Event): Core { c.(trace := c.trace + [e]) }

  function Send(c: Core, bytes: Bytes): Core {
    if bytes == [] || c.session.closed then c else Record(c, Sent(bytes))
  }

  /** `close_connection`. */
  function Close(c: Core): Core {
    c.(session := c.session.(deadline := c.session.deadline.Deactivate(), closed := true),
       closers := if c.session.closed then c.closers else c.closers + 1)
  }

  /** `onClose`: the transport went away by itself. */
  function PeerClose(c: Core): Core {
    c.(session := c.session.(deadline := c.session.deadline.Deactivate(), closed := true))
  }

  /** `ExpireAuthentication`. */
  function Expire(c: Core, now: int): Core {
    if c.session.deadline.Expired(now) then Close(c) else c
  }

  function SetStatus(c: Core, status: Status): Core { c.(session := c.session.(status := status)) }

  /** The end of both proof handlers: authenticated, no deadline, counted. */
  function Authenticate(c: Core): Core {
    c.(session := c.session.(status := Authenticated, deadline := c.session.deadline.Deactivate()),
       counted := c.counted + 1)
  }

  // ----- the challenge frame -----

  predicate ChallengeFrame(f: Bytes) {
    FrameVerdict(Challenge, f) == Complete(|f|)
  }

  function AccountName(f: Bytes): Bytes
    requires ChallengeFrame(f)
  {
    f[CHALLENGE_NAME_OFFSET..CHALLENGE_NAME_OFFSET + f[CHALLENGE_NAME_LENGTH_OFFSET]]
  }

  function BuildOf(f: Bytes): nat
    requires ChallengeFrame(f)
  {
    f[11] as int + 256 * (f[12] as int)
  }

  /** The OS field read as a C string: it runs on into the following fields until a NUL. */
  function OsField(f: Bytes): Bytes
    requires ChallengeFrame(f)
  {
    CString(f[17..])
  }

  predicate Lower(x: byte) { 0x61 <= x <= 0x7A }
  predicate Upper(x: byte) { 0x41 <= x <= 0x5A }

  /** `ParseClientLocaleClaim(...).value_or("")`. */
  function LocaleOf(f: Bytes): Bytes
    requires ChallengeFrame(f)
  {
    var l := Reverse(f[21..25]);
    if Lower(l[0]) && Lower(l[1]) && Upper(l[2]) && Upper(l[3]) then l else []
  }

  /** What both challenge handlers take from the frame before they look at the database. */
  function WithIdentity(c: Core, f: Bytes): Core
    requires ChallengeFrame(f)
  {
    c.(session := c.session.(status := Closed, login := AccountName(f), build := BuildOf(f), os := OsField(f)))
  }

  function OsRestored(c: Core): Core { c.(session := c.session.(os := Reverse(c.session.os))) }

  // ----- logon -----

  function LockedResult(build: nat): byte {
    if !Supported(build) || BelongsToVersion(build) == Vanilla then WOW_FAIL_DB_BUSY else WOW_FAIL_LOCKED_ENFORCED
  }

  /** The refusal code of a logon challenge; None means the challenge goes on. */
  function Refusal(build: nat, a: Answer): (r: Option<byte>)
    ensures r.None? ==> a.account.Some?
  {
    if a.ipBanned then Some(WOW_FAIL_BANNED)
    else if a.account.None? then Some(WOW_FAIL_UNKNOWN_ACCOUNT)
    else
      var row := a.account.value;
      if row.lockedToIp && !row.ipMatches then Some(LockedResult(build))
      else
        match row.ban
        case Permanent => Some(WOW_FAIL_BANNED)
        case Temporary => Some(WOW_FAIL_SUSPENDED)
        case NoBan => None
  }

  function SaltFor(row: AccountRow, a: Answer): nat {
    match row.stored
    case Some(st) => FromLE(st.salt)
    case None => FromLE(a.salt)
  }

  /** The stored verifier, or a new one for a new salt. */
  function VerifierFor(sha: Hash, row: AccountRow, a: Answer): nat {
    match row.stored
    case Some(st) => st.v
    case None => VerifierOf(sha, FromLE(a.salt), row.passHash)
  }

  function ChallengeReply(public: nat, salt: nat, filler: Bytes16): Bytes {
    [CMD_AUTH_LOGON_CHALLENGE, 0, 0] + ToLE(public, EPHEMERAL_WIDTH) + [GENERATOR_WIDTH]
    + ToLE(GENERATOR, GENERATOR_WIDTH) + [EPHEMERAL_WIDTH] + ToLE(PRIME, EPHEMERAL_WIDTH)
    + ToLE(salt, SALT_WIDTH) + filler + [0]
  }

  /** The numbers a challenge fixes for the proof that follows. */
  datatype Keys = Keys(salt: nat, verifier: nat, secret: nat, public: nat)

  function KeysFor(sha: Hash, a: Answer): Keys
    requires a.account.Some?
  {
    var v, b := VerifierFor(sha, a.account.value, a), FromLE(a.secret);
    Keys(SaltFor(a.account.value, a), v, b, ServerPublic(v, b))
  }

  function KeysOf(s: Session): Keys { Keys(s.salt, s.verifier, s.secret, s.public) }

  function WithKeys(s: Session, k: Keys): Session {
    s.(salt := k.salt, verifier := k.verifier, secret := k.secret, public := k.public)
  }

  function LogonChallenge(env: Env, c: Core, f: Bytes, a: Answer): Outcome
    requires ChallengeFrame(f)
  {
    var c1 := WithIdentity(c, f);
    if |c1.session.os| > 4 then Outcome(c1, false)
    else
      var c2 := OsRestored(c1);
      match Refusal(c2.session.build, a)
      case Some(code) => Outcome(Send(c2, [CMD_AUTH_LOGON_CHALLENGE, 0, code]), true)
      case None => Outcome(OpenChallenge(c2, f, a, KeysFor(env.sha, a)), true)
  }

  function OpenChallenge(c: Core, f: Bytes, a: Answer, k: Keys): Core
    requires ChallengeFrame(f) && a.account.Some?
  {
    Send(c.(session := WithKeys(c.session, k).(
           status := LogonProof, security := RealmIndex.ClampSecurity(a.account.value.gmLevel), locale := LocaleOf(f))),
         ChallengeReply(k.public, k.salt, a.filler))
  }

  function ProofA(f: Bytes): nat
    requires |f| == LOGON_PROOF_SIZE
  {
    FromLE(f[1..33])
  }

  /** The session key and the proof number the server expects for a proof frame. */
  function ExpectedKey(sha: Hash, k: Keys, f: Bytes): nat
    requires |f| == LOGON_PROOF_SIZE
  {
    SessionKey(sha, ProofA(f), k.verifier, k.secret, k.public)
  }

  function ExpectedM(sha: Hash, login: Bytes, k: Keys, f: Bytes): nat
    requires |f| == LOGON_PROOF_SIZE
  {
    ServerProofNumber(sha, login, k.salt, ProofA(f), k.public, ExpectedKey(sha, k, f))
  }

  /** The verdict on a proof frame. */
  datatype Judgement = ZeroA | Mismatch(key: nat) | Match(key: nat, m2: Digest)

  function Judge(sha: Hash, login: Bytes, k: Keys, f: Bytes): Judgement
    requires |f| == LOGON_PROOF_SIZE
  {
    if ProofA(f) % PRIME == 0 then ZeroA
    else
      var key, m := ExpectedKey(sha, k, f), ExpectedM(sha, login, k, f);
      if ToLE(m, DIGEST_WIDTH) == f[33..53] then Match(key, ServerReplyDigest(sha, ProofA(f), m, key))
      else Mismatch(key)
  }

  function XferInit(art: Artifact): Bytes {
    [CMD_XFER_INITIATE, 5, 0x50, 0x61, 0x74, 0x63, 0x68] + ToLE(|art.data|, 8) + art.digest
  }

  function InvalidVersion(c: Core): Core {
    Send(c, [CMD_AUTH_LOGON_CHALLENGE, 0, WOW_FAIL_VERSION_INVALID])
  }

  function OfferPatch(c: Core, a: Answer): Core {
    match a.archive
    case None => InvalidVersion(c)
    case Some(art) =>
      var c1 := c.(session := c.session.(artifact := Some(art)));
      var c2 := Send(Send(c1, [CMD_AUTH_LOGON_PROOF, WOW_FAIL_VERSION_UPDATE]), XferInit(art));
      c2.(session := c2.session.(status := Patch, deadline := c2.session.deadline.Deactivate()))
  }

  function ProofReply(build: nat, m2: Digest): Bytes {
    if build == 5875 || build == 6005 || build == 6141
    then [CMD_AUTH_LOGON_PROOF, 0] + m2 + ToLE(0, 4)
    else [CMD_AUTH_LOGON_PROOF, 0] + m2 + ToLE(ACCOUNT_FLAG_PROPASS, 4) + ToLE(0, 4) + ToLE(0, 2)
  }

  function WrongPassword(build: nat): Bytes {
    if build > 6005 then [CMD_AUTH_LOGON_PROOF, WOW_FAIL_UNKNOWN_ACCOUNT, 3, 0]
    else [CMD_AUTH_LOGON_PROOF, WOW_FAIL_UNKNOWN_ACCOUNT]
  }

  /** A matching proof: patch, refuse the build, or publish the key and authenticate. */
  function ProofAccepted(policy: PatchPolicy, c: Core, m2: Digest, a: Answer): Outcome {
    var s := c.session;
    var supported := Supported(s.build);
    if ShouldPatch(policy, s.build, supported) then Outcome(OfferPatch(c, a), true)
    else if !supported then Outcome(InvalidVersion(c), true)
    else if !a.published then Outcome(Close(c), false)
    else Outcome(Authenticate(Send(Record(c, Published(s.login, Some(s.key))), ProofReply(s.build, m2))), true)
  }

  /** The session once the key is computed, closed unless the proof says otherwise. */
  function Keyed(c: Core, key: nat): Core {
    c.(session := c.session.(status := Closed, key := key))
  }

  function Judged(policy: PatchPolicy, c: Core, a: Answer, j: Judgement): Outcome {
    match j
    case ZeroA => Outcome(SetStatus(c, Closed), false)
    case Mismatch(key) => Outcome(Send(Keyed(c, key), WrongPassword(c.session.build)), true)
    case Match(key, m2) => ProofAccepted(policy, Keyed(c, key), m2, a)
  }

  function LogonProofStep(env: Env, c: Core, f: Bytes, a: Answer): Outcome
    requires |f| == LOGON_PROOF_SIZE
  {
    Judged(env.policy, c, a, Judge(env.sha, c.session.login, KeysOf(c.session), f))
  }

  // ----- reconnect -----

  function ReconnectReply(nonce: nat): Bytes {
    [CMD_AUTH_RECONNECT_CHALLENGE, 0] + ToLE(nonce, RECONNECT_WIDTH) + ToLE(0, 8) + ToLE(0, 8)
  }

  function ReconnectChallenge(c: Core, f: Bytes, a: Answer): Outcome
    requires ChallengeFrame(f)
  {
    var c0 := WithIdentity(c, f);
    var c1 := c0.(session := c0.session.(locale := LocaleOf(f)));
    if |c1.session.os| > 4 then Outcome(c1, false)
    else
      var c2 := OsRestored(c1);
      match a.sessionKey
      case None => Outcome(Close(c2), false)
      case Some(k) =>
        var c3 := c2.(session := c2.session.(key := k, status := ReconnectProof, nonce := FromLE(a.nonce)));
        Outcome(Send(c3, ReconnectReply(FromLE(a.nonce))), true)
  }

  /** The reconnect proof carries the hash of login, client nonce, server nonce and key. */
  predicate ReconnectMatches(env: Env, s: Session, f: Bytes)
    requires |f| == RECONNECT_PROOF_SIZE
  {
    && s.login != [] && s.nonce != 0 && s.key != 0
    && env.sha(ReconnectTranscript(s.login, FromLE(f[1..17]), s.nonce, s.key)) == f[17..37]
  }

  function ReconnectProofReply(build: nat): Bytes {
    [CMD_AUTH_RECONNECT_PROOF, 0] + (if build > 6141 then [0, 0] else [])
  }

  function ReconnectProofStep(env: Env, c: Core, f: Bytes, a: Answer): Outcome
    requires |f| == RECONNECT_PROOF_SIZE
  {
    var c1 := SetStatus(c, Closed);
    var s := c1.session;
    if s.login == [] || s.nonce == 0 || s.key == 0 then Outcome(c1, false)
    else if !ReconnectMatches(env, s, f) then Outcome(Close(c1), false)
    else if !a.published then Outcome(Close(c1), false)
    else Outcome(Authenticate(Send(Record(c1, Published(s.login, None)), ReconnectProofReply(s.build))), true)
  }

  // ----- realm list and patch transfer -----

  function RealmListReply(s: Session, a: Answer): Bytes {
    RealmPacket.Reply(RealmPacket.LayoutOf(s.build), RealmPacket.Entries(s.build, s.security, a.view))
  }

  function RealmListStep(c: Core, a: Answer): Outcome {
    if !a.accountFound then Outcome(Close(c), false)
    else Outcome(Send(c, RealmListReply(c.session, a)), true)
  }

  function BeginPatchStream(c: Core, offset: nat): Outcome {
    match c.session.artifact
    case None => Outcome(Close(c), false)
    case Some(art) =>
      var c1 := c.(session := c.session.(status := Closed, artifact := None));
      if PatchStream.SeekAccepted(|art.data|, offset)
      then Outcome(Record(c1, TransferStarted(art, offset)), true)
      else Outcome(Close(c1), false)
  }

  // ----- dispatch -----

  /** The whole effect of dispatching one frame the guard has passed. */
  function Handle(env: Env, c: Core, f: Bytes, a: Answer): Outcome
    requires FrameVerdict(c.session.status, f) == Complete(|f|)
  {
    var cmd := f[0];
    if cmd == CMD_AUTH_LOGON_CHALLENGE then LogonChallenge(env, c, f, a)
    else if cmd == CMD_AUTH_LOGON_PROOF then LogonProofStep(env, c, f, a)
    else if cmd == CMD_AUTH_RECONNECT_CHALLENGE then ReconnectChallenge(c, f, a)
    else if cmd == CMD_AUTH_RECONNECT_PROOF then ReconnectProofStep(env, c, f, a)
    else if cmd == CMD_REALM_LIST then RealmListStep(c, a)
    else if cmd == CMD_XFER_ACCEPT then BeginPatchStream(c, 0)
    else if cmd == CMD_XFER_RESUME then BeginPatchStream(c, FromLE(f[1..9]))
    else Outcome(Close(c), true)
  }

  /** The frame is on record, and its handler call is about to happen. */
  function Entered(c: Core, f: Bytes): Core
    requires f != []
  {
    Record(c, Dispatched(f)).(commands := c.commands + [f[0]])
  }

  /** The n-th handler call gets the n-th answer of the outside. */
  function Dispatch(env: Env, c: Core, f: Bytes): Outcome
    requires FrameVerdict(c.session.status, f) == Complete(|f|)
  {
    Handle(env, Entered(c, f), f, env.oracle(|c.commands|))
  }
}
