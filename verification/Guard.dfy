/** The framing guard: a verdict on the next frame of the stream, before any handler
    is allowed to consume a byte. */
module Guard {
  import opened Wire

  /** `eStatus` and `StreamState`, which `stream_state` maps one to one. */
  datatype Status = Challenge | LogonProof | ReconnectProof | Patch | Authenticated | Closed

  datatype RejectReason = UnknownCommand | UnauthorizedCommand | MalformedLength | UnsupportedKeyProof

  /** `need` is the size the guard reports as required, 0 when it cannot know yet. */
  datatype Verdict = Incomplete(need: nat) | Complete(size: nat) | Reject(reason: RejectReason)

  const CMD_AUTH_LOGON_CHALLENGE: byte := 0x00
  const CMD_AUTH_LOGON_PROOF: byte := 0x01
  const CMD_AUTH_RECONNECT_CHALLENGE: byte := 0x02
  const CMD_AUTH_RECONNECT_PROOF: byte := 0x03
  const CMD_REALM_LIST: byte := 0x10
  const CMD_XFER_INITIATE: byte := 0x30
  const CMD_XFER_DATA: byte := 0x31
  const CMD_XFER_ACCEPT: byte := 0x32
  const CMD_XFER_RESUME: byte := 0x33
  const CMD_XFER_CANCEL: byte := 0x34

  const CHALLENGE_HEADER_SIZE: nat := 4
  const CHALLENGE_MINIMUM_BODY: nat := 31
  const CHALLENGE_PREFIX_BODY: nat := 30
  const CHALLENGE_NAME_LENGTH_OFFSET: nat := 33
  const CHALLENGE_NAME_OFFSET: nat := 34
  const LOGON_PROOF_SIZE: nat := 75
  const LOGON_PROOF_KEY_COUNT_OFFSET: nat := 73
  const RECONNECT_PROOF_SIZE: nat := 58
  const RECONNECT_PROOF_KEY_COUNT_OFFSET: nat := 57
  const REALM_LIST_SIZE: nat := 5
  const XFER_ACCEPT_SIZE: nat := 1
  const XFER_RESUME_SIZE: nat := 9
  const XFER_CANCEL_SIZE: nat := 1
  const MAX_PENDING_INPUT: nat := CHALLENGE_HEADER_SIZE + 0xFFFF

  function BodySize(data: Bytes): (n: nat)
    requires |data| >= CHALLENGE_HEADER_SIZE
    ensures n <= 0xFFFF
  {
    data[2] as int + 256 * (data[3] as int)
  }

  predicate NameHasNoNul(data: Bytes, length: nat)
    requires CHALLENGE_NAME_OFFSET + length <= |data|
  {
    0 !in data[CHALLENGE_NAME_OFFSET..CHALLENGE_NAME_OFFSET + length]
  }

  function ChallengeVerdict(data: Bytes): Verdict
    requires data != []
  {
    if |data| < CHALLENGE_HEADER_SIZE then Incomplete(CHALLENGE_HEADER_SIZE)
    else if BodySize(data) < CHALLENGE_MINIMUM_BODY then Reject(MalformedLength)
    else
      var required := CHALLENGE_HEADER_SIZE + BodySize(data);
      if |data| < required then Incomplete(required)
      else
        var length := data[CHALLENGE_NAME_LENGTH_OFFSET];
        if BodySize(data) != CHALLENGE_PREFIX_BODY + length then Reject(MalformedLength)
        else if NameHasNoNul(data, length) then Complete(required)
        else Reject(MalformedLength)
  }

  function ProofVerdict(data: Bytes, keyCountOffset: nat, size: nat): Verdict {
    if |data| <= keyCountOffset then Incomplete(keyCountOffset + 1)
    else if data[keyCountOffset] != 0 then Reject(UnsupportedKeyProof)
    else FixedVerdict(data, size)
  }

  function FixedVerdict(data: Bytes, size: nat): Verdict {
    if |data| < size then Incomplete(size) else Complete(size)
  }

  /** The status in which a command is accepted, as the dispatch table lists it. */
  function CommandStatus(cmd: byte): Option<Status> {
    if cmd == CMD_AUTH_LOGON_CHALLENGE || cmd == CMD_AUTH_RECONNECT_CHALLENGE then Some(Challenge)
    else if cmd == CMD_AUTH_LOGON_PROOF then Some(LogonProof)
    else if cmd == CMD_AUTH_RECONNECT_PROOF then Some(ReconnectProof)
    else if cmd == CMD_REALM_LIST then Some(Authenticated)
    else if cmd == CMD_XFER_ACCEPT || cmd == CMD_XFER_RESUME || cmd == CMD_XFER_CANCEL then Some(Patch)
    else None
  }

  /** The verdict `InspectFrame` gives on the unconsumed bytes. */
  function FrameVerdict(state: Status, data: Bytes): Verdict {
    if data == [] then Incomplete(0)
    else
      var cmd := data[0];
      match CommandStatus(cmd)
      case None => Reject(UnknownCommand)
      case Some(expected) =>
        if state != expected then Reject(UnauthorizedCommand)
        else if expected.Challenge? then ChallengeVerdict(data)
        else if expected.LogonProof? then ProofVerdict(data, LOGON_PROOF_KEY_COUNT_OFFSET, LOGON_PROOF_SIZE)
        else if expected.ReconnectProof? then ProofVerdict(data, RECONNECT_PROOF_KEY_COUNT_OFFSET, RECONNECT_PROOF_SIZE)
        else if expected.Authenticated? then FixedVerdict(data, REALM_LIST_SIZE)
        else if cmd == CMD_XFER_RESUME then FixedVerdict(data, XFER_RESUME_SIZE)
        else FixedVerdict(data, 1)
  }

  // ----- the protocol's own reading, status by status -----

  /** The first `n` bytes are a frame the status accepts. */
  predicate IsFrame(state: Status, data: Bytes, n: nat) {
    && 1 <= n <= |data|
    && match state
       case Challenge =>
         && data[0] in {0x00, 0x02} && n >= 35 && n == 34 + data[33] as int
         && data[2] as int + 256 * (data[3] as int) == n - 4 && 0 !in data[34..n]
       case LogonProof => data[0] == 0x01 && n == 75 && data[73] == 0
       case ReconnectProof => data[0] == 0x03 && n == 58 && data[57] == 0
       case Patch => (data[0] in {0x32, 0x34} && n == 1) || (data[0] == 0x33 && n == 9)
       case Authenticated => data[0] == 0x10 && n == 5
       case Closed => false
  }

  function Expected(state: Status): set<byte> {
    match state
    case Challenge => {0x00, 0x02}
    case LogonProof => {0x01}
    case ReconnectProof => {0x03}
    case Patch => {0x32, 0x33, 0x34}
    case Authenticated => {0x10}
    case Closed => {}
  }

  /** A challenge whose lengths contradict each other, or with a NUL in its name. */
  predicate Malformed(data: Bytes) {
    && |data| >= 4
    && var body := data[2] as int + 256 * (data[3] as int);
    body < 31 || (|data| >= 4 + body && (body != 30 + data[33] as int || 0 in data[34..4 + body]))
  }

  /** The bytes are turned down for this reason. */
  predicate IsRejected(state: Status, data: Bytes, reason: RejectReason) {
    && data != []
    && match reason
       case UnknownCommand => data[0] !in {0x00, 0x01, 0x02, 0x03, 0x10, 0x32, 0x33, 0x34}
       case UnauthorizedCommand =>
         data[0] in {0x00, 0x01, 0x02, 0x03, 0x10, 0x32, 0x33, 0x34} && data[0] !in Expected(state)
       case MalformedLength => state == Challenge && data[0] in {0x00, 0x02} && Malformed(data)
       case UnsupportedKeyProof =>
         || (state == LogonProof && data[0] == 0x01 && |data| >= 74 && data[73] != 0)
         || (state == ReconnectProof && data[0] == 0x03 && |data| >= 58 && data[57] != 0)
  }

  lemma CompleteIff(state: Status, data: Bytes, n: nat)
    ensures FrameVerdict(state, data) == Complete(n) <==> IsFrame(state, data, n)
  {
  }

  lemma RejectIff(state: Status, data: Bytes, reason: RejectReason)
    ensures FrameVerdict(state, data) == Reject(reason) <==> IsRejected(state, data, reason)
  {
  }

  /** The guard as the source runs it: a switch on the command and, for a challenge, one
      scan of the account name. */
  method InspectFrame(state: Status, data: Bytes) returns (d: Verdict)
    ensures d == FrameVerdict(state, data)
    ensures forall n :: d == Complete(n) <==> IsFrame(state, data, n)
    ensures forall reason :: d == Reject(reason) <==> IsRejected(state, data, reason)
  {
    forall n: nat ensures FrameVerdict(state, data) == Complete(n) <==> IsFrame(state, data, n) {
      CompleteIff(state, data, n);
    }
    forall reason ensures FrameVerdict(state, data) == Reject(reason) <==> IsRejected(state, data, reason) {
      RejectIff(state, data, reason);
    }
    if |data| == 0 { return Incomplete(0); }
    var required := 0;
    var cmd := data[0];
    if cmd == CMD_AUTH_LOGON_CHALLENGE || cmd == CMD_AUTH_RECONNECT_CHALLENGE {
      if state != Challenge { return Reject(UnauthorizedCommand); }
      if |data| < CHALLENGE_HEADER_SIZE { return Incomplete(CHALLENGE_HEADER_SIZE); }
      var body := BodySize(data);
      if body < CHALLENGE_MINIMUM_BODY { return Reject(MalformedLength); }
      required := CHALLENGE_HEADER_SIZE + body;
      if |data| < required { return Incomplete(required); }
      var length := data[CHALLENGE_NAME_LENGTH_OFFSET];
      if body != CHALLENGE_PREFIX_BODY + length { return Reject(MalformedLength); }
      var i := 0;
      while i < length
        invariant 0 <= i <= length
        invariant 0 !in data[CHALLENGE_NAME_OFFSET..CHALLENGE_NAME_OFFSET + i]
      {
        if data[CHALLENGE_NAME_OFFSET + i] == 0 { return Reject(MalformedLength); }
        i := i + 1;
      }
      return Complete(required);
    } else if cmd == CMD_AUTH_LOGON_PROOF {
      if state != LogonProof { return Reject(UnauthorizedCommand); }
      if |data| <= LOGON_PROOF_KEY_COUNT_OFFSET { return Incomplete(LOGON_PROOF_KEY_COUNT_OFFSET + 1); }
      if data[LOGON_PROOF_KEY_COUNT_OFFSET] != 0 { return Reject(UnsupportedKeyProof); }
      required := LOGON_PROOF_SIZE;
    } else if cmd == CMD_AUTH_RECONNECT_PROOF {
      if state != ReconnectProof { return Reject(UnauthorizedCommand); }
      if |data| <= RECONNECT_PROOF_KEY_COUNT_OFFSET { return Incomplete(RECONNECT_PROOF_KEY_COUNT_OFFSET + 1); }
      if data[RECONNECT_PROOF_KEY_COUNT_OFFSET] != 0 { return Reject(UnsupportedKeyProof); }
      required := RECONNECT_PROOF_SIZE;
    } else if cmd == CMD_REALM_LIST {
      if state != Authenticated { return Reject(UnauthorizedCommand); }
      required := REALM_LIST_SIZE;
    } else if cmd == CMD_XFER_ACCEPT {
      if state != Patch { return Reject(UnauthorizedCommand); }
      required := XFER_ACCEPT_SIZE;
    } else if cmd == CMD_XFER_RESUME {
      if state != Patch { return Reject(UnauthorizedCommand); }
      required := XFER_RESUME_SIZE;
    } else if cmd == CMD_XFER_CANCEL {
      if state != Patch { return Reject(UnauthorizedCommand); }
      required := XFER_CANCEL_SIZE;
    } else {
      return Reject(UnknownCommand);
    }
    if |data| < required { return Incomplete(required); }
    return Complete(required);
  }

  /** `CanAppendPending`. */
  predicate CanAppendPending(pending: nat, incoming: nat) {
    pending <= MAX_PENDING_INPUT && incoming <= MAX_PENDING_INPUT - pending
  }

  /** The limit is one challenge of the largest announced size. */
  lemma CanAppendIff(pending: nat, incoming: nat)
    ensures CanAppendPending(pending, incoming) <==> pending + incoming <= 65539
  {
  }

  /** Verdicts survive more input: a complete frame keeps its size, a rejection its reason,
      and an announced size is exact, still waiting below it and never at it or above. */
  lemma VerdictStable(state: Status, data: Bytes, more: Bytes)
    ensures match FrameVerdict(state, data)
            case Complete(n) => 1 <= n <= |data| && FrameVerdict(state, data + more) == Complete(n)
            case Reject(r) => FrameVerdict(state, data + more) == Reject(r)
            case Incomplete(n) =>
              && (n == 0 <==> data == [])
              && (n > 0 ==> n > |data|)
              && (|data + more| < n ==> FrameVerdict(state, data + more) == Incomplete(n))
              && (0 < n <= |data + more| ==> FrameVerdict(state, data + more) != Incomplete(n))
  {
    if data == [] { return; }
    var all := data + more;
    assert all[0] == data[0];
    if data[0] == CMD_AUTH_LOGON_CHALLENGE || data[0] == CMD_AUTH_RECONNECT_CHALLENGE {
      if state == Challenge && |data| >= CHALLENGE_HEADER_SIZE {
        assert BodySize(all) == BodySize(data);
        if |data| >= CHALLENGE_HEADER_SIZE + BodySize(data) && BodySize(data) >= CHALLENGE_MINIMUM_BODY {
          var length := data[CHALLENGE_NAME_LENGTH_OFFSET];
          assert all[CHALLENGE_NAME_LENGTH_OFFSET] == length;
          if BodySize(data) == CHALLENGE_PREFIX_BODY + length {
            assert all[CHALLENGE_NAME_OFFSET..CHALLENGE_NAME_OFFSET + length]
                == data[CHALLENGE_NAME_OFFSET..CHALLENGE_NAME_OFFSET + length];
          }
        }
      }
    }
  }

  /** A complete frame is complete on its own: the verdict looks at no byte behind it. */
  lemma CompleteIsLocal(state: Status, data: Bytes)
    requires FrameVerdict(state, data).Complete?
    ensures var n := FrameVerdict(state, data).size; 1 <= n <= |data| && FrameVerdict(state, data[..n]) == Complete(n)
  {
    VerdictStable(state, data, []);
    var n := FrameVerdict(state, data).size;
    if state == Challenge {
      var length := data[CHALLENGE_NAME_LENGTH_OFFSET];
      assert data[..n][2] == data[2] && data[..n][3] == data[3] && data[..n][CHALLENGE_NAME_LENGTH_OFFSET] == length;
      assert data[..n][CHALLENGE_NAME_OFFSET..n] == data[CHALLENGE_NAME_OFFSET..n];
    }
  }

  /** The largest frame (for a challenge: the largest announced frame) of each status. */
  function LargestFrame(state: Status): nat {
    match state
    case Challenge => MAX_PENDING_INPUT
    case LogonProof => LOGON_PROOF_SIZE
    case ReconnectProof => RECONNECT_PROOF_SIZE
    case Patch => XFER_RESUME_SIZE
    case Authenticated => REALM_LIST_SIZE
    case Closed => 0
  }

  /** Bytes that wait for more are always short of that frame; none wait in Closed. */
  lemma WaitingIsShort(state: Status, data: Bytes)
    requires FrameVerdict(state, data).Incomplete?
    ensures if state == Closed then data == [] else |data| < LargestFrame(state)
  {
  }

  /** And they can be just one byte short of it. */
  lemma WaitingCanBeThatLong(state: Status) returns (data: Bytes)
    requires state != Closed
    ensures FrameVerdict(state, data).Incomplete? && |data| == LargestFrame(state) - 1
  {
    match state
    case Challenge => data := [CMD_AUTH_LOGON_CHALLENGE, 0, 255, 255] + Zeros(65534);
    case LogonProof => data := [CMD_AUTH_LOGON_PROOF] + Zeros(73);
    case ReconnectProof => data := [CMD_AUTH_RECONNECT_PROOF] + Zeros(56);
    case Patch => data := [CMD_XFER_RESUME] + Zeros(7);
    case Authenticated => data := [CMD_REALM_LIST] + Zeros(3);
  }

  /** A challenge of any account is complete at 34 bytes plus its name, hence never
      longer than 289: announcing a body over 285 can only end in a rejection. */
  lemma ChallengeFrameSize(data: Bytes)
    requires FrameVerdict(Challenge, data).Complete?
    ensures BodySize(data) <= 285
    ensures FrameVerdict(Challenge, data).size == CHALLENGE_NAME_OFFSET + data[CHALLENGE_NAME_LENGTH_OFFSET] <= 289
    ensures data[CHALLENGE_NAME_LENGTH_OFFSET] >= 1
  {
  }
}
