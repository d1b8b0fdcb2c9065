# realmd: a verified model of the authentication server

realmd is the login server of a multi-version game server. It reads a byte stream from each
client, cuts it into frames, runs an SRP-6 logon or a reconnect over them, hands out the list of
realms the client may join, and streams patch archives to clients that are too old. This project
models that core in Dafny and proves what it is meant to guarantee, for every input and every
run.

`dafny verify dfyconfig.toml` checks everything.

## What is modelled

| file | part of the program |
|---|---|
| `Guard.dfy` | the framing guard: a verdict on the next frame before any handler may consume it |
| `AuthSession.dfy` | the session and what each handler does to it, as functions |
| `Outcomes.dfy` | what each handler answers, cause by cause, in the bytes of the protocol |
| `AuthStream.dfy` | the pending buffer and the dispatch loop as a whole-stream parser; chunking independence |
| `AuthRuns.dfy` | every run of one socket: chunks, passes, deadline checks and closes in any order |
| `Eligibility.dfy` | who gets past the challenge in every run, and with which level |
| `Deadlines.dfy` | when the sweep closes a socket, from its creation, timeout and state |
| `PendingLimit.dfy` | exactly when the way a stream is cut can show |
| `MidHandler.dfy` | handlers as sequences of operations, with a close from another thread at any point inside them |
| `LateExpiry.dfy` | the deadline's look and its close as separate steps, with anything in between |
| `Widths.dfy` | every hashed number fits its width in every run; transcripts of sockets |
| `AuthSocket.dfy` | the socket class with buffer, cursor and handlers, refined to the two files above |
| `ChallengeCodec.dfy` | the challenge packet a client writes against what the server reads |
| `Arith.dfy`, `Wire.dfy`, `Srp6.dfy` | modular powers, fixed-width numbers, the SRP-6 arithmetic and its transcripts |
| `HonestLogin.dfy`, `HonestSession.dfy`, `HonestReconnect.dfy` | the honest client of section 2.6 of RFC 5054 (k = 3), and the honest reconnect, against the handlers, from bytes to bytes |
| `BuildPolicy.dfy`, `RealmIndex.dfy`, `RealmPacket.dfy`, `RealmDelivery.dfy` | supported builds, the realm snapshot and its index, the two packet layouts, and the way from table rows to what a client decodes |
| `RealmReplies.dfy` | one socket and the realm list together, in every interleaving with refreshers |
| `RealmRefresh.dfy` | snapshot publication, views and the refresh gate under every interleaving |
| `PatchStream.dfy` | the patch archive's cursor, the chunking loop, and the client that resumes |
| `PatchVisits.dfy` | the client that is to be patched, from its logons to the last byte of the archive |
| `AuthServer.dfy` | many sockets: process-wide counters and the deadline sweep |

The code that changes things in place is modelled by classes and loops (`AuthSocket`,
`AuthServer`, `PatchArtifact`, `RealmSnapshot`, `RealmSnapshotStore`, `RealmRefreshGate`,
`RealmList`, the key and hash loops of the proof handler), each method tied to a function; the
theorems are about those functions and about runs made of them.

Assumptions and conventions:

- BigNumber is a natural number. Its source is not part of this model; `AsByteArray(w)` is taken
  to give the low `w` bytes, least significant first, and `SetBinary` to be its inverse.
- SHA-1 is a parameter, any function to 20 bytes. Nothing is claimed about its strength.
- The n-th handler call of a socket receives the n-th element of an oracle: database answers,
  random bytes, the patch archive found, the realm view. The theorems hold for every oracle.
- `eStatus` and `StreamState` correspond one to one and are one type, `Status`. The session
  members are grouped in the record `session`. What the socket does to the outside is recorded in
  `trace` (frames dispatched, bytes sent, database publications, transfers started), `commands`,
  `counted` (additions to the authenticated counter) and `closers` (calls of the closer).
- The handlers' names for numbers are kept: N and g are `PRIME` and `GENERATOR`; A, B, u, S, K, M
  as in the source.
- SEC_ADMINISTRATOR is taken as 3 and the flag values as the error text of
  Realm/RealmList.cpp:243 gives them, because their headers are not in the repository.

Where the code and its comments or documentation differ, the model follows the code:

- Auth/AuthSocket.cpp:1429 says further commands are ignored once a transfer is under way; any
  further byte closes the connection (`AuthStream.NextByteCloses`).
- Realm/RealmList.h:79-82 lets the first build in the text decide a realm's version; the smallest
  decides (`RealmIndex.SmallestBuildDecides`). The documented rule holds exactly when the smallest
  build can be listed and has the first one's version (`RealmIndex.FirstBuildDecidesIff`); it fails
  for its own example, 8606 6141, as for every two supported builds of different versions with
  the larger first (`RealmIndex.LargerFirstBelongsToSecond`, `RealmIndex.DocumentedExample`).
- A reconnect whose random nonce or stored key happens to be zero is refused although the proof is
  right; it succeeds exactly when neither is zero and the publication succeeds
  (`HonestReconnect.HonestReconnectAuthenticatesIff`).
- The pending limit is the one place where chunking can be seen. A call amounts to the
  whole-stream parse exactly when its chunk fits or is rejected anyway
  (`PendingLimit.OnDataIsWholeIff`), a sequence of calls exactly when every chunk does
  (`PendingLimit.ChunkingInvisibleIff`), and by length alone streams of up to n bytes may be cut in
  every way exactly when n is at most 65539 (`PendingLimit.CutAnyWayIff`).
- A session key wider than 40 bytes, which only the database can supply on a reconnect, is hashed
  as its remainder; two reconnect inputs coincide exactly when the keys agree modulo 40 bytes
  (`Widths.ReconnectTranscriptsSameIff`).
- The sweep spares a socket by more than its status: while a patch transfer is under way the status
  is CLOSED and the deadline is off. A check closes an open socket exactly when a positive timeout
  has run out since its creation, the status is neither AUTHED nor PATCH, and no transfer is under
  way (`Deadlines.DeadlineClosesIff`, `Deadlines.TransferIsSpared`).
- A realm name that occurs in two listed rows is listed twice (`RealmIndex.EachRealmOnceIff`,
  `RealmIndex.RepeatedNameListedTwice`).
- `Initialize` builds outside the gate: order of publication is guaranteed exactly for programs
  that call it at most once, as Main.cpp:450 does (`RealmRefresh.InOrderIffInitializedOnce`).
- `ExpireAuthentication` checks and closes without a lock. With handlers as atomic steps every
  guarantee of a run survives that (`LateExpiry.RaceIsARun`), but the close hits an authenticated
  socket exactly when the check saw an active deadline past and a pass authenticated the socket
  since (`LateExpiry.LateCloseHitsIff`), which can happen to every honest logon
  (`LateExpiry.HonestLogonCanBeHit`).
- A close that lands inside a handler loses some of the handler's sends and nothing else
  (`MidHandler.InterruptedIsTwin`). What a run guarantees about realm lists, transfers, commands,
  counters, artifact, deadline and closer holds there too (`MidHandler.FineRealmListSafety`,
  `MidHandler.FineTransferSafety`, `MidHandler.FineCommandLanguage`); what does not is the success
  reply after a publication (`MidHandler.HonestLogonCanBeSilent`).

## Model

| member | source | states |
|---|---|---|
| `AuthStream.ChunkingIndependence` | Auth/AuthSocket.cpp:340-459 | two ways of cutting one byte stream that stay within the pending limit end with the same frames dispatched, bytes sent, session, closed flag and leftover |
| `AuthStream.ChunksAreOneStream` | Auth/AuthSocket.cpp:340-459 | any such chunking ends where a single pass of the whole-stream parser over the concatenation ends |
| `AuthStream.DrainAppend` | Auth/AuthSocket.cpp:380-445 | draining a prefix and then its leftover with the rest is draining the whole |
| `AuthStream.IterateAppend` | Auth/AuthSocket.cpp:380-445 | a pass that decides anything decides the same with more input behind it, and consumes at least a byte |
| `AuthStream.SettledIsShort` | Auth/AuthSocket.cpp:447-456 | between calls an open socket holds less than the largest frame of its status, nothing in CLOSED |
| `AuthStream.ByteAtATimeNeverTrips` | Auth/AuthSocket.cpp:347-354 | input that arrives in chunks of at most one byte never meets the pending limit |
| `AuthStream.ShortStreamNeverTrips` | Auth/AuthProtocolGuard.cpp:199-203 | leftover and stream together within the limit: no way of cutting it meets the limit |
| `PendingLimit.OnDataIsWholeIff` | Auth/AuthSocket.cpp:347-362 | a call on a reachable open socket amounts to the whole-stream parse of leftover and chunk exactly when the chunk fits or the bytes are rejected anyway |
| `PendingLimit.ChunkingInvisibleIff` | Auth/AuthSocket.cpp:340-459 | a sequence of calls ends like one pass over the concatenation exactly when each of its chunks fits or is rejected anyway |
| `PendingLimit.CutAnyWayIff` | Auth/AuthProtocolGuard.cpp:199-203 | streams of up to n bytes mean the same however they are cut exactly when n is within the limit |
| `Guard.CanAppendIff` | Auth/AuthProtocolGuard.cpp:199-203 | input is taken exactly up to 65539 pending bytes |
| `PendingLimit.OverLimitIsDecided` | Auth/AuthSocket.cpp:347-354 | input over the limit is never an incomplete frame |
| `AuthStream.BytewiseIsWhole` | Auth/AuthSocket.cpp:340-459 | so every stream, of any length, has the meaning of its whole-stream parse |
| `AuthStream.NextByteCloses` | Auth/AuthSocket.cpp:1429-1431 | in status CLOSED an open socket stays open until the next byte, which closes it undispatched |
| `AuthRuns.OnDataIsARun` | Auth/AuthSocket.cpp:340-459 | a call of onData is one of the interleavings the run theorems quantify over |
| `AuthRuns.RunKeeps` | Auth/AuthSocket.cpp:340-459 | every reachable socket satisfies the invariant tying status, trace, commands, counters, artifact, deadline and closer |
| `AuthRuns.StepKeeps` | Auth/AuthSocket.cpp:274-304 | chunk, pass, deadline check with its close, transport close, and a close at any time after an earlier check each keep the invariant |
| `AuthRuns.DispatchKeeps` | Auth/AuthSocket.cpp:399-434 | dispatching any complete frame keeps the invariant |
| `AuthRuns.RealmListSafety` | Auth/AuthSocket.cpp:1188-1226 | every realm-list reply of every run follows exactly one matching proof and exactly one publication for the challenged account, over the values fixed at the challenge; on the logon path the build is supported and not selected for patching |
| `Eligibility.OnlyEligible` | Auth/AuthSocket.cpp:616-758 | in every run a success reply to a challenge or the publication of a logon's key means: address not banned, account found, not locked to another address, not banned |
| `Eligibility.RealmListOfEligible` | Auth/AuthSocket.cpp:1188-1226 | and so does every realm list of a socket that logged on |
| `Eligibility.RunLevels` | Auth/AuthSocket.cpp:748-749 | in every run a logon has the account's level up to 3 and a reconnect level 0 |
| `Outcomes.RefusalIs` | Auth/AuthSocket.cpp:616-678 | exactly the eligible are not refused; the others get the code of the first cause that applies, the locked one by build |
| `Outcomes.RefusedChallenge` | Auth/AuthSocket.cpp:616-768 | a refused challenge is answered by 00 00 and its code and leaves the status CLOSED and the socket open |
| `Outcomes.AcceptedChallenge` | Auth/AuthSocket.cpp:748-758 | an accepted one sets level, locale and status |
| `Outcomes.LocaleIs` | Auth/ClientLocale.cpp:29-44 | the locale is the field reversed if that is two small letters and two capitals |
| `Outcomes.LockedCode` | Auth/AuthResultPolicy.cpp:11-20 | 0x10 for the supported builds after vanilla, 0x08 for every other |
| `Outcomes.KeysAre` | Auth/AuthSocket.cpp:685-704 | a stored verifier and salt are used as they are; B is 3v + 7^b mod N |
| `Outcomes.WrongProof` | Auth/AuthSocket.cpp:929-941 | a wrong proof is answered by four or two bytes by build, and nothing else happens |
| `Outcomes.MatchNotLetIn` | Auth/AuthSocket.cpp:873-911 | a matching proof that is not let in is offered the archive, told 00 00 09, or dropped unpublished |
| `Outcomes.ProofReplyBytes` | Auth/AuthSocket.cpp:500-540 | the success reply is 26 bytes for the 1.12 builds and 32 with the account flags for all others |
| `Outcomes.XferInitBytes` | Auth/AuthSocket.cpp:1465-1473 | the announcement carries opcode, name, size in eight bytes and digest, in this order |
| `Outcomes.ReconnectChallenged` | Auth/AuthSocket.cpp:1043-1067 | an unknown account is dropped; a known one is sent the nonce and sixteen zeros and keeps the database's key |
| `Outcomes.ReconnectProofReplyBytes` | Auth/AuthSocket.cpp:1117-1127 | 03 00, with two more zeros after build 6141 |
| `Outcomes.PatchCommands` | Auth/AuthSocket.cpp:1387-1450 | accept starts at byte 0, resume at the offset asked for if it is inside the archive, cancel closes |
| `Outcomes.RealmListAnswered` | Auth/AuthSocket.cpp:1200-1225 | opcode, size and body, unless the account is gone, which closes |
| `AuthRuns.TransferSafety` | Auth/AuthSocket.cpp:1421-1450 | every transfer follows a matching proof of a client to be patched and the offer of that archive, starts inside it, and is the socket's last event |
| `AuthRuns.CommandLanguage` | Auth/AuthSocket.cpp:364-374 | the dispatched commands are at most one challenge, then at most one proof, then realm-list requests or one transfer command; an artifact is held exactly in PATCH; an active deadline means an open socket neither AUTHED nor PATCH; the closer is called at most once |
| `AuthRuns.DispatchProgress` | Auth/AuthSocket.cpp:399-434 | a dispatched frame moves the status strictly up its rank, except that a realm-list request or a cancel leaves it |
| `AuthRuns.StepProgress` | Auth/AuthSocket.cpp:340-459 | no step lowers the status, revives the deadline or rewrites the past, and none touches a closed socket |
| `PendingLimit.OversizedChunkIsVisible` | Auth/AuthSocket.cpp:347-354 | a first chunk above the limit closes the socket undispatched, while the same bytes one by one dispatch their frame |
| `MidHandler.OpsAreHandler` | Auth/AuthSocket.cpp:543-1450 | undisturbed, the operations of each handler have exactly the handler's outcome |
| `MidHandler.InterruptedIsTwin` | Auth/AuthSocket.cpp:258-284 | closed after any operation of any sequence, the socket is the undisturbed one, closed through the closer once, with no event the other lacks; without sends not even one is missing |
| `MidHandler.FineRunKeeps` | Auth/AuthSocket.cpp:340-459 | in every run in which any pass may be interrupted anywhere, the invariant holds, or the socket was silenced before anything that needs safety |
| `MidHandler.FineRealmListSafety` | Auth/AuthSocket.cpp:1188-1226 | every realm-list reply of such a run has its one proof and one publication before it |
| `MidHandler.FineTransferSafety` | Auth/AuthSocket.cpp:1421-1450 | every transfer of such a run has its proof and offer before it and is last |
| `MidHandler.FineCommandLanguage` | Auth/AuthSocket.cpp:364-374 | commands, counters, artifact, deadline and closer keep their discipline in such a run |
| `MidHandler.HonestLogonCanBeSilent` | Auth/AuthSocket.cpp:892-927 | closed between publication and reply, every honest logon ends authenticated and published with the success reply missing |
| `Deadlines.DeadlineClosesIff` | Auth/AuthProtocolGuard.cpp:205-213 | in every run of a socket created at `start` a deadline check closes it exactly when the timeout is positive and has run out, the status is neither AUTHED nor PATCH and no transfer is under way |
| `Deadlines.RunOnTime` | Auth/AuthProtocolGuard.cpp:205-223 | in every run the deadline is creation plus timeout, and active exactly while a timed socket is unproven |
| `Deadlines.TransferIsSpared` | Auth/AuthSocket.cpp:1429-1450 | a socket with a transfer under way has status CLOSED and is closed by no check |
| `LateExpiry.RaceIsARun` | Auth/AuthSocket.cpp:292-304 | with look and close separated, the socket still goes through one of the runs the theorems quantify over |
| `LateExpiry.RaceKeeps` | Auth/AuthSocket.cpp:292-304 | so the invariant holds in every such race |
| `LateExpiry.RaceRealmListSafety` | Auth/AuthSocket.cpp:1188-1226 | and every realm-list reply has its one proof and one publication before it |
| `LateExpiry.RaceCommandLanguage` | Auth/AuthSocket.cpp:364-374 | and commands, counters, artifact, deadline and closer keep their discipline |
| `LateExpiry.LateCloseHitsIff` | Auth/AuthSocket.cpp:292-304 | in every race the owed close hits an open authenticated socket exactly when it is still open, its look saw an active deadline past, and a pass authenticated the socket since |
| `LateExpiry.OverdueIff` | Auth/AuthSocket.cpp:295-298 | a close is owed exactly after such a look |
| `LateExpiry.HitCloses` | Auth/AuthSocket.cpp:274-284 | such a close closes it through the closer, once, with its status still AUTHED |
| `LateExpiry.HitsRightAfterProof` | Auth/AuthSocket.cpp:924-927 | a close owed right after the authenticating pass always hits |
| `LateExpiry.AuthenticatedPassIsOpen` | Auth/AuthSocket.cpp:924-927 | a pass that authenticates was made on an open socket and leaves it open |
| `LateExpiry.HonestLogonCanBeHit` | Auth/AuthSocket.cpp:292-304 | for every honest logon that would be let in, under any timeout, a look between the proof's arrival and its pass leads to such a hit |
| `LateExpiry.AnyoneCanBeHit` | Auth/AuthSocket.cpp:292-304 | there are such logons: one for every challenge packet of a supported build, hash, password digest and ephemeral secret |
| `AuthSocketClass.AuthSocket.constructor` | Auth/AuthSocket.cpp:209-220 | a new socket is the start of every run, with the deadline of its creation |
| `AuthSocketClass.AuthSocket.OnData` | Auth/AuthSocket.cpp:340-459 | onData is the stream function; cursor inside the buffer, buffer within its limit, leftover below the largest frame of the status |
| `AuthSocketClass.AuthSocket.LoopPass` | Auth/AuthSocket.cpp:380-445 | one pass of the loop is one step of the stream |
| `AuthSocketClass.AuthSocket.DispatchFrame` | Auth/AuthSocket.cpp:399-434 | after a complete verdict the handler that succeeds has consumed exactly the frame; the mismatch branches change nothing because they are never taken |
| `AuthSocketClass.AuthSocket.FindEntry` | Auth/AuthSocket.cpp:401-418 | the table lookup succeeds, with the status the guard demanded |
| `AuthSocketClass.TableAgreesWithGuard` | Auth/AuthSocket.cpp:364-374 | each command the guard passes has one table entry, with the current status |
| `AuthSocketClass.AuthSocket.CallHandler` | Auth/AuthSocket.cpp:364-374 | every handler, called on a guarded frame, has exactly the effect of the frame's function |
| `AuthSocketClass.AuthSocket.Recv` | Auth/AuthSocket.cpp:233-256 | reads and skips exactly `len` bytes, or nothing when fewer are there |
| `AuthSocketClass.AuthSocket.SendBytes` | Auth/AuthSocket.cpp:258-272 | nothing is sent on a closed socket, which is reported; nothing to send is success |
| `AuthSocketClass.AuthSocket.CloseConnection` | Auth/AuthSocket.cpp:274-284 | ends the deadline, and only the first close calls the closer |
| `AuthSocketClass.AuthSocket.OnClose` | Auth/AuthSocket.cpp:286-290 | the transport's own close ends the deadline and calls no closer |
| `AuthSocketClass.AuthSocket.ExpireAuthentication` | Auth/AuthSocket.cpp:292-304 | closes exactly when the deadline is active and past; in terms of the creation, when a positive timeout has run out on an unproven socket |
| `AuthSocketClass.AuthSocket.ReadChallenge` | Auth/AuthSocket.cpp:546-600 | on a guarded challenge the short-read and length branches are unreachable, and the identity is taken from the frame |
| `AuthSocketClass.AuthSocket.SetVSFields` | Auth/AuthSocket.cpp:462-490 | the salt is new and the verifier is that of the stored hash under it |
| `AuthSocketClass.AuthSocket.ChooseKeys` | Auth/AuthSocket.cpp:685-704 | salt and verifier are the stored ones or made now; B belongs to them |
| `AuthSocketClass.AuthSocket.HandleLogonChallenge` | Auth/AuthSocket.cpp:543-770 | refusals and acceptance in the source's order, consuming exactly the frame |
| `AuthSocketClass.AuthSocket.HandleLogonProof` | Auth/AuthSocket.cpp:773-983 | the zero check, the proof comparison and the four outcomes, consuming exactly the frame |
| `AuthSocketClass.AuthSocket.ComputeProof` | Auth/AuthSocket.cpp:796-863 | u, S, K, M and the reply hash are the SRP-6 functions of A and the session |
| `AuthSocketClass.InterleavedKey` | Auth/AuthSocket.cpp:804-830 | the four array loops put the hash of the bytes at even places at even places and that of the others at odd places |
| `Srp6.InterleaveAt` | Auth/AuthSocket.cpp:808-829 | for all bytes and places: K[2i] is byte i of the hash of S[0], S[2], ..., K[2i+1] that of S[1], S[3], ... |
| `Srp6.InterleaveIsStandard` | Auth/AuthSocket.cpp:804-830 | this is the interleaved hash of section 3.1 of RFC 2945 as a client computes it, without the removal of leading zeros |
| `Srp6.GroupDigestIsHash` | Auth/AuthSocket.cpp:834-846 | the exclusive or of H(N) and H(g) has exactly the bits set in one of them |
| `Srp6.WideStoredIsZero` | Auth/AuthSocket.cpp:473-477 | a stored hash too wide for a digest counts as zeros |
| `Wire.ByteAt` | Auth/AuthSocket.cpp:102-105 | byte i of a fixed-width number counts the 256^i |
| `AuthSocketClass.XorInPlace` | Auth/AuthSocket.cpp:834-844 | the in-place loop computes H(N) xor H(g) |
| `AuthSocketClass.AuthSocket.AcceptProof` | Auth/AuthSocket.cpp:871-928 | patch, refuse the build, or publish and authenticate |
| `AuthSocketClass.AuthSocket.OfferPatchFrom` | Auth/AuthSocket.cpp:1452-1489 | the archive is kept, announced with its size and digest, and the status is PATCH; without an archive the version is refused |
| `AuthSocketClass.AuthSocket.HandleReconnectChallenge` | Auth/AuthSocket.cpp:986-1068 | an unknown account closes; otherwise key and nonce are set and the nonce sent |
| `AuthSocketClass.AuthSocket.HandleReconnectProof` | Auth/AuthSocket.cpp:1071-1142 | missing values fail, a wrong hash or a failed publication closes, the rest authenticates |
| `AuthSocketClass.AuthSocket.HandleRealmList` | Auth/AuthSocket.cpp:1188-1226 | a missing account closes; otherwise the packet of the view is sent |
| `AuthSocketClass.AuthSocket.StartTransfer` | Auth/AuthSocket.cpp:1421-1450 | the artifact is handed over once, at an accepted offset, else the socket closes |
| `AuthSocketClass.AuthSocket.HandleXferAccept` | Auth/AuthSocket.cpp:1387-1392 | transfer from offset 0, one byte consumed |
| `AuthSocketClass.AuthSocket.HandleXferResume` | Auth/AuthSocket.cpp:1395-1410 | transfer from the little-endian offset of the frame, nine bytes consumed |
| `AuthSocketClass.AuthSocket.HandleXferCancel` | Auth/AuthSocket.cpp:1413-1419 | closes, one byte consumed |
| `Guard.InspectFrame` | Auth/AuthProtocolGuard.cpp:40-197 | the switch and its scan loop complete exactly the frames of the protocol and reject exactly the bytes below, for their reasons |
| `Guard.CompleteIff` | Auth/AuthProtocolGuard.cpp:40-197 | a verdict is Complete(n) exactly when the first n bytes are a frame of the status: for a challenge matching lengths and no NUL in the name, for a proof a zero key count |
| `Guard.RejectIff` | Auth/AuthProtocolGuard.cpp:40-197 | each reason is given exactly for its bytes: unknown command, command of another status, contradictory lengths or a NUL in the name, non-zero key count |
| `Guard.VerdictStable` | Auth/AuthProtocolGuard.cpp:40-197 | Complete keeps its size and Reject its reason under any extension; an announced size is exact |
| `Guard.CompleteIsLocal` | Auth/AuthProtocolGuard.cpp:40-197 | a complete frame is complete on its own |
| `Guard.WaitingIsShort` | Auth/AuthProtocolGuard.cpp:40-197 | waiting input is shorter than the largest frame of its status |
| `Guard.WaitingCanBeThatLong` | Auth/AuthProtocolGuard.cpp:40-197 | and can be one byte short of it |
| `Guard.ChallengeFrameSize` | Auth/AuthProtocolGuard.cpp:56-104 | no challenge with a body over 285 bytes is ever complete |
| `ChallengeCodec.ChallengeRoundTrip` | Auth/AuthSocket.cpp:115-132 | every sendable packet is complete at exactly its length, and name, build, OS field and locale field are recovered |
| `ChallengeCodec.OsTagRecovered` | Auth/AuthSocket.cpp:595-603 | an OS tag of up to four bytes arrives whole; a full one needs a locale field that starts with NUL |
| `ChallengeCodec.OsTagStored` | Auth/AuthSocket.cpp:595-603 | after either challenge the session holds the tag reversed |
| `ChallengeCodec.OsRefusedIff` | Auth/AuthSocket.cpp:595-600 | the OS field is refused exactly when it and the first locale byte hold no NUL |
| `Srp6.SecretsAgree` | Auth/AuthSocket.cpp:785-802 | for every group and all a, b, u, x the server's secret is the client's (B - 3g^x)^(a+ux) mod N |
| `Srp6.ServerSecretIsPower` | Auth/AuthSocket.cpp:802-802 | the server's product form is g^((a+ux)b) mod N |
| `Srp6.Unblinded` | Auth/AuthSocket.cpp:702-704 | B - 3g^x leaves g^b modulo N |
| `Srp6.GeneratorPowersAreNonZero` | Auth/AuthSocket.cpp:217-218 | no power of g is a multiple of N, so an honest A passes the zero check |
| `Srp6.PrimeFits` | Auth/AuthSocket.cpp:97-97 | N fits the 32-byte field |
| `Srp6.StoredDigestRestored` | Auth/AuthSocket.cpp:466-479 | the digest comes back from the stored hexadecimal hash, leading zero bytes included |
| `Srp6.ProofTranscriptInjective` | Auth/AuthSocket.cpp:854-863 | distinct field tuples within their widths give distinct M1 inputs |
| `Srp6.ReconnectTranscriptInjective` | Auth/AuthSocket.cpp:1088-1097 | the reconnect input determines login, nonces and key although the login has no fixed length |
| `Srp6.ReconnectTranscriptSameIff` | Auth/AuthSocket.cpp:1088-1097 | for numbers of any size two reconnect inputs coincide exactly when the logins do and the numbers agree modulo their widths |
| `Widths.ServerNumbersFit` | Auth/AuthSocket.cpp:85-106 | in every run salt, B and nonce fit their widths, and the key too unless the socket's challenge was a reconnect; while a reconnect proof is awaited the key fits exactly when the database's does |
| `Widths.ProofFits` | Auth/AuthSocket.cpp:796-863 | for every proof frame K fits 40 bytes, M and H(N) xor H(g) 20, and A 32 |
| `Widths.LogonTranscriptsDiffer` | Auth/AuthSocket.cpp:854-863 | any two sockets of any two runs hash the same M1 input only with equal name hashes, salts, A, B and K |
| `Widths.ReconnectTranscriptsSameIff` | Auth/AuthSocket.cpp:1088-1097 | any two sockets hash the same reconnect input exactly when names and nonces are equal and keys agree modulo 40 bytes; keys that fit are then equal |
| `Srp6.LastFieldInjective` | Auth/AuthSocket.cpp:102-105 | a fixed-width field at the end of a transcript can be read back |
| `Wire.FromToLE` | Auth/AuthSocket.cpp:102-105 | decoding undoes encoding for every number within the width |
| `Wire.ToFromLE` | Auth/AuthSocket.cpp:102-105 | encoding undoes decoding, zero top bytes included |
| `HonestLogin.SameSecret` | Auth/AuthSocket.cpp:785-802 | from the bytes of the challenge reply the client computes the handler's S |
| `HonestLogin.SameKey` | Auth/AuthSocket.cpp:804-830 | and the handler's K, as number and as 40 bytes |
| `HonestLogin.SameProof` | Auth/AuthSocket.cpp:832-920 | and M1 and M2, whichever of their bytes are zero |
| `HonestLogin.ReplyIsReadBack` | Auth/AuthSocket.cpp:711-726 | the client reads B, g, N and the salt back from the reply |
| `HonestLogin.HonestProofMatches` | Auth/AuthSocket.cpp:791-869 | an honest proof frame is complete, is not zero, and matches |
| `HonestLogin.HonestLogonVerifies` | Auth/AuthSocket.cpp:773-928 | for every digest, salt, stored or new verifier and ephemeral values, an honest client reaches the accepting branch with the key and M2 it expects |
| `HonestLogin.AcceptedIsAuthenticated` | Auth/AuthSocket.cpp:871-928 | the accepting branch authenticates, after publishing the key, with M2 in the reply |
| `HonestLogin.HonestReconnectIff` | Auth/AuthSocket.cpp:1071-1099 | an honest reconnect proof passes exactly when nonce and key are not zero |
| `HonestReconnect.HonestReconnectAuthenticatesIff` | Auth/AuthSocket.cpp:986-1142 | reconnect challenge and honest proof, in any chunks, end authenticated exactly when nonce and key are not zero and the publication succeeds, with the whole trace known; otherwise closed, with nothing published |
| `HonestSession.HonestSessionAuthenticates` | Auth/AuthSocket.cpp:340-928 | challenge and honest proof in any chunks leave the socket authenticated with nothing pending, and the whole trace is known |
| `RealmIndex.RealmSnapshot.UpdateRealm` | Realm/RealmList.cpp:134-199 | entering a row turns the index of the rows so far into the index with that row |
| `RealmIndex.RealmSnapshot.AddRealmToBuildList` | Realm/RealmList.cpp:125-131 | appends to the list of the smallest build's version only |
| `RealmIndex.BuildSnapshot` | Realm/RealmList.cpp:209-259 | the rebuilt snapshot is the index of the rows, whatever the rows |
| `RealmIndex.IndexIsFilter` | Realm/RealmList.cpp:125-199 | with distinct names each version list is, in row order, the rows whose smallest build maps to it with non-zero low 16 bits |
| `RealmIndex.ListedRowOf` | Realm/RealmList.cpp:125-131 | every list entry is a realm of the same snapshot, put there by a listed row |
| `RealmIndex.EachRealmOnceIff` | Realm/RealmList.cpp:134-199 | each realm is on at most one list, once, exactly when no repeated name is listed twice |
| `RealmIndex.DistinctNamesListedOnce` | Realm/RealmList.cpp:134-199 | distinct names are listed once |
| `RealmIndex.RepeatedNameListedTwice` | Realm/RealmList.cpp:150-175 | a repeated row lists its realm twice |
| `RealmIndex.SmallestBuildDecides` | Realm/RealmSnapshot.h:60-60 | wherever in the column the smallest build stands, it decides the list, or that there is none |
| `RealmIndex.FirstBuildDecidesIff` | Realm/RealmList.h:79-82 | the documented rule holds exactly when the smallest build can be listed and has the first one's version |
| `RealmIndex.LargerFirstBelongsToSecond` | Realm/RealmList.h:79-82 | two supported builds, the larger first, put a realm on the second one's list |
| `RealmIndex.DocumentedExample` | Realm/ClientBuildPolicy.cpp:22-23 | the column "8606 6141", whose first build is a TBC one, puts its realm on the vanilla list |
| `RealmIndex.InsertBuilds` | Realm/RealmList.cpp:163-167 | the loop adds exactly the builds of the column |
| `RealmIndex.VisibleIff` | Realm/RealmList.cpp:105-114 | a realm is in a client's view exactly when its smallest build and the client's build share a version |
| `RealmIndex.BuildsSoFar` | Realm/RealmList.cpp:163-167 | a realm's builds are those of all rows with its name so far |
| `RealmIndex.AccumulatedIff` | Realm/RealmList.cpp:150-167 | which are exactly the builds named in some row with that name |
| `RealmIndex.RealmOfLast` | Realm/RealmList.cpp:149-198 | everything else of a realm is that of the last row with its name |
| `RealmIndex.FlagKeptIff` | Realm/RealmList.cpp:241-245 | exactly the four permitted flags survive |
| `BuildPolicy.FindIn` | Realm/ClientBuildPolicy.cpp:29-40 | the search returns an entry for the build, or there is none |
| `BuildPolicy.SupportedBuild` | Realm/ClientBuildPolicy.cpp:12-46 | every table entry is the one found for its own build |
| `BuildPolicy.SupportedIff` | Realm/ClientBuildPolicy.cpp:12-46 | exactly the twelve builds are supported, and exactly the nine later ones are not vanilla |
| `BuildPolicy.PatchDecision` | Auth/PatchPolicy.h:29-33 | switched off nobody is patched; switched on the unsupported and the forced are |
| `RealmPacket.LoadRealmlist` | Auth/AuthSocket.cpp:1228-1384 | the loop prints the body of the entries of the view |
| `RealmPacket.LayoutIs` | Auth/AuthSocket.cpp:1235-1312 | exactly the builds 5875, 6005 and 6141 get the old layout |
| `RealmPacket.BodyBytes` | Auth/AuthSocket.cpp:1241-1380 | four zeros, a 1-byte count and 02 00 at the end for those builds, a 2-byte count and 10 00 for all others |
| `RealmPacket.SuffixTells` | Auth/AuthSocket.cpp:1271-1278 | the version text has at most 19 bytes and reads back as the three numbers unless it fills them |
| `RealmPacket.ReplyRoundTrip` | Auth/AuthSocket.cpp:1219-1384 | a client's decoder recovers every entry in order exactly when count, size and strings fit their fields |
| `RealmPacket.EntryRoundTrip` | Auth/AuthSocket.cpp:1286-1377 | one entry of either layout, with its optional build bytes, is read back and nothing else consumed |
| `RealmPacket.EntriesAreWellFormed` | Auth/AuthSocket.cpp:1371-1377 | the build bytes are sent exactly when the sent flags carry SPECIFYBUILD |
| `RealmPacket.OfflineIff` | Auth/AuthSocket.cpp:1281-1351 | OFFLINE is sent exactly for the stored flag, a build mismatch or, to 1.x clients, the security rule |
| `RealmPacket.ClientSeesRealms` | Auth/AuthSocket.cpp:1219-1384 | through the bytes of the packet the client sees the realms of the view, one entry each, in order, each with its flags, lock, version text or version bytes and build, address, population, characters and timezone |
| `RealmPacket.InfoShownIs` | Auth/AuthSocket.cpp:1261-1267 | the version named is the table's for the client's own build where the realm takes it and it is supported, else that of the realm's smallest, or zeros |
| `RealmDelivery.ClientSeesRows` | Auth/AuthSocket.cpp:1228-1384 | with distinct names a client decodes exactly the table rows of its version, in row order, each showing its row |
| `RealmDelivery.ViewIsKeptRows` | Realm/RealmList.cpp:111-114 | the view of a version is its rows' realms, in row order |
| `RealmDelivery.RealmOfDistinct` | Realm/RealmList.cpp:134-199 | a row with a name of its own is its realm, field by field |
| `RealmReplies.ReplyIsOneGeneration` | Auth/AuthSocket.cpp:1212-1230 | in every interleaving of a socket with refreshers each realm-list reply has its proof and publication before it and is made of all the rows of one query |
| `RealmReplies.ReplyDecodesToRows` | Auth/AuthSocket.cpp:1219-1384 | such a reply decodes to exactly that query's rows of the client's version, in row order |
| `RealmReplies.ClaimsIgnoreView` | Auth/AuthSocket.cpp:773-928 | what is claimed about challenges and proofs does not depend on realm views |
| `RealmRefresh.ViewIsOneGeneration` | Realm/RealmSnapshot.h:114-140 | in every interleaving a view shows the index of all rows of one query, and its entries are realms of that snapshot |
| `RealmRefresh.ViewIsRetained` | Realm/RealmSnapshot.h:114-140 | whatever happens later, a view goes on showing the same |
| `RealmRefresh.OneBuildAtATime` | Realm/RealmList.cpp:117-122 | with one Initialize, at most one build runs, an earlier-started build never replaces a later one, and readers never go back |
| `RealmRefresh.InOrderIffInitializedOnce` | Realm/RealmList.cpp:117-122 | that order is guaranteed exactly for programs that call Initialize at most once |
| `RealmRefresh.SecondInitializeCanOverwrite` | Realm/RealmList.cpp:117-122 | two Initialize calls can publish the older build last |
| `RealmRefresh.RefreshesAreSpaced` | Realm/RealmSnapshot.h:153-165 | between resets, the j-th and i-th admissions in lock order read clocks at least j-i intervals apart, even for a clock that runs backwards |
| `RealmRefresh.RunKeeps` | Realm/RealmSnapshot.h:87-171 | everything published or viewed is complete, and the mutex is held exactly by the refreshing thread |
| `RealmRefresh.RealmRefreshGate.Enter` | Realm/RealmSnapshot.h:153-165 | admits exactly when the lock is free, refreshing is on and due, and moves the due time |
| `RealmRefresh.AttemptAdmittedIff` | Realm/RealmSnapshot.h:153-165 | a free thread's attempt is admitted exactly when the mutex is free, refreshing is on and due, and then its build starts |
| `RealmRefresh.RowIsEntered` | Realm/RealmList.cpp:209-259 | a build enters the next row of its own query into its own snapshot and touches no other |
| `RealmRefresh.CompleteIsPublished` | Realm/RealmSnapshot.h:103-108 | a complete build becomes the current snapshot, with all its rows |
| `RealmRefresh.PublishedFinishes` | Realm/RealmSnapshot.h:146-165 | a refresh ends by giving back the mutex, Initialize by making a refresh due |
| `RealmRefresh.ReaderSeesCurrent` | Realm/RealmList.cpp:111-114 | a view shows the current snapshot's list of the client's version |
| `RealmRefresh.StepSpaced` | Realm/RealmSnapshot.h:146-165 | admissions, releases and resets keep the admissions of each epoch an interval per admission apart, and the current epoch's that far before the due time |
| `RealmRefresh.StepComplete` | Realm/RealmSnapshot.h:96-108 | publishing and everything else keeps the published snapshot and every view complete, and no view is lost |
| `RealmRefresh.RealmListView.Names` | Realm/RealmSnapshot.h:131-132 | iterating a view gives the version list of its snapshot's rows |
| `RealmRefresh.RealmList.Initialize` | Realm/RealmList.cpp:117-122 | publishes the index of the rows and opens the gate |
| `RealmRefresh.RealmList.UpdateIfNeed` | Realm/RealmList.cpp:201-207 | a due refresh publishes the index of its rows in a new snapshot, any other call changes nothing |
| `RealmRefresh.RealmList.GetRealmsForBuild` | Realm/RealmList.cpp:111-114 | the view is of the current snapshot, for the build's version |
| `RealmRefresh.RealmList.ReadAcrossRefresh` | Tests/RealmSnapshotTests.cpp:39-53 | a view taken before a refresh shows the old rows after it, a new one the new rows |
| `PatchStream.PatchArtifact.Seek` | Auth/PatchArtifact.cpp:115-127 | accepts exactly the offsets within the archive and the stream's range |
| `PatchStream.PatchArtifact.Read` | Auth/PatchArtifact.cpp:129-145 | copies the next bytes in place, touches nothing else, and a short read spoils the stream |
| `PatchStream.StartPatchTransfer` | Auth/PatchHandler.cpp:55-115 | the loop ends and has sent the packets of file[offset..] up to where the transport stopped it |
| `PatchStream.ReadPacket` | Auth/PatchHandler.cpp:91-102 | one round leaves exactly the framed next chunk in the reused buffer |
| `PatchStream.ReceivedPrefix` | Auth/PatchHandler.cpp:98-102 | cut anywhere, the decoded payloads are a prefix of the data; uncut, they are the data |
| `PatchStream.FullChunks` | Auth/PatchHandler.cpp:82-103 | every packet but the last carries 4096 bytes and the last is not empty |
| `PatchStream.DeliveredPrefix` | Auth/PatchHandler.cpp:84-89 | an interrupted transfer sends a prefix of the packets, an uninterrupted one all of them |
| `PatchStream.DeliveredUntil` | Auth/PatchHandler.cpp:84-89 | exactly the packets before the first round that is not writable are sent |
| `PatchStream.ResumedChain` | Auth/AuthSocket.cpp:1387-1450 | any chain of interrupted transfers, each resumed at the bytes held, only ever holds a prefix, is always accepted, and one uncut transfer completes the file |
| `PatchVisits.VisitStartsTransfer` | Auth/AuthSocket.cpp:1395-1489 | challenge, honest proof of a build to be patched and resume request, in any chunks, announce the archive and start its transfer at the offset asked for |
| `PatchVisits.ChainIsResumed` | Auth/AuthSocket.cpp:1395-1450 | what a client holds after a chain of such visits is what the chain of transfers alone gives it |
| `PatchVisits.ChainReassembles` | Auth/PatchHandler.cpp:60-103 | however many visits and wherever each is cut off, the client holds a prefix of the archive, and all of it after an uncut last transfer |
| `PatchVisits.ChainAnnounces` | Auth/AuthSocket.cpp:1465-1479 | every visit of a chain announced that archive and started inside it |
| `PatchVisits.AnnouncementTells` | Auth/AuthSocket.cpp:1465-1473 | equal announcements have equal sizes and digests |
| `PatchStream.WireSize` | Auth/PatchHandler.cpp:98-102 | a transfer costs three bytes per started chunk |
| `AuthServerModel.CountersAgree` | Auth/AuthSocket.cpp:209-229 | over every interleaving of creation, socket steps and destruction, the connection counter is the number of live sockets and the authenticated counter the number of those in AUTHED, without underflow |
| `AuthServerModel.AuthServer.Accept` | Auth/AuthServer.cpp:73-83 | a new socket joins the end of the list |
| `AuthServerModel.AuthServer.DropDead` | Auth/AuthServer.cpp:91-103 | erasing in place keeps exactly the live sockets, in order |
| `AuthServerModel.AuthServer.Update` | Auth/AuthServer.cpp:86-112 | keeps exactly the live sockets in order and closes exactly those whose timeout has run out since their creation while unproven; dead entries and buffers are untouched |
| `AuthServerModel.AuthServer.ExpireAll` | Auth/AuthServer.cpp:106-111 | applies the deadline once to each socket and to nothing else |
| `AuthServerModel.KeepAliveOrder` | Auth/AuthServer.cpp:91-103 | of two live sockets the first stays first |
| `AuthServerModel.ExpireIsDue` | Auth/AuthServer.cpp:106-111 | a check closes exactly a socket that is due by creation, timeout and state |
| `AuthServerModel.KeepAliveMembers` | Auth/AuthServer.cpp:91-103 | the swept list has exactly the live members, still without repetition |

## Left out

- AuthSocketClass.AuthSocket.ExpireAuthentication: one call is one step here; look and close as separate steps are in `LateExpiry`.
- AuthSocketClass.AuthSocket.constructor: the connection counter is in `AuthServerModel`, not in the object.
- AuthSocketClass.AuthSocket.SendBytes: does not model a missing sender; the transport that sets it is not part of this model.
- AuthSocketClass.AuthSocket.SetVSFields: does not model the database write of the new verifier and salt, whose result the code does not look at.
- AuthSocketClass.AuthSocket.HandleLogonProof: does not model the counting of wrong passwords and the bans, which only write to the database.
- AuthSocketClass.AuthSocket.HandleRealmList: the refresh and the view are the oracle's; `RealmReplies` joins them to the refresh protocol.
- RealmIndex.RealmSnapshot.UpdateRealm: does not model the addresses and the parsing of the build column.
- PatchStream.StartPatchTransfer: does not model read errors and the close that follows them.
- Handlers are atomic in `AuthRuns` and `LateExpiry`; `MidHandler` interrupts them by closes from other threads, not by the transport's own close, and not together with the deadline's flag of `LateExpiry`.
- PatchVisits.ChainReassembles: the archive stays the same between the visits of a chain; a client can only compare the announced size and digest.
- Sockets, the network server and flow control: sender and closer are trace events, `awaitWritable` is an arbitrary answer per round.
- SQL text, escaping (including that of `_os` before publication), asynchronous execution and wrong-password bans: only success or failure and the returned values remain.
- The hexadecimal columns are numbers already; a stored verifier is present when both columns have 64 digits.
- OpenSSL, SHA-1, MD5 and random generation: parameters and oracle values; no claim about cryptographic strength.
- `PatchArtifact::Open` and read errors: an archive is an immutable byte sequence with its digest, so the closing branch after `bad()` is not modelled.
- `PatchPolicy::Parse` and reading the configuration: the policy is a value.
- Splitting and parsing the build column: a row carries its build numbers in column order.
- `ResolveRealmAddress`, `GetAddressForClient` and the address text: an opaque string per shown realm.
- The float of the population level: four opaque bytes.
- The null-pointer branch of `InspectFrame` and the null checks of `send`, `Read` and `StartPatchTransfer`: sequences have no null.
- The 32-bit width of the counters: they are integers, proved never negative.
- `main`, services, signals, logging, the console title and build scripts.
