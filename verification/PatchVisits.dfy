/** A client that is to be patched, from its logon to the last byte of the archive: it connects
    as often as it takes, logs on, is offered the archive, and resumes at the bytes it holds. */
module PatchVisits {
  import opened Wire
  import opened Arith
  import opened Guard
  import opened Srp6
  import opened BuildPolicy
  import opened AuthSession
  import opened AuthStream
  import opened HonestLogin
  import opened HonestSession
  import opened PatchStream

  function ResumeFrame(offset: nat): (f: Bytes)
    ensures |f| == XFER_RESUME_SIZE && f[0] == CMD_XFER_RESUME && f[1..9] == ToLE(offset, 8)
  {
    [CMD_XFER_RESUME] + ToLE(offset, 8)
  }

  /** Offsets within the range of a stream fit the frame's eight bytes. */
  lemma OffsetFits(offset: nat)
    requires offset <= MAX_STREAM_OFFSET
    ensures FromLE(ToLE(offset, 8)) == offset
  {
    PowAdd(256, 1, 1);
    PowAdd(256, 2, 2);
    PowAdd(256, 4, 4);
    assert Pow(256, 1) == 256 by { assert Pow(256, 0) == 1; }
    assert Pow(256, 2) == 0x1_0000;
    assert Pow(256, 4) == 0x1_0000_0000;
    assert Pow(256, 8) == 0x1_0000_0000_0000_0000;
    FromToLE(offset, 8);
  }

  // ----- one visit -----

  const UPDATE: Bytes := [CMD_AUTH_LOGON_PROOF, WOW_FAIL_VERSION_UPDATE]

  /** The session `d` has been offered the archive. */
  predicate OffersArchive(c: Core, d: Core, f1: Bytes, art: Artifact) {
    && d.session.status == Patch && !d.session.closed && d.session.artifact == Some(art)
    && d.trace == c.trace + [Dispatched(f1)] + [Sent(UPDATE)] + [Sent(XferInit(art))]
  }

  lemma OfferSends(c: Core, a: Answer, art: Artifact)
    requires !c.session.closed && a.archive == Some(art)
    ensures var d := OfferPatch(c, a);
            && d.session.status == Patch && !d.session.closed && d.session.artifact == Some(art)
            && d.trace == c.trace + [Sent(UPDATE)] + [Sent(XferInit(art))]
  {
    assert XferInit(art) != [];
  }

  lemma PatchIsOffered(policy: PatchPolicy, c: Core, f1: Bytes, key: nat, m2: Digest, a: Answer, art: Artifact)
    requires f1 != [] && !c.session.closed && a.archive == Some(art)
    requires ShouldPatch(policy, c.session.build, Supported(c.session.build))
    ensures var o := Judged(policy, Entered(c, f1), a, Match(key, m2));
            o.ok && OffersArchive(c, o.core, f1, art)
  {
    var k := Keyed(Entered(c, f1), key);
    assert Judged(policy, Entered(c, f1), a, Match(key, m2)) == Outcome(OfferPatch(k, a), true);
    OfferSends(k, a, art);
  }

  lemma OfferDispatched(env: Env, c: Core, client: Client, crc: Digest, flags: byte, art: Artifact) returns (d: Core)
    requires env.oracle(0).account.Some? && RowOf(env.sha, env.oracle(0).account.value, client.digest)
    requires c.session.status == LogonProof && !c.session.closed && KeysOf(c.session) == KeysSent(env)
    requires c.session.login == client.name && |c.commands| == 1
    requires ShouldPatch(env.policy, c.session.build, Supported(c.session.build)) && env.oracle(1).archive == Some(art)
    ensures var f1 := HonestProof(env, client, crc, flags);
            Accepts(env, c, f1, d) && OffersArchive(c, d, f1, art)
  {
    var k, f1 := KeysSent(env), HonestProof(env, client, crc, flags);
    var key, m2 := FromLE(ClientKey(env.sha, client, OfferOf(k))), ClientM2(env.sha, client, OfferOf(k));
    RowMakesKeys(env.sha, env.oracle(0), client.digest);
    HonestProofMatches(env.sha, k, client, crc, flags);
    ProofIsJudged(env, c, f1);
    PatchIsOffered(env.policy, c, f1, key, m2, env.oracle(1), art);
    d := Dispatch(env, c, f1).core;
  }

  lemma ResumeIsHandled(env: Env, c: Core, offset: nat)
    requires c.session.status == Patch
    ensures var f2 := ResumeFrame(offset);
            && FrameVerdict(Patch, f2) == Complete(|f2|)
            && Dispatch(env, c, f2) == BeginPatchStream(Entered(c, f2), FromLE(ToLE(offset, 8)))
  {
  }

  lemma ResumeDispatched(env: Env, c: Core, art: Artifact, offset: nat) returns (d: Core)
    requires c.session.status == Patch && !c.session.closed && c.session.artifact == Some(art)
    requires SeekAccepted(|art.data|, offset)
    ensures Accepts(env, c, ResumeFrame(offset), d) && d.session.status == Closed
    ensures d.trace == c.trace + [Dispatched(ResumeFrame(offset))] + [TransferStarted(art, offset)]
  {
    ResumeIsHandled(env, c, offset);
    OffsetFits(offset);
    d := Dispatch(env, c, ResumeFrame(offset)).core;
  }

  /** Three frames, all accepted, in any chunks. */
  lemma ThreeFrames(env: Env, st: Stream, f0: Bytes, f1: Bytes, f2: Bytes, c1: Core, c2: Core, c3: Core,
                    chunks: seq<Bytes>)
    requires st.Open() && st.pending == [] && NeverTrips(env, st, chunks) && Flatten(chunks) == f0 + (f1 + f2)
    requires Accepts(env, st.core, f0, c1) && Accepts(env, c1, f1, c2) && Accepts(env, c2, f2, c3)
    ensures Feed(env, st, chunks) == Stream(c3, [])
  {
    ChunksAreOneStream(env, st, chunks);
    assert st.Append(f0 + (f1 + f2)).pending == f0 + (f1 + f2);
    DrainFrame(env, st.Append(f0 + (f1 + f2)), f0, f1 + f2);
    DrainFrame(env, Stream(c1, f1 + f2), f1, f2);
    assert f2 + [] == f2;
    DrainFrame(env, Stream(c2, f2), f2, []);
    DrainNothing(env, Stream(c3, []));
  }

  /** A visit: the server's side and the client's, how the network cut the requests, and after
      how many bytes it cut off the transfer. */
  datatype Visit = Visit(env: Env, start: int, timeout: int, f0: Bytes, client: Client, crc: Digest, flags: byte,
                         chunks: seq<Bytes>, cut: nat)

  /** An honest client of a build to be patched resumes at `offset` of the archive it is offered. */
  predicate Resumes(v: Visit, art: Artifact, offset: nat) {
    && Welcome(v.env, v.f0, v.client)
    && ShouldPatch(v.env.policy, BuildOf(v.f0), Supported(BuildOf(v.f0))) && v.env.oracle(1).archive == Some(art)
    && Flatten(v.chunks) == v.f0 + (HonestProof(v.env, v.client, v.crc, v.flags) + ResumeFrame(offset))
  }

  function TraceOf(v: Visit): seq<Event> { Feed(v.env, NewStream(v.start, v.timeout), v.chunks).core.trace }

  /** The visit announced the archive and then started its transfer at the offset. */
  predicate AnnouncedAndStarted(t: seq<Event>, art: Artifact, offset: nat) {
    |t| == 7 && t[4] == Sent(XferInit(art)) && t[6] == TransferStarted(art, offset)
  }

  lemma VisitTrace(c: Core, d: Core, e: Core, f0: Bytes, reply: Bytes, f1: Bytes, f2: Bytes, art: Artifact, offset: nat)
    requires c.trace == [Dispatched(f0), Sent(reply)] && OffersArchive(c, d, f1, art)
    requires e.trace == d.trace + [Dispatched(f2)] + [TransferStarted(art, offset)]
    ensures AnnouncedAndStarted(e.trace, art, offset)
  {
  }

  lemma VisitFits(v: Visit, offset: nat)
    requires v.env.oracle(0).account.Some? && ChallengeFrame(v.f0)
    requires Flatten(v.chunks) == v.f0 + (HonestProof(v.env, v.client, v.crc, v.flags) + ResumeFrame(offset))
    ensures NeverTrips(v.env, NewStream(v.start, v.timeout), v.chunks)
  {
    ChallengeFrameSize(v.f0);
    ShortStreamNeverTrips(v.env, NewStream(v.start, v.timeout), v.chunks);
  }

  /** Challenge, honest proof and resume request, cut into chunks in any way: the archive is
      announced and its transfer starts exactly where the client asked. */
  lemma VisitStartsTransfer(v: Visit, art: Artifact, offset: nat)
    requires Resumes(v, art, offset) && SeekAccepted(|art.data|, offset)
    ensures AnnouncedAndStarted(TraceOf(v), art, offset)
    ensures var st := Feed(v.env, NewStream(v.start, v.timeout), v.chunks);
            st.Open() && st.core.session.status == Closed
  {
    var k, f1 := KeysSent(v.env), HonestProof(v.env, v.client, v.crc, v.flags);
    var c := ChallengeDispatched(v.env, v.start, v.timeout, v.f0, v.client);
    var d := OfferDispatched(v.env, c, v.client, v.crc, v.flags, art);
    var e := ResumeDispatched(v.env, d, art, offset);
    VisitFits(v, offset);
    ThreeFrames(v.env, NewStream(v.start, v.timeout), v.f0, f1, ResumeFrame(offset), c, d, e, v.chunks);
    VisitTrace(c, d, e, v.f0, ChallengeReply(k.public, k.salt, v.env.oracle(0).filler), f1, ResumeFrame(offset),
               art, offset);
  }

  // ----- a chain of visits -----

  /** What arrives of the transfer a visit started. */
  function Downloaded(v: Visit): Bytes {
    var t := TraceOf(v);
    if t != [] && t[|t| - 1].TransferStarted? && t[|t| - 1].offset <= |t[|t| - 1].artifact.data|
    then Arriving(t[|t| - 1].artifact.data[t[|t| - 1].offset..], v.cut)
    else []
  }

  /** The archive bytes in the first `cut` bytes of a transfer. */
  function Arriving(data: Bytes, cut: nat): Bytes {
    var wire := Concat(Packets(data));
    Received(wire[..if cut <= |wire| then cut else |wire|])
  }

  /** Each visit resumes at what the client holds by then. */
  predicate Chain(visits: seq<Visit>, art: Artifact, held: Bytes) { Linked(ResumesAt(art), Download(), visits, held) }

  function ResumesAt(art: Artifact): (Visit, nat) -> bool { (v: Visit, offset: nat) => Resumes(v, art, offset) }

  function Download(): Visit -> Bytes { (v: Visit) => Downloaded(v) }

  predicate Linked(resumes: (Visit, nat) -> bool, got: Visit -> Bytes, visits: seq<Visit>, held: Bytes)
    decreases |visits|
  {
    visits == [] || (resumes(visits[0], |held|) && Linked(resumes, got, visits[1..], held + got(visits[0])))
  }

  function HeldAfter(visits: seq<Visit>, held: Bytes): Bytes
    decreases |visits|
  {
    if visits == [] then held else HeldAfter(visits[1..], held + Downloaded(visits[0]))
  }

  function Cuts(visits: seq<Visit>): (cuts: seq<nat>)
    ensures |cuts| == |visits| && forall i :: 0 <= i < |visits| ==> cuts[i] == visits[i].cut
  {
    seq(|visits|, i requires 0 <= i < |visits| => visits[i].cut)
  }

  lemma DownloadOf(v: Visit, art: Artifact, offset: nat)
    requires AnnouncedAndStarted(TraceOf(v), art, offset) && offset <= |art.data|
    ensures Downloaded(v) == Arriving(art.data[offset..], v.cut)
  {
  }

  lemma ArrivingContinues(file: Bytes, held: Bytes, cut: nat)
    requires held <= file
    ensures held + Arriving(file[|held|..], cut) <= file
  {
    var wire := Concat(Packets(file[|held|..]));
    ReceivedPrefix(file[|held|..], if cut <= |wire| then cut else |wire|);
    assert held + file[|held|..] == file;
  }

  lemma ResumedStep(file: Bytes, held: Bytes, cut: nat, cuts: seq<nat>)
    requires held <= file
    ensures held + Arriving(file[|held|..], cut) <= file
    ensures Resumed(file, held, [cut] + cuts) == Resumed(file, held + Arriving(file[|held|..], cut), cuts)
  {
    ArrivingContinues(file, held, cut);
    assert ([cut] + cuts)[0] == cut && ([cut] + cuts)[1..] == cuts;
  }

  lemma DownloadIsTransfer(v: Visit, art: Artifact, held: Bytes)
    requires Resumes(v, art, |held|) && held <= art.data && |art.data| <= MAX_STREAM_OFFSET
    ensures Downloaded(v) == Arriving(art.data[|held|..], v.cut) && held + Downloaded(v) <= art.data
  {
    VisitStartsTransfer(v, art, |held|);
    DownloadOf(v, art, |held|);
    ArrivingContinues(art.data, held, v.cut);
  }

  lemma CutsCons(visits: seq<Visit>)
    requires visits != []
    ensures Cuts(visits) == [visits[0].cut] + Cuts(visits[1..])
  {
  }

  /** The chain of sockets is the chain of transfers. */
  lemma {:induction false} ChainIsResumed(visits: seq<Visit>, art: Artifact, held: Bytes)
    requires Chain(visits, art, held) && held <= art.data && |art.data| <= MAX_STREAM_OFFSET
    ensures HeldAfter(visits, held) == Resumed(art.data, held, Cuts(visits))
    decreases |visits|
  {
    if visits != [] {
      var got := Downloaded(visits[0]);
      DownloadIsTransfer(visits[0], art, held);
      ChainIsResumed(visits[1..], art, held + got);
      assert HeldAfter(visits, held) == HeldAfter(visits[1..], held + got);
      CutsCons(visits);
      ResumedStep(art.data, held, visits[0].cut, Cuts(visits[1..]));
    }
  }

  /** However many visits it takes and wherever each is cut off, the client holds a prefix of
      the archive; and if the last transfer is not cut off, it holds the archive. */
  lemma ChainReassembles(visits: seq<Visit>, art: Artifact)
    requires Chain(visits, art, []) && |art.data| <= MAX_STREAM_OFFSET
    ensures HeldAfter(visits, []) <= art.data
    ensures visits != [] && visits[|visits| - 1].cut >= |Concat(Packets(art.data))| ==>
            HeldAfter(visits, []) == art.data
  {
    ChainIsResumed(visits, art, []);
    ResumedChain(art.data, [], Cuts(visits));
  }

  /** Every visit of a chain resumes inside the file, if every download continues it. */
  lemma {:induction false} OffsetsInside(resumes: (Visit, nat) -> bool, got: Visit -> Bytes, file: Bytes,
                                         visits: seq<Visit>, held: Bytes, i: nat)
    returns (offset: nat)
    requires Linked(resumes, got, visits, held) && held <= file && i < |visits|
    requires forall v, h :: h <= file && resumes(v, |h|) ==> h + got(v) <= file
    ensures offset <= |file| && resumes(visits[i], offset)
    decreases |visits|
  {
    if i == 0 {
      offset := |held|;
    } else {
      offset := OffsetsInside(resumes, got, file, visits[1..], held + got(visits[0]), i - 1);
    }
  }

  lemma DownloadsContinue(art: Artifact)
    requires |art.data| <= MAX_STREAM_OFFSET
    ensures forall v, h :: h <= art.data && ResumesAt(art)(v, |h|) ==> h + Download()(v) <= art.data
  {
    forall v, h: Bytes | h <= art.data && ResumesAt(art)(v, |h|) ensures h + Download()(v) <= art.data {
      DownloadIsTransfer(v, art, h);
    }
  }

  lemma OffsetOf(visits: seq<Visit>, art: Artifact, i: nat) returns (offset: nat)
    requires Chain(visits, art, []) && |art.data| <= MAX_STREAM_OFFSET && i < |visits|
    ensures offset <= |art.data| && ResumesAt(art)(visits[i], offset)
  {
    DownloadsContinue(art);
    offset := OffsetsInside(ResumesAt(art), Download(), art.data, visits, [], i);
  }

  /** Every visit of a chain announced the archive and started its transfer inside it. */
  lemma ChainAnnounces(visits: seq<Visit>, art: Artifact, i: nat) returns (offset: nat)
    requires Chain(visits, art, []) && |art.data| <= MAX_STREAM_OFFSET && i < |visits|
    ensures offset <= |art.data| && AnnouncedAndStarted(TraceOf(visits[i]), art, offset)
  {
    offset := OffsetOf(visits, art, i);
    VisitStartsTransfer(visits[i], art, offset);
  }

  /** An announcement tells the size and the digest. */
  lemma AnnouncementTells(x: Artifact, y: Artifact)
    requires |x.data| <= MAX_STREAM_OFFSET && |y.data| <= MAX_STREAM_OFFSET && XferInit(x) == XferInit(y)
    ensures |x.data| == |y.data| && x.digest == y.digest
  {
    OffsetFits(|x.data|);
    OffsetFits(|y.data|);
    assert XferInit(x)[7..15] == ToLE(|x.data|, 8) && XferInit(y)[7..15] == ToLE(|y.data|, 8);
    assert XferInit(x)[15..] == x.digest && XferInit(y)[15..] == y.digest;
  }
}
