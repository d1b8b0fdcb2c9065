/** Patch transfer: the artifact's cursor, the chunking loop of the background thread, and
    the client that reassembles the archive across interrupted transfers. */
module PatchStream {
  import opened Wire
  import opened Guard

  const CHUNK_SIZE: nat := 4096
  const MAX_STREAM_OFFSET: nat := 0x7FFF_FFFF_FFFF_FFFF

  /** An open archive: immutable bytes and the state of the stream over them. */
  class PatchArtifact {
    const data: Bytes
    var pos: nat
    var good: bool

    ghost predicate Valid()
      reads this
    {
      pos <= |data|
    }

    constructor (data: Bytes)
      ensures Valid() && this.data == data && pos == 0 && good
    {
      this.data := data;
      pos, good := 0, true;
    }

    method Seek(offset: nat) returns (ok: bool)
      requires Valid()
      modifies this
      ensures Valid()
      ensures ok <==> SeekAccepted(|data|, offset)
      ensures ok <==> offset <= |data| && offset <= 0x7FFF_FFFF_FFFF_FFFF
      ensures if ok then pos == offset && good else unchanged(this)
    {
      if offset > |data| || offset > MAX_STREAM_OFFSET { return false; }
      pos, good := offset, true;
      return true;
    }

    /** Copies up to `capacity` bytes behind `dest[at]`; a short read spoils the stream. */
    method Read(dest: array<byte>, at: nat, capacity: nat) returns (got: nat)
      requires Valid() && at + capacity <= dest.Length
      modifies this, dest
      ensures Valid()
      ensures got == if !old(good) then 0 else if capacity <= |data| - old(pos) then capacity else |data| - old(pos)
      ensures pos == old(pos) + got
      ensures good <==> old(good) && got == capacity
      ensures dest[..] == old(dest[..at]) + data[old(pos)..pos] + old(dest[at + got..])
    {
      if !good { return 0; }
      got := if capacity <= |data| - pos then capacity else |data| - pos;
      var i := 0;
      while i < got
        modifies dest
        invariant 0 <= i <= got
        invariant forall k :: at <= k < at + i ==> dest[k] == data[pos + (k - at)]
        invariant forall k :: 0 <= k < dest.Length && !(at <= k < at + i) ==> dest[k] == old(dest[k])
      {
        dest[at + i] := data[pos + i];
        i := i + 1;
      }
      pos := pos + got;
      good := got == capacity;
    }
  }

  predicate SeekAccepted(size: nat, offset: nat) {
    offset <= size && offset <= MAX_STREAM_OFFSET
  }

  // ----- the packets of a transfer -----

  /** CMD_XFER_DATA, the payload size as two little-endian bytes, the payload. */
  function Frame(payload: Bytes): Bytes {
    [CMD_XFER_DATA, |payload| % 256, (|payload| / 256) % 256] + payload
  }

  function ChunkOf(data: Bytes): (n: nat)
    ensures n <= |data| && (data != [] ==> n > 0)
  {
    if |data| <= CHUNK_SIZE then |data| else CHUNK_SIZE
  }

  function Packets(data: Bytes): seq<Bytes> {
    if data == [] then [] else [Frame(data[..ChunkOf(data)])] + Packets(data[ChunkOf(data)..])
  }

  /** The packets that leave before the transport stops accepting them: `writable(k)` is the
      answer of `awaitWritable` in round k. */
  function Delivered(data: Bytes, writable: nat -> bool, round: nat): seq<Bytes>
    decreases |data|
  {
    if data == [] || !writable(round) then []
    else [Frame(data[..ChunkOf(data)])] + Delivered(data[ChunkOf(data)..], writable, round + 1)
  }

  function Concat(packets: seq<Bytes>): Bytes {
    if packets == [] then [] else packets[0] + Concat(packets[1..])
  }

  /** `StartPatchTransfer` and the loop of its thread, with one packet buffer that is
      rewritten in place. */
  method StartPatchTransfer(artifact: PatchArtifact, startOffset: nat, writable: nat -> bool)
    returns (started: bool, sent: seq<Bytes>)
    requires artifact.Valid()
    modifies artifact
    ensures started <==> SeekAccepted(|artifact.data|, startOffset)
    ensures sent == if started then Delivered(artifact.data[startOffset..], writable, 0) else []
  {
    sent := [];
    started := false;
    if startOffset > |artifact.data| { return; }
    started := artifact.Seek(startOffset);
    if !started { return; }
    var pkt := new byte[3 + CHUNK_SIZE](_ => 0);
    var round := 0;
    ghost var all := Delivered(artifact.data[startOffset..], writable, 0);
    while true
      modifies artifact, pkt
      invariant artifact.Valid() && fresh(pkt) && pkt.Length == 3 + CHUNK_SIZE
      invariant artifact.good || artifact.pos == |artifact.data|
      invariant all == sent + Delivered(artifact.data[artifact.pos..], writable, round)
      decreases |artifact.data| - artifact.pos
    {
      if !writable(round) { return; }
      ghost var rest := artifact.data[artifact.pos..];
      var got := ReadPacket(artifact, pkt);
      if got <= 0 { break; }
      DeliveredStep(sent, rest, writable, round);
      sent := sent + [pkt[..3 + got]];
      assert rest[got..] == artifact.data[artifact.pos..];
      round := round + 1;
    }
  }

  lemma DeliveredStep(sent: seq<Bytes>, rest: Bytes, writable: nat -> bool, round: nat)
    requires rest != [] && writable(round)
    ensures var n := ChunkOf(rest);
            sent + Delivered(rest, writable, round)
            == sent + [Frame(rest[..n])] + Delivered(rest[n..], writable, round + 1)
  {
  }

  /** One round of the loop: read behind the header, then write the header in place. */
  method ReadPacket(artifact: PatchArtifact, pkt: array<byte>) returns (got: nat)
    requires artifact.Valid() && pkt.Length == 3 + CHUNK_SIZE
    requires artifact.good || artifact.pos == |artifact.data|
    modifies artifact, pkt
    ensures artifact.Valid() && artifact.pos == old(artifact.pos) + got
    ensures artifact.good || artifact.pos == |artifact.data|
    ensures got == ChunkOf(artifact.data[old(artifact.pos)..])
    ensures got > 0 ==> pkt[..3 + got] == Frame(artifact.data[old(artifact.pos)..][..got])
  {
    ghost var rest := artifact.data[artifact.pos..];
    got := artifact.Read(pkt, 3, CHUNK_SIZE);
    if got <= 0 { return; }
    assert pkt[3..3 + got] == rest[..got];
    pkt[0] := CMD_XFER_DATA;
    pkt[1] := got % 256;
    pkt[2] := (got / 256) % 256;
    assert pkt[3..3 + got] == rest[..got];
    assert pkt[..3] == [CMD_XFER_DATA, got % 256, (got / 256) % 256];
    assert pkt[..3 + got] == pkt[..3] + pkt[3..3 + got];
  }

  // ----- the client -----

  /** The archive bytes in the part of a transfer that arrived: packets of opcode 0x31, a size
      in two bytes, low byte first, and as many bytes; the last packet may be cut. */
  function Received(wire: Bytes): Bytes {
    if |wire| < 3 || wire[0] != 0x31 then []
    else
      var size := wire[1] as int + 256 * (wire[2] as int);
      var n := if size <= |wire| - 3 then size else |wire| - 3;
      wire[3..3 + n] + Received(wire[3 + n..])
  }

  /** The two size bytes give the size back. */
  lemma SizeBytes(n: nat)
    requires n <= 0xFFFF
    ensures n % 256 + 256 * ((n / 256) % 256) == n
  {
  }

  lemma ReceivedWhole(payload: Bytes, tail: Bytes)
    requires |payload| <= 0xFFFF
    ensures Received(Frame(payload) + tail) == payload + Received(tail)
  {
    var wire := Frame(payload) + tail;
    SizeBytes(|payload|);
    assert wire[0] == 0x31 && wire[1] == |payload| % 256 && wire[2] == (|payload| / 256) % 256;
    assert wire[3..3 + |payload|] == payload;
    assert wire[3 + |payload|..] == tail;
  }

  lemma ReceivedCut(payload: Bytes, n: nat)
    requires n < 3 + |payload| <= 0xFFFF
    ensures Received(Frame(payload)[..n]) == if n < 3 then [] else payload[..n - 3]
  {
    if n >= 3 {
      SizeBytes(|payload|);
      var wire := Frame(payload)[..n];
      assert wire[3..] == payload[..n - 3];
      assert wire[0] == 0x31 && wire[1] == |payload| % 256 && wire[2] == (|payload| / 256) % 256;
      assert wire[n..] == [];
    }
  }

  /** Cutting the byte stream anywhere loses the tail and corrupts nothing. */
  lemma {:induction false} ReceivedPrefix(data: Bytes, n: nat)
    requires n <= |Concat(Packets(data))|
    ensures Received(Concat(Packets(data))[..n]) <= data
    ensures n == |Concat(Packets(data))| ==> Received(Concat(Packets(data))[..n]) == data
    decreases |data|
  {
    if data != [] {
      var c := ChunkOf(data);
      var payload, rest := data[..c], data[c..];
      var frame, more := Frame(payload), Concat(Packets(rest));
      assert data == payload + rest;
      assert Packets(data)[1..] == Packets(rest);
      if n >= 3 + c {
        assert (frame + more)[..n] == frame + more[..n - 3 - c];
        ReceivedWhole(payload, more[..n - 3 - c]);
        ReceivedPrefix(rest, n - 3 - c);
      } else {
        assert (frame + more)[..n] == frame[..n];
        ReceivedCut(payload, n);
      }
    }
  }

  /** Every packet but the last carries a full chunk, and the last one is never empty. */
  lemma {:induction false} FullChunks(data: Bytes, i: nat)
    requires i < |Packets(data)|
    ensures if i < |Packets(data)| - 1 then |Packets(data)[i]| == 3 + 4096
            else 3 < |Packets(data)[i]| <= 3 + 4096
    decreases |data|
  {
    if i > 0 { FullChunks(data[ChunkOf(data)..], i - 1); }
  }

  /** A transfer that is never held up sends the whole archive; any other a prefix of it. */
  lemma {:induction false} DeliveredPrefix(data: Bytes, writable: nat -> bool, round: nat)
    ensures Concat(Delivered(data, writable, round)) <= Concat(Packets(data))
    ensures (forall k: nat :: writable(k)) ==> Delivered(data, writable, round) == Packets(data)
    decreases |data|
  {
    if data != [] && writable(round) {
      var rest := data[ChunkOf(data)..];
      DeliveredPrefix(rest, writable, round + 1);
      assert Packets(data)[1..] == Packets(rest);
      assert Delivered(data, writable, round)[1..] == Delivered(rest, writable, round + 1);
    }
  }

  /** A transfer stops before the first round in which the transport does not take more. */
  lemma {:induction false} DeliveredUntil(data: Bytes, writable: nat -> bool, round: nat, k: nat)
    requires (forall j :: round <= j < round + k ==> writable(j)) && !writable(round + k)
    ensures Delivered(data, writable, round) == if k <= |Packets(data)| then Packets(data)[..k] else Packets(data)
    decreases |data|
  {
    if data != [] && k > 0 {
      var rest := data[ChunkOf(data)..];
      DeliveredUntil(rest, writable, round + 1, k - 1);
      assert Packets(data) == [Frame(data[..ChunkOf(data)])] + Packets(rest);
    }
  }

  /** A chain of transfers, each resumed at the number of archive bytes held and cut off
      after `cuts[i]` wire bytes. */
  function Resumed(file: Bytes, held: Bytes, cuts: seq<nat>): Bytes
    requires held <= file
    decreases cuts
  {
    if cuts == [] then held
    else
      var wire := Concat(Packets(file[|held|..]));
      var n := if cuts[0] <= |wire| then cuts[0] else |wire|;
      ReceivedPrefix(file[|held|..], n);
      Resumed(file, held + Received(wire[..n]), cuts[1..])
  }

  /** However often it is interrupted, the client only ever holds a prefix of the archive,
      every resume offset is accepted, and one uncut transfer completes it. */
  lemma {:induction false} ResumedChain(file: Bytes, held: Bytes, cuts: seq<nat>)
    requires held <= file && |file| <= MAX_STREAM_OFFSET
    ensures held <= Resumed(file, held, cuts) <= file
    ensures SeekAccepted(|file|, |Resumed(file, held, cuts)|)
    ensures cuts != [] && cuts[|cuts| - 1] >= |Concat(Packets(file))| ==> Resumed(file, held, cuts) == file
    decreases cuts
  {
    if cuts != [] {
      var rest := file[|held|..];
      var wire := Concat(Packets(rest));
      var n := if cuts[0] <= |wire| then cuts[0] else |wire|;
      ReceivedPrefix(rest, n);
      ResumedChain(file, held + Received(wire[..n]), cuts[1..]);
      WireShrinks(file, |held|);
      assert held + rest == file;
    }
  }

  /** Resuming later never takes more wire bytes than starting over. */
  lemma {:induction false} WireShrinks(file: Bytes, offset: nat)
    requires offset <= |file|
    ensures |Concat(Packets(file[offset..]))| <= |Concat(Packets(file))|
  {
    WireSize(file);
    WireSize(file[offset..]);
  }

  lemma {:induction false} WireSize(data: Bytes)
    ensures |Concat(Packets(data))| == |data| + 3 * ((|data| + CHUNK_SIZE - 1) / CHUNK_SIZE)
    decreases |data|
  {
    if data != [] {
      WireSize(data[ChunkOf(data)..]);
      assert Packets(data)[1..] == Packets(data[ChunkOf(data)..]);
    }
  }
}
