/** The byte stream of one socket: pending bytes are appended, judged frame by frame and
    dispatched. How the network cuts the stream into chunks makes no difference. */
module AuthStream {
  import opened Wire
  import opened Guard
  import opened AuthSession

  datatype Stream = Stream(core: Core, pending: Bytes) {
    predicate Open() { !core.session.closed }
    function Verdict(): Verdict { FrameVerdict(core.session.status, pending) }
    function Append(more: Bytes): Stream { this.(pending := pending + more) }
  }

  function NewStream(start: int, timeout: int): Stream { Stream(Fresh(start, timeout), []) }

  /** The head of `onData`: refuse input beyond the limit, else buffer it. */
  function Receive(st: Stream, chunk: Bytes): Stream {
    if !st.Open() then st
    else if !CanAppendPending(|st.pending|, |chunk|) then Stream(Close(st.core), [])
    else st.Append(chunk)
  }

  /** One pass of the loop in `onData`. */
  function Iterate(env: Env, st: Stream): Stream {
    if !st.Open() then st
    else
      match st.Verdict()
      case Incomplete(_) => st
      case Reject(_) => Stream(Close(st.core), [])
      case Complete(n) =>
        CompleteIsLocal(st.core.session.status, st.pending);
        var o := Dispatch(env, st.core, st.pending[..n]);
        if o.ok then Stream(o.core, st.pending[n..]) else Stream(Close(o.core), [])
  }

  /** Nothing left to do: closed, or waiting for the rest of a frame. */
  predicate Settled(st: Stream) { !st.Open() || st.Verdict().Incomplete? }

  /** The loop: a whole-stream parser when given the whole stream. */
  function Drain(env: Env, st: Stream): (r: Stream)
    ensures Settled(r)
    decreases |st.pending|
  {
    if Settled(st) then st else CompleteIsPositive(st); Drain(env, Iterate(env, st))
  }

  lemma CompleteIsPositive(st: Stream)
    ensures st.Verdict().Complete? ==> 1 <= st.Verdict().size <= |st.pending|
    ensures st.Verdict().Reject? ==> st.pending != []
  {
    VerdictStable(st.core.session.status, st.pending, []);
  }

  function OnData(env: Env, st: Stream, chunk: Bytes): Stream {
    Drain(env, Receive(st, chunk))
  }

  function Feed(env: Env, st: Stream, chunks: seq<Bytes>): Stream
    decreases |chunks|
  {
    if chunks == [] then st else Feed(env, OnData(env, st, chunks[0]), chunks[1..])
  }

  function Flatten(chunks: seq<Bytes>): Bytes {
    if chunks == [] then [] else chunks[0] + Flatten(chunks[1..])
  }

  /** No chunk runs into the pending limit while the socket is open. */
  predicate NeverTrips(env: Env, st: Stream, chunks: seq<Bytes>)
    decreases |chunks|
  {
    chunks == [] ||
    ((st.Open() ==> CanAppendPending(|st.pending|, |chunks[0]|))
     && NeverTrips(env, OnData(env, st, chunks[0]), chunks[1..]))
  }

  // ----- chunking independence -----

  /** The same outcome; a closed socket's leftover is never looked at again. */
  predicate Same(x: Stream, y: Stream) {
    x.core == y.core && (x.Open() ==> x.pending == y.pending)
  }

  /** A pass that decides anything decides it the same way with more input behind. */
  lemma IterateAppend(env: Env, st: Stream, more: Bytes)
    requires !Settled(st)
    ensures Same(Iterate(env, st.Append(more)), Iterate(env, st).Append(more))
    ensures |Iterate(env, st).pending| < |st.pending|
  {
    CompleteIsPositive(st);
    VerdictStable(st.core.session.status, st.pending, more);
    if st.Verdict().Complete? {
      var n := st.Verdict().size;
      assert (st.pending + more)[..n] == st.pending[..n];
      assert (st.pending + more)[n..] == st.pending[n..] + more;
    }
  }

  /** Draining a prefix first, then the rest with its leftover, is draining the whole. */
  lemma {:induction false} DrainAppend(env: Env, st: Stream, more: Bytes)
    ensures Same(Drain(env, st.Append(more)), Drain(env, Drain(env, st).Append(more)))
    decreases |st.pending|
  {
    if !Settled(st) {
      IterateAppend(env, st, more);
      VerdictStable(st.core.session.status, st.pending, more);
      DrainAppend(env, Iterate(env, st), more);
      if !Iterate(env, st).Open() {
        assert Drain(env, st.Append(more)) == Drain(env, Iterate(env, st.Append(more)));
      }
    }
  }

  /** Any chunking that stays within the limit ends where one pass over the whole stream
      ends: same session, same frames dispatched, same bytes sent, same leftover. */
  lemma {:induction false} ChunksAreOneStream(env: Env, st: Stream, chunks: seq<Bytes>)
    requires Settled(st) && NeverTrips(env, st, chunks)
    ensures Same(Feed(env, st, chunks), Drain(env, st.Append(Flatten(chunks))))
    decreases |chunks|
  {
    if chunks == [] {
      assert st.Append([]) == st;
    } else if !st.Open() {
      ChunksAreOneStream(env, OnData(env, st, chunks[0]), chunks[1..]);
    } else {
      var first, rest := chunks[0], Flatten(chunks[1..]);
      ChunksAreOneStream(env, OnData(env, st, first), chunks[1..]);
      DrainAppend(env, st.Append(first), rest);
      assert st.Append(Flatten(chunks)) == st.Append(first).Append(rest);
    }
  }

  /** Two ways of cutting one stream cannot be told apart. */
  lemma ChunkingIndependence(env: Env, start: int, timeout: int, xs: seq<Bytes>, ys: seq<Bytes>)
    requires Flatten(xs) == Flatten(ys)
    requires NeverTrips(env, NewStream(start, timeout), xs) && NeverTrips(env, NewStream(start, timeout), ys)
    ensures Same(Feed(env, NewStream(start, timeout), xs), Feed(env, NewStream(start, timeout), ys))
  {
    ChunksAreOneStream(env, NewStream(start, timeout), xs);
    ChunksAreOneStream(env, NewStream(start, timeout), ys);
  }

  // ----- the pending limit -----

  /** Between calls the buffer of an open socket holds less than its largest frame. */
  lemma SettledIsShort(st: Stream)
    requires Settled(st) && st.Open()
    ensures if st.core.session.status == Closed then st.pending == []
            else |st.pending| < LargestFrame(st.core.session.status) <= MAX_PENDING_INPUT
  {
    WaitingIsShort(st.core.session.status, st.pending);
  }

  lemma {:induction false} DrainShrinks(env: Env, st: Stream)
    ensures |Drain(env, st).pending| <= |st.pending|
    decreases |st.pending|
  {
    if !Settled(st) {
      CompleteIsPositive(st);
      DrainShrinks(env, Iterate(env, st));
    }
  }

  /** A stream that fits the buffer as a whole never runs into the limit, however it is cut. */
  lemma {:induction false} ShortStreamNeverTrips(env: Env, st: Stream, chunks: seq<Bytes>)
    requires |st.pending| + |Flatten(chunks)| <= MAX_PENDING_INPUT
    ensures NeverTrips(env, st, chunks)
    decreases |chunks|
  {
    if chunks != [] {
      DrainShrinks(env, Receive(st, chunks[0]));
      ShortStreamNeverTrips(env, OnData(env, st, chunks[0]), chunks[1..]);
    }
  }

  /** Input that arrives byte by byte never runs into the limit ... */
  lemma {:induction false} ByteAtATimeNeverTrips(env: Env, st: Stream, chunks: seq<Bytes>)
    requires Settled(st) && forall c :: c in chunks ==> |c| <= 1
    ensures NeverTrips(env, st, chunks)
    decreases |chunks|
  {
    if chunks != [] {
      if st.Open() { SettledIsShort(st); }
      ByteAtATimeNeverTrips(env, OnData(env, st, chunks[0]), chunks[1..]);
    }
  }

  function Bytewise(stream: Bytes): (r: seq<Bytes>)
    ensures forall c :: c in r ==> |c| == 1
  {
    if stream == [] then [] else [[stream[0]]] + Bytewise(stream[1..])
  }

  lemma {:induction false} FlattenBytewise(stream: Bytes)
    ensures Flatten(Bytewise(stream)) == stream
  {
    if stream != [] {
      assert Bytewise(stream)[1..] == Bytewise(stream[1..]);
      FlattenBytewise(stream[1..]);
    }
  }

  /** ... so every stream, whatever its length, has the meaning of the whole-stream parse. */
  lemma BytewiseIsWhole(env: Env, st: Stream, stream: Bytes)
    requires Settled(st)
    ensures Same(Feed(env, st, Bytewise(stream)), Drain(env, st.Append(stream)))
  {
    ByteAtATimeNeverTrips(env, st, Bytewise(stream));
    ChunksAreOneStream(env, st, Bytewise(stream));
    FlattenBytewise(stream);
  }

  /** Status Closed is not a closed socket: after a refused challenge or proof, or once a
      transfer is under way, the socket stays open until the next byte of any kind, which
      closes it without being dispatched or answered. */
  lemma NextByteCloses(env: Env, st: Stream, chunk: Bytes)
    requires Settled(st) && st.Open() && st.core.session.status == Closed
    ensures OnData(env, st, []) == st
    ensures chunk != [] ==> OnData(env, st, chunk) == Stream(Close(st.core), [])
  {
    SettledIsShort(st);
    if chunk != [] && CanAppendPending(|st.pending|, |chunk|) {
      var more := st.Append(chunk);
      assert more.pending == chunk && CommandStatus(chunk[0]) != Some(Closed);
      assert Receive(st, chunk) == more && !Settled(more) && Iterate(env, more) == Stream(Close(st.core), []);
      assert Drain(env, more) == Drain(env, Iterate(env, more));
    }
  }
}
