/** The pending limit is the one place where the way a stream is cut can show. When it does,
    for a single call, for a whole sequence of calls, and by length alone. */
module PendingLimit {
  import opened Wire
  import opened Guard
  import opened AuthSession
  import opened AuthStream
  import opened AuthRuns

  /** A complete frame in front leaves its mark on the trace. */
  lemma CompleteFrameShows(env: Env, st: Stream)
    requires Inv(ClaimsOf(env), st.core) && st.Open() && st.Verdict().Complete?
    ensures 1 <= st.Verdict().size <= |st.pending|
    ensures st.core.trace + [Dispatched(st.pending[..st.Verdict().size])] <= Drain(env, st).core.trace
  {
    CompleteIsPositive(st);
    CompleteIsLocal(st.core.session.status, st.pending);
    DispatchProgress(env, st.core, st.pending[..st.Verdict().size]);
    StepKeeps(env, st, Pass);
    assert Step(env, st, Pass) == Iterate(env, st) && Drain(env, st) == Drain(env, Iterate(env, st));
    DrainExtendsTrace(env, Iterate(env, st));
  }

  lemma TrippedCloses(env: Env, st: Stream, chunk: Bytes)
    requires st.Open() && !CanAppendPending(|st.pending|, |chunk|)
    ensures OnData(env, st, chunk) == Stream(Close(st.core), [])
  {
  }

  /** Input over the limit is never waiting for more: it is a rejection or a whole frame. */
  lemma OverLimitIsDecided(st: Stream, chunk: Bytes)
    requires Settled(st) && st.Open() && !CanAppendPending(|st.pending|, |chunk|)
    ensures !st.Append(chunk).Verdict().Incomplete? && st.Append(chunk).pending == st.pending + chunk
  {
    SettledIsShort(st);
    if st.Append(chunk).Verdict().Incomplete? { WaitingIsShort(st.core.session.status, st.pending + chunk); }
  }

  /** A chunk that may come now: it fits, or it is about to be rejected anyway. */
  predicate Harmless(st: Stream, chunk: Bytes) {
    CanAppendPending(|st.pending|, |chunk|) || FrameVerdict(st.core.session.status, st.pending + chunk).Reject?
  }

  lemma HarmlessIsWhole(env: Env, st: Stream, chunk: Bytes)
    requires Settled(st) && st.Open() && Harmless(st, chunk)
    ensures Same(OnData(env, st, chunk), Drain(env, st.Append(chunk)))
  {
    if !CanAppendPending(|st.pending|, |chunk|) {
      TrippedCloses(env, st, chunk);
      var all := st.Append(chunk);
      assert Iterate(env, all) == Stream(Close(st.core), []);
      assert Drain(env, all) == Drain(env, Iterate(env, all));
    }
  }

  /** Any other chunk closes the socket with a frame undispatched, whatever follows. */
  lemma HarmfulShows(env: Env, st: Stream, chunk: Bytes, more: Bytes)
    requires Inv(ClaimsOf(env), st.core) && Settled(st) && st.Open() && !Harmless(st, chunk)
    ensures OnData(env, st, chunk) == Stream(Close(st.core), [])
    ensures OnData(env, st, chunk).core != Drain(env, st.Append(chunk + more)).core
  {
    TrippedCloses(env, st, chunk);
    OverLimitIsDecided(st, chunk);
    VerdictStable(st.core.session.status, st.pending + chunk, more);
    assert st.pending + chunk + more == st.pending + (chunk + more);
    CompleteFrameShows(env, st.Append(chunk + more));
  }

  /** A call of `onData` amounts to the whole-stream parse of leftover and chunk exactly when
      the chunk is harmless. */
  lemma OnDataIsWholeIff(env: Env, st: Stream, chunk: Bytes)
    requires Inv(ClaimsOf(env), st.core) && Settled(st) && st.Open()
    ensures Same(OnData(env, st, chunk), Drain(env, st.Append(chunk)))
       <==> CanAppendPending(|st.pending|, |chunk|) || FrameVerdict(st.core.session.status, st.pending + chunk).Reject?
  {
    if Harmless(st, chunk) {
      HarmlessIsWhole(env, st, chunk);
    } else {
      HarmfulShows(env, st, chunk, []);
      assert chunk + [] == chunk;
    }
  }

  /** Every chunk of a sequence comes when it may. */
  predicate AllHarmless(env: Env, st: Stream, chunks: seq<Bytes>)
    decreases |chunks|
  {
    chunks == [] ||
    ((st.Open() ==> Harmless(st, chunks[0])) && AllHarmless(env, OnData(env, st, chunks[0]), chunks[1..]))
  }

  lemma {:induction false} ClosedIgnoresChunks(env: Env, st: Stream, chunks: seq<Bytes>)
    requires !st.Open()
    ensures Feed(env, st, chunks) == st && AllHarmless(env, st, chunks)
    decreases |chunks|
  {
    if chunks != [] {
      assert OnData(env, st, chunks[0]) == st;
      ClosedIgnoresChunks(env, st, chunks[1..]);
    }
  }

  /** Streams that cannot be told apart stay so under more input. */
  lemma SameDrains(env: Env, x: Stream, y: Stream, more: Bytes)
    requires Same(x, y)
    ensures Same(Drain(env, x.Append(more)), Drain(env, y.Append(more)))
  {
  }

  /** So a harmless chunk may be drained ahead of what follows it. */
  lemma HarmlessFirst(env: Env, st: Stream, first: Bytes, rest: Bytes)
    requires Settled(st) && st.Open() && Harmless(st, first)
    ensures Same(Drain(env, OnData(env, st, first).Append(rest)), Drain(env, st.Append(first).Append(rest)))
  {
    HarmlessIsWhole(env, st, first);
    SameDrains(env, OnData(env, st, first), Drain(env, st.Append(first)), rest);
    DrainAppend(env, st.Append(first), rest);
  }

  lemma OnDataKeeps(env: Env, st: Stream, chunk: Bytes)
    requires Inv(ClaimsOf(env), st.core)
    ensures Inv(ClaimsOf(env), OnData(env, st, chunk).core)
  {
    StepKeeps(env, st, Chunk(chunk));
    DrainExtendsTrace(env, Receive(st, chunk));
  }

  /** A way of cutting a stream ends like one pass over the whole. */
  predicate Invisible(env: Env, st: Stream, chunks: seq<Bytes>) {
    Same(Feed(env, st, chunks), Drain(env, st.Append(Flatten(chunks))))
  }

  lemma HarmlessStep(env: Env, st: Stream, chunks: seq<Bytes>)
    requires chunks != [] && Settled(st) && st.Open() && Harmless(st, chunks[0])
    ensures Invisible(env, st, chunks) <==> Invisible(env, OnData(env, st, chunks[0]), chunks[1..])
  {
    var next, rest := OnData(env, st, chunks[0]), Flatten(chunks[1..]);
    HarmlessFirst(env, st, chunks[0], rest);
    assert st.Append(Flatten(chunks)) == st.Append(chunks[0]).Append(rest);
    assert Feed(env, st, chunks) == Feed(env, next, chunks[1..]);
    SameEither(Feed(env, st, chunks), Drain(env, next.Append(rest)), Drain(env, st.Append(Flatten(chunks))));
  }

  lemma SameEither(x: Stream, y: Stream, z: Stream)
    requires Same(y, z)
    ensures Same(x, y) <==> Same(x, z)
  {
  }

  lemma HarmfulStep(env: Env, st: Stream, chunks: seq<Bytes>)
    requires chunks != [] && Inv(ClaimsOf(env), st.core) && Settled(st) && st.Open() && !Harmless(st, chunks[0])
    ensures !Invisible(env, st, chunks)
  {
    HarmfulShows(env, st, chunks[0], Flatten(chunks[1..]));
    ClosedIgnoresChunks(env, OnData(env, st, chunks[0]), chunks[1..]);
  }

  /** It does exactly when every chunk comes when it may. */
  lemma {:induction false} ChunkingInvisibleIff(env: Env, st: Stream, chunks: seq<Bytes>)
    requires Inv(ClaimsOf(env), st.core) && Settled(st)
    ensures Invisible(env, st, chunks) <==> AllHarmless(env, st, chunks)
    decreases |chunks|
  {
    if chunks == [] {
      assert st.Append([]) == st;
    } else if !st.Open() {
      ClosedIgnoresChunks(env, st, chunks);
    } else if Harmless(st, chunks[0]) {
      OnDataKeeps(env, st, chunks[0]);
      ChunkingInvisibleIff(env, OnData(env, st, chunks[0]), chunks[1..]);
      HarmlessStep(env, st, chunks);
    } else {
      HarmfulStep(env, st, chunks);
    }
  }

  // ----- by length alone -----

  /** A challenge for the one-letter account A, with zeros behind it. */
  function PaddedChallenge(n: nat): (s: Bytes)
    requires n >= 35
    ensures |s| == n
  {
    [CMD_AUTH_LOGON_CHALLENGE, 0, 31, 0] + Zeros(29) + [1, 0x41] + Zeros(n - 35)
  }

  lemma PaddedChallengeIsComplete(n: nat)
    requires n >= 35
    ensures FrameVerdict(Challenge, PaddedChallenge(n)) == Complete(35)
  {
    var s := PaddedChallenge(n);
    assert s[0] == CMD_AUTH_LOGON_CHALLENGE && BodySize(s) == 31 && s[CHALLENGE_NAME_LENGTH_OFFSET] == 1;
    assert s[CHALLENGE_NAME_OFFSET..CHALLENGE_NAME_OFFSET + 1] == [0x41];
  }

  ghost predicate CutAnyWay(env: Env, start: int, timeout: int, n: nat) {
    forall chunks :: |Flatten(chunks)| <= n ==> Invisible(env, NewStream(start, timeout), chunks)
  }

  /** Streams of up to `n` bytes may be cut in every way exactly when `n` is within the limit. */
  lemma CutAnyWayIff(env: Env, start: int, timeout: int, n: nat)
    ensures CutAnyWay(env, start, timeout, n) <==> n <= MAX_PENDING_INPUT
  {
    var st := NewStream(start, timeout);
    if n <= MAX_PENDING_INPUT {
      forall chunks | |Flatten(chunks)| <= n
        ensures Invisible(env, st, chunks)
      {
        ShortStreamNeverTrips(env, st, chunks);
        ChunksAreOneStream(env, st, chunks);
      }
    } else {
      OneChunkTooMany(env, start, timeout, PaddedChallenge(MAX_PENDING_INPUT + 1));
    }
  }

  lemma OneChunkTooMany(env: Env, start: int, timeout: int, s: Bytes)
    requires s == PaddedChallenge(MAX_PENDING_INPUT + 1)
    ensures Flatten([s]) == s
    ensures !Invisible(env, NewStream(start, timeout), [s])
  {
    var st := NewStream(start, timeout);
    RunKeeps(env, start, timeout, []);
    PaddedChallengeIsComplete(MAX_PENDING_INPUT + 1);
    assert Flatten([s]) == s + Flatten([]);
    assert st.pending + s == s && !Harmless(st, s);
    ChunkingInvisibleIff(env, st, [s]);
  }

  /** What shows: a first chunk above the limit closes the socket before any frame is
      dispatched; the same bytes one by one dispatch theirs. */
  lemma OversizedChunkIsVisible(env: Env, start: int, timeout: int, stream: Bytes)
    requires |stream| > MAX_PENDING_INPUT && FrameVerdict(Challenge, stream).Complete?
    ensures var whole := Feed(env, NewStream(start, timeout), [stream]);
            !whole.Open() && whole.core.trace == []
    ensures var n := FrameVerdict(Challenge, stream).size;
            [Dispatched(stream[..n])] <= Feed(env, NewStream(start, timeout), Bytewise(stream)).core.trace
  {
    var st := NewStream(start, timeout);
    assert Feed(env, st, [stream]) == Feed(env, OnData(env, st, stream), []);
    TrippedCloses(env, st, stream);
    BytewiseIsWhole(env, st, stream);
    RunKeeps(env, start, timeout, []);
    var all := st.Append(stream);
    assert all.pending == stream;
    CompleteFrameShows(env, all);
  }
}
