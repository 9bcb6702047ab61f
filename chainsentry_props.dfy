/**
 * What the chain sentry's transitions do to its state: Init, the catch-up as
 * written and corrected, and what GetLatestBlockData reports for a window
 * that is where it should be. The chain's blocks are a Fetcher (for a proxy
 * endpoint, Blocks(ep)); the tip reading is taken as given.
 */
module ChainSentryProps {
  import opened Wrappers
  import opened ChainSentry

  /** Every queue entry is the block the chain gives for the number it was
      requested under. */
  predicate Labelled(s: Snapshot, fetch: Fetcher)
  {
    && |s.queue| == |s.numbers|
    && forall i :: 0 <= i < |s.queue| ==> fetch(s.numbers[i]) == Some(s.queue[i])
  }

  /** Appending a fetch loop's blocks keeps every entry labelled with the
      number it was requested under. */
  lemma AppendLabelled(s: Snapshot, fetch: Fetcher, lo: int, count: nat)
    requires Labelled(s, fetch)
    ensures Labelled(Append(s, lo, FetchRun(fetch, lo, count)), fetch)
  {
    var f := FetchRun(fetch, lo, count);
    FetchRunSpec(fetch, lo, count);
    var t := Append(s, lo, f);
    forall i | 0 <= i < |t.queue|
      ensures fetch(t.numbers[i]) == Some(t.queue[i])
    {
      if i >= |s.queue| {
        var k := i - |s.queue|;
        assert t.queue[i] == f.blocks[k];
        assert t.numbers[i] == lo + k;
      }
    }
  }

  /** A fetch loop gets all it asked for exactly when no fetch in the run fails. */
  lemma FetchRunComplete(fetch: Fetcher, lo: int, count: nat)
    ensures FetchRun(fetch, lo, count).complete <==> forall j :: lo <= j < lo + count ==> fetch(j).Some?
  {
    FetchRunSpec(fetch, lo, count);
    var f := FetchRun(fetch, lo, count);
    if f.complete {
      forall j | lo <= j < lo + count
        ensures fetch(j).Some?
      {
        assert fetch(lo + (j - lo)) == Some(f.blocks[j - lo]);
      }
    } else {
      assert !fetch(lo + |f.blocks|).Some?;
    }
  }

  /** Dropping the first k entries keeps the labels of the rest. */
  lemma DropLabelled(s: Snapshot, latest: int, k: nat, fetch: Fetcher)
    requires Labelled(s, fetch) && k <= |s.queue|
    ensures Labelled(DropOldest(s, latest, k), fetch)
  {
    var t := DropOldest(s, latest, k);
    forall i | 0 <= i < |t.queue|
      ensures fetch(t.numbers[i]) == Some(t.queue[i])
    {
      assert t.queue[i] == s.queue[k + i] && t.numbers[i] == s.numbers[k + i];
    }
  }

  // ---------------------------------------------------------------- Init

  /** Init: a failed tip read is fatal and changes nothing; otherwise the tip is
      recorded, the blocks from tip-(d+n) on are appended in order, each under
      its own number, and Init succeeds exactly when all n of them are fetched. */
  lemma InitSpecEffect(s: Snapshot, d: nat, n: nat, tip: LatestBlock, fetch: Fetcher)
    requires Labelled(s, fetch)
    ensures tip.failed ==> InitSpec(s, d, n, tip, fetch) == Step(s, Fatal)
    ensures !tip.failed ==> InitSpec(s, d, n, tip, fetch).state.latest == tip.value
    ensures Labelled(InitSpec(s, d, n, tip, fetch).state, fetch)
    ensures InitSpec(s, d, n, tip, fetch).outcome != Panicked
    ensures s.queue <= InitSpec(s, d, n, tip, fetch).state.queue
    ensures s.numbers <= InitSpec(s, d, n, tip, fetch).state.numbers
    ensures InitSpec(s, d, n, tip, fetch).outcome == Ok <==>
      !tip.failed && forall j :: tip.value - (d + n) <= j < tip.value - d ==> fetch(j).Some?
    ensures var st := InitSpec(s, d, n, tip, fetch);
      st.outcome == Ok ==>
        && |st.state.queue| == |s.queue| + n
        && st.state.numbers == s.numbers + Range(tip.value - (d + n), n)
  {
    if !tip.failed {
      var lo := tip.value - (d + n);
      AppendLabelled(s.(latest := tip.value), fetch, lo, n);
      FetchRunComplete(fetch, lo, n);
    }
  }

  /** From an empty queue, a successful Init leaves the sentry holding exactly
      the window GetLatestBlockData reports, each entry the block of its number. */
  lemma InitEstablishesWindow(s: Snapshot, d: nat, n: nat, tip: LatestBlock, fetch: Fetcher)
    requires s.queue == [] && s.numbers == []
    requires InitSpec(s, d, n, tip, fetch).outcome == Ok
    ensures Window(InitSpec(s, d, n, tip, fetch).state, d, n)
    ensures Labelled(InitSpec(s, d, n, tip, fetch).state, fetch)
  {
    InitSpecEffect(s, d, n, tip, fetch);
  }

  // ---------------------------------------------------------------- GetLatestBlockData

  /** What GetLatestBlockData reports for a window that is where it should be:
      the tip, and for each of the n finalized numbers below tip-d the hash of
      the very block the chain gives for that number. */
  lemma LatestDataOfWindow(s: Snapshot, d: nat, n: nat, fetch: Fetcher)
    requires Window(s, d, n) && Labelled(s, fetch)
    ensures LatestData(s, d, n).BlockData? && LatestData(s, d, n).tip == s.latest
    ensures forall key :: key in LatestData(s, d, n).hashes <==> s.latest - d - n <= key < s.latest - d
    ensures forall key :: key in LatestData(s, d, n).hashes ==>
      fetch(key).Some? && LatestData(s, d, n).hashes[key] == HashOf(fetch(key).value)
  {
    var base := s.latest - d - n;
    HashMapSpec(s.queue, base, n);
    forall key | key in LatestData(s, d, n).hashes
      ensures fetch(key).Some? && LatestData(s, d, n).hashes[key] == HashOf(fetch(key).value)
    {
      var i := key - base;
      assert s.numbers[i] == key;
    }
  }

  // ---------------------------------------------------------------- catch-up as written

  /** A tip equal to the recorded one changes neither the queue nor the tip. */
  lemma CatchupUnchanged(s: Snapshot, latest: int, fetch: Fetcher)
    requires latest == s.latest
    ensures CatchupSpec(s, latest, fetch) == Step(s, Ok)
  {
  }

  /** A tip that went below the recorded one: the loop fetches nothing and the
      slice by a negative count panics. */
  lemma CatchupRegressionPanics(s: Snapshot, latest: int, fetch: Fetcher)
    requires latest < s.latest
    ensures CatchupSpec(s, latest, fetch) == Step(s, Panicked)
  {
    var f := FetchRun(fetch, s.latest + 1, 0);
    assert s.queue + f.blocks == s.queue && s.numbers + Range(s.latest + 1, 0) == s.numbers;
  }

  /** A failed tip read is taken as tip -1, so for any recorded tip that is
      not negative the catch-up panics on a negative slice index. */
  lemma CatchupTipFailurePanics(s: Snapshot, fetch: Fetcher)
    requires s.latest >= 0
    ensures CatchupSpec(s, FetchLatestBlockNum(ReplyFailed).value, fetch) == Step(s, Panicked)
  {
    CatchupRegressionPanics(s, -1, fetch);
  }

  /** A tip that advanced by k: the catch-up succeeds exactly when the blocks
      prev+1 .. latest are all fetched, and then it has appended them and
      dropped the k oldest entries, so the queue keeps its length. */
  lemma CatchupAdvance(s: Snapshot, latest: int, fetch: Fetcher)
    requires |s.queue| == |s.numbers|
    requires latest > s.latest
    ensures CatchupSpec(s, latest, fetch).outcome == Ok <==>
      forall j :: s.latest + 1 <= j < latest + 1 ==> fetch(j).Some?
    ensures CatchupSpec(s, latest, fetch).outcome != Panicked
    ensures var k := latest - s.latest;
      var st := CatchupSpec(s, latest, fetch).state;
      CatchupSpec(s, latest, fetch).outcome == Ok ==>
        && st.latest == latest && |st.queue| == |s.queue|
        && st.queue == (s.queue + FetchRun(fetch, s.latest + 1, k).blocks)[k..]
        && st.numbers == (s.numbers + Range(s.latest + 1, k))[k..]
  {
    FetchRunComplete(fetch, s.latest + 1, latest - s.latest);
  }

  /** Catch-up as written keeps every entry the block of the number it was
      requested under. */
  lemma CatchupLabelled(s: Snapshot, latest: int, fetch: Fetcher)
    requires Labelled(s, fetch)
    ensures Labelled(CatchupSpec(s, latest, fetch).state, fetch)
  {
    if latest < s.latest {
      CatchupRegressionPanics(s, latest, fetch);
    } else if latest > s.latest {
      var k := latest - s.latest;
      var f := FetchRun(fetch, s.latest + 1, k);
      AppendLabelled(s, fetch, s.latest + 1, k);
      if f.complete {
        DropLabelled(Append(s, s.latest + 1, f), latest, k, fetch);
      }
    }
  }

  /** A chain whose block n carries as its hash the text of its number. */
  function NumberedChain(n: int): Option<Block>
  {
    Some(Block(map["hash" := NumberParam(BlockRequest(n))]))
  }

  /** NumberedChain gives distinct blocks distinct hashes. */
  lemma NumberedHashesDiffer(a: int, b: int)
    requires a != b
    ensures HashOf(NumberedChain(a).value) != HashOf(NumberedChain(b).value)
  {
    if HashOf(NumberedChain(a).value) == HashOf(NumberedChain(b).value) {
      assert NumberParam(BlockRequest(a)) == NumberParam(BlockRequest(b));
      assert FormatHex(a) == NumberParam(BlockRequest(a))[2..];
      assert FormatHex(b) == NumberParam(BlockRequest(b))[2..];
      FormatHexRoundTrip(a);
      FormatHexRoundTrip(b);
    }
  }

  /** The window of tip 100 for d = 7 and n = 3: blocks 90, 91 and 92. */
  function Window100(fetch: Fetcher): Snapshot
    requires fetch(90).Some? && fetch(91).Some? && fetch(92).Some?
  {
    Snapshot(100, [fetch(90).value, fetch(91).value, fetch(92).value], [90, 91, 92])
  }

  /** Catch-up as written, from the window of tip 100 to tip 101, on any chain
      where blocks 93 and 101 have different hashes (NumberedChain is one): it
      appends block 101, so GetLatestBlockData then reports block 101's hash
      under the number 93. */
  lemma CatchupMislabels(fetch: Fetcher)
    requires fetch(90).Some? && fetch(91).Some? && fetch(92).Some? && fetch(93).Some? && fetch(101).Some?
    requires HashOf(fetch(101).value) != HashOf(fetch(93).value)
    ensures Window(Window100(fetch), 7, 3) && Labelled(Window100(fetch), fetch)
    ensures CatchupSpec(Window100(fetch), 101, fetch).outcome == Ok
    ensures CatchupSpec(Window100(fetch), 101, fetch).state.numbers == [91, 92, 101]
    ensures !Window(CatchupSpec(Window100(fetch), 101, fetch).state, 7, 3)
    ensures var r := LatestData(CatchupSpec(Window100(fetch), 101, fetch).state, 7, 3);
      r.BlockData? && 93 in r.hashes && r.hashes[93] == HashOf(fetch(101).value)
      && r.hashes[93] != HashOf(fetch(93).value)
  {
    var s := Window100(fetch);
    assert FetchRun(fetch, 101, 1).blocks == [fetch(101).value];
    CatchupAdvance(s, 101, fetch);
    var st := CatchupSpec(s, 101, fetch).state;
    assert st.queue == [fetch(91).value, fetch(92).value, fetch(101).value];
    assert st.numbers == [91, 92, 101];
    assert st.numbers[2] != st.latest - 7 - 3 + 2;
    HashMapSpec(st.queue, 101 - 7 - 3, 3);
    assert LatestData(st, 7, 3).hashes[91 + 2] == HashOf(st.queue[2]);
  }

  /** NumberedChain meets CatchupMislabels' requirements. */
  lemma NumberedChainMislabels()
    ensures !Window(CatchupSpec(Window100(NumberedChain), 101, NumberedChain).state, 7, 3)
  {
    NumberedHashesDiffer(101, 93);
    CatchupMislabels(NumberedChain);
  }

  // ---------------------------------------------------------------- catch-up corrected

  /** Appending the k numbers after a window of n and dropping the first k
      gives the window of the tip k higher. */
  lemma WindowShift(s: Snapshot, d: nat, n: nat, k: nat, queue: seq<Block>)
    requires Window(s, d, n) && |queue| == n + k
    ensures Window(DropOldest(Snapshot(s.latest, queue, s.numbers + Range(s.latest - d, k)), s.latest + k, k), d, n)
  {
    var numbers := s.numbers + Range(s.latest - d, k);
    var t := DropOldest(Snapshot(s.latest, queue, numbers), s.latest + k, k);
    forall i | 0 <= i < n
      ensures t.numbers[i] == t.latest - d - n + i
    {
      assert t.numbers[i] == numbers[k + i];
      if k + i >= n {
        assert numbers[k + i] == Range(s.latest - d, k)[k + i - n];
      }
    }
  }

  /** The corrected catch-up never panics, never moves the tip back, and keeps
      every entry the block of its number; when the tip advanced and the fetch
      loop finished, it records the new tip; a failed reading or a tip that
      did not advance leaves the sentry as it is. */
  lemma CatchupFixedSafe(s: Snapshot, d: nat, tip: LatestBlock, fetch: Fetcher)
    requires Labelled(s, fetch)
    ensures CatchupFixedSpec(s, d, tip, fetch).outcome != Panicked
    ensures Labelled(CatchupFixedSpec(s, d, tip, fetch).state, fetch)
    ensures CatchupFixedSpec(s, d, tip, fetch).state.latest >= s.latest
    ensures !tip.failed && tip.value > s.latest && CatchupFixedSpec(s, d, tip, fetch).outcome == Ok ==>
      CatchupFixedSpec(s, d, tip, fetch).state.latest == tip.value
    ensures tip.failed || tip.value <= s.latest ==> CatchupFixedSpec(s, d, tip, fetch) == Step(s, Ok)
  {
    if !tip.failed && tip.value > s.latest {
      var k: nat := tip.value - s.latest;
      var lo := s.latest - d;
      var f := FetchRun(fetch, lo, k);
      AppendLabelled(s, fetch, lo, k);
      var grown := Append(s, lo, f);
      if f.complete {
        DropLabelled(grown, tip.value, k, fetch);
        assert CatchupFixedSpec(s, d, tip, fetch) == Step(DropOldest(grown, tip.value, k), Ok);
      } else {
        assert CatchupFixedSpec(s, d, tip, fetch) == Step(grown, Fatal);
      }
    }
  }

  /** A successful corrected catch-up moves a window that is where it should
      be to the new tip. */
  lemma CatchupFixedKeepsWindow(s: Snapshot, d: nat, n: nat, tip: LatestBlock, fetch: Fetcher)
    requires Window(s, d, n)
    requires CatchupFixedSpec(s, d, tip, fetch).outcome == Ok
    ensures Window(CatchupFixedSpec(s, d, tip, fetch).state, d, n)
  {
    if !tip.failed && tip.value > s.latest {
      var k: nat := tip.value - s.latest;
      var lo := s.latest - d;
      var grown := Append(s, lo, FetchRun(fetch, lo, k));
      WindowShift(s, d, n, k, grown.queue);
    }
  }

  /** Start's poll loop as written: one catch-up per reply the block-number
      query gets, against the same chain, until one is fatal or panics. */
  function PollsAsWritten(s: Snapshot, fetch: Fetcher, replies: seq<BlockNumberReply>): Step
    decreases |replies|
  {
    if replies == [] then Step(s, Ok)
    else
      var st := CatchupSpec(s, FetchLatestBlockNum(replies[0]).value, fetch);
      if st.outcome != Ok then st else PollsAsWritten(st.state, fetch, replies[1..])
  }

  /** Polling as written panics, from any state with a tip that is not
      negative, as soon as the first tip reading fails, whatever follows. */
  lemma PollsAsWrittenPanics(s: Snapshot, fetch: Fetcher, replies: seq<BlockNumberReply>)
    requires s.latest >= 0 && replies != [] && replies[0] == ReplyFailed
    ensures PollsAsWritten(s, fetch, replies) == Step(s, Panicked)
  {
    CatchupTipFailurePanics(s, fetch);
  }

  /** The sentry's poll loop with the corrected catch-up in place of the one
      Start calls: one catch-up per reply the block-number query gets, against
      the same chain, until one is fatal. */
  function Polls(s: Snapshot, d: nat, fetch: Fetcher, replies: seq<BlockNumberReply>): Step
    decreases |replies|
  {
    if replies == [] then Step(s, Ok)
    else
      var st := CatchupFixedSpec(s, d, FetchLatestBlockNum(replies[0]), fetch);
      if st.outcome != Ok then st else Polls(st.state, d, fetch, replies[1..])
  }

  /** However the tip replies go, polling with the corrected catch-up never
      panics and, while no fetch is fatal, keeps the window where
      GetLatestBlockData says it is. */
  lemma {:induction false} PollsKeepWindow(s: Snapshot, d: nat, n: nat, fetch: Fetcher,
                                           replies: seq<BlockNumberReply>)
    requires Window(s, d, n) && Labelled(s, fetch)
    ensures Polls(s, d, fetch, replies).outcome != Panicked
    ensures Labelled(Polls(s, d, fetch, replies).state, fetch)
    ensures Polls(s, d, fetch, replies).outcome == Ok ==> Window(Polls(s, d, fetch, replies).state, d, n)
    decreases |replies|
  {
    if replies != [] {
      var tip := FetchLatestBlockNum(replies[0]);
      CatchupFixedSafe(s, d, tip, fetch);
      var st := CatchupFixedSpec(s, d, tip, fetch);
      if st.outcome == Ok {
        CatchupFixedKeepsWindow(s, d, n, tip, fetch);
        PollsKeepWindow(st.state, d, n, fetch, replies[1..]);
      }
    }
  }
}
