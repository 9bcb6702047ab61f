/**
 * The relayer's chain sentry (relayer/chainsentry/chainsentry.go): it keeps
 * the chain's latest block number and a queue of block records that is meant
 * to hold the newest finalized blocks. The JSON-RPC chain proxy is an
 * Endpoint: the reply to the block-number query, and a function from the
 * eth_getBlockByNumber call to the block record it fetches (None for any
 * failure).
 */
module ChainSentry {
  import opened Wrappers

  const DefaultNumFinalBlocks := 3
  const DefaultNumSavedBlocks := 7

  const MinInt64 := -0x8000_0000_0000_0000
  const MaxInt64 := 0x7fff_ffff_ffff_ffff

  /** A block record as JSON decodes it; only its "hash" entry is used. */
  datatype Block = Block(fields: map<string, string>)

  /** The value the sentry reports for a block: the "hash" entry, or Go's nil. */
  function HashOf(b: Block): Option<string>
  {
    if "hash" in b.fields then Some(b.fields["hash"]) else None
  }

  // ---------------------------------------------------------------- the chain proxy

  /** The reply to eth_blockNumber: the request failed (building it, sending it,
      or decoding the JSON envelope), the result did not parse as an integer, or
      it spelled this integer, of any size. */
  datatype BlockNumberReply = ReplyFailed | ReplyUnparsable | ReplyNumber(value: int)

  datatype Endpoint = Endpoint(blockNumber: BlockNumberReply, answer: BlockCall -> Option<Block>)

  datatype LatestBlock = LatestBlock(value: int, failed: bool)

  /** fetchLatestBlockNum: -1 with an error on a failed request; otherwise no
      error at all, 0 when the result does not parse and the nearest int64 when
      it is out of range, as strconv.ParseInt leaves them. */
  function FetchLatestBlockNum(reply: BlockNumberReply): (r: LatestBlock)
    ensures r.failed <==> reply.ReplyFailed?
    ensures r.failed ==> r.value == -1
    ensures MinInt64 <= r.value <= MaxInt64
    ensures reply.ReplyUnparsable? ==> r.value == 0
    ensures reply.ReplyNumber? && MinInt64 <= reply.value <= MaxInt64 ==> r.value == reply.value
    ensures reply.ReplyNumber? && reply.value > MaxInt64 ==> r.value == MaxInt64
    ensures reply.ReplyNumber? && reply.value < MinInt64 ==> r.value == MinInt64
  {
    match reply
    case ReplyFailed => LatestBlock(-1, true)
    case ReplyUnparsable => LatestBlock(0, false)
    case ReplyNumber(v) =>
      LatestBlock(if v > MaxInt64 then MaxInt64 else if v < MinInt64 then MinInt64 else v, false)
  }

  // ---------------------------------------------------------------- the block request

  /** The lower-case hexadecimal digit of a value below 16. */
  function HexDigit(v: nat): (c: char)
    requires v < 16
    ensures IsHexDigit(c)
  {
    if v < 10 then ('0' as int + v) as char else ('a' as int + v - 10) as char
  }

  predicate IsHexDigit(c: char)
  {
    '0' <= c <= '9' || 'a' <= c <= 'f'
  }

  /** The digits of v in lower-case hexadecimal, without leading zeros. */
  function HexDigits(v: nat): string
    decreases v
  {
    if v < 16 then [HexDigit(v)] else HexDigits(v / 16) + [HexDigit(v % 16)]
  }

  /** fmt's %x of an int64: a minus sign for a negative number, then the
      digits of its magnitude. */
  function FormatHex(n: int): string
  {
    if n < 0 then "-" + HexDigits(-n) else HexDigits(n)
  }

  /** The eth_getBlockByNumber call fetchBlockByNum makes, as the chain proxy
      parses it from the message text: the block number is its first parameter;
      the second (true, full transactions) is fixed. */
  datatype BlockCall = GetBlockByNumber(blockNum: int)

  function BlockRequest(blockNum: int): BlockCall
  {
    GetBlockByNumber(blockNum)
  }

  /** The first parameter as the message spells it: the number formatted with "0x%x". */
  function NumberParam(c: BlockCall): string
  {
    "0x" + FormatHex(c.blockNum)
  }

  const MessagePrefix := "{\"jsonrpc\":\"2.0\",\"method\":\"eth_getBlockByNumber\",\"params\":[\""
  const MessageSuffix := "\", true],\"id\":1}"

  /** The JSON-RPC text of a call, as the message template spells it. */
  function Message(c: BlockCall): string
  {
    MessagePrefix + NumberParam(c) + MessageSuffix
  }

  function HexValue(c: char): int
  {
    if '0' <= c <= '9' then c as int - '0' as int else c as int - 'a' as int + 10
  }

  /** Reads back a run of hexadecimal digits. */
  function ParseHex(s: string): int
  {
    if s == [] then 0 else ParseHex(s[..|s| - 1]) * 16 + HexValue(s[|s| - 1])
  }

  function ParseSignedHex(s: string): int
  {
    if s != [] && s[0] == '-' then -ParseHex(s[1..]) else ParseHex(s)
  }

  lemma {:induction false} HexDigitsShape(v: nat)
    ensures |HexDigits(v)| >= 1
    ensures forall k :: 0 <= k < |HexDigits(v)| ==> IsHexDigit(HexDigits(v)[k])
    ensures v > 0 ==> HexDigits(v)[0] != '0'
    ensures HexDigits(v)[0] != '-'
    decreases v
  {
    if v >= 16 {
      HexDigitsShape(v / 16);
      assert HexDigits(v)[0] == HexDigits(v / 16)[0];
    }
  }

  lemma {:induction false} HexRoundTrip(v: nat)
    ensures ParseHex(HexDigits(v)) == v
    decreases v
  {
    if v >= 16 {
      HexRoundTrip(v / 16);
      var s := HexDigits(v);
      assert s[..|s| - 1] == HexDigits(v / 16);
      assert HexValue(HexDigit(v % 16)) == v % 16;
    } else {
      assert HexValue(HexDigit(v)) == v;
    }
  }

  /** The number is formatted in a way it can be read back from. */
  lemma FormatHexRoundTrip(n: int)
    ensures ParseSignedHex(FormatHex(n)) == n
  {
    if n < 0 {
      HexRoundTrip(-n);
      assert FormatHex(n)[1..] == HexDigits(-n);
    } else {
      HexRoundTrip(n);
      HexDigitsShape(n);
    }
  }

  /** Distinct block numbers give distinct request texts: the text the proxy
      gets names the block number it was made for, and nothing else. */
  lemma BlockRequestInjective(a: int, b: int)
    requires Message(BlockRequest(a)) == Message(BlockRequest(b))
    ensures a == b
  {
    var p, q := |MessagePrefix|, |MessageSuffix|;
    var ma, mb := Message(BlockRequest(a)), Message(BlockRequest(b));
    assert NumberParam(BlockRequest(a)) == ma[p..|ma| - q];
    assert NumberParam(BlockRequest(b)) == mb[p..|mb| - q];
    assert FormatHex(a) == NumberParam(BlockRequest(a))[2..];
    assert FormatHex(b) == NumberParam(BlockRequest(b))[2..];
    FormatHexRoundTrip(a);
    FormatHexRoundTrip(b);
  }

  /** For a block number that is not negative, the parameter is "0x" followed by
      lower-case hexadecimal digits without leading zeros. */
  lemma BlockRequestFormat(n: nat)
    ensures NumberParam(BlockRequest(n)) == "0x" + HexDigits(n)
    ensures forall k :: 0 <= k < |HexDigits(n)| ==> IsHexDigit(HexDigits(n)[k])
    ensures n > 0 ==> HexDigits(n)[0] != '0'
  {
    HexDigitsShape(n);
  }

  /** fetchBlockByNum: the block record, or None where the source calls log.Fatalln. */
  function FetchBlockByNum(ep: Endpoint, blockNum: int): Option<Block>
  {
    ep.answer(BlockRequest(blockNum))
  }

  // ---------------------------------------------------------------- fetching a run of blocks

  /** What a block fetch returns for each block number. */
  type Fetcher = int -> Option<Block>

  function Blocks(ep: Endpoint): Fetcher
  {
    n => FetchBlockByNum(ep, n)
  }

  /** The blocks a fetch loop got, and whether it got all it asked for. */
  datatype Fetched = Fetched(blocks: seq<Block>, complete: bool)

  /** Fetches blocks lo, lo + 1, ... until count are fetched or one fails. */
  function FetchRun(fetch: Fetcher, lo: int, count: nat): (r: Fetched)
    ensures |r.blocks| <= count && (r.complete <==> |r.blocks| == count)
    decreases count
  {
    if count == 0 then Fetched([], true)
    else match fetch(lo)
      case None => Fetched([], false)
      case Some(b) =>
        var rest := FetchRun(fetch, lo + 1, count - 1);
        Fetched([b] + rest.blocks, rest.complete)
  }

  /** FetchRun gets the blocks in order, each the block its own number was
      requested under, and stops at the first failure. */
  lemma {:induction false} FetchRunSpec(fetch: Fetcher, lo: int, count: nat)
    ensures forall k :: 0 <= k < |FetchRun(fetch, lo, count).blocks| ==>
      fetch(lo + k) == Some(FetchRun(fetch, lo, count).blocks[k])
    ensures !FetchRun(fetch, lo, count).complete ==>
      fetch(lo + |FetchRun(fetch, lo, count).blocks|) == None
    decreases count
  {
    if count > 0 && fetch(lo).Some? {
      FetchRunSpec(fetch, lo + 1, count - 1);
      var r := FetchRun(fetch, lo, count);
      var rest := FetchRun(fetch, lo + 1, count - 1);
      forall k | 0 <= k < |r.blocks|
        ensures fetch(lo + k) == Some(r.blocks[k])
      {
        if k > 0 {
          assert r.blocks[k] == rest.blocks[k - 1];
        }
      }
    }
  }

  /** One more step of a fetch loop that has not failed yet: either it gets
      one more block, or it fails there. */
  lemma {:induction false} FetchRunSnoc(fetch: Fetcher, lo: int, count: nat, b: Option<Block>)
    requires FetchRun(fetch, lo, count).complete && fetch(lo + count) == b
    ensures b.Some? ==> FetchRun(fetch, lo, count + 1).complete
    ensures b.Some? ==> FetchRun(fetch, lo, count + 1).blocks == FetchRun(fetch, lo, count).blocks + [b.value]
    ensures b.None? ==> !FetchRun(fetch, lo, count + 1).complete
    ensures b.None? ==> FetchRun(fetch, lo, count + 1).blocks == FetchRun(fetch, lo, count).blocks
    decreases count
  {
    if count > 0 {
      FetchRunSnoc(fetch, lo + 1, count - 1, b);
      var rest := FetchRun(fetch, lo + 1, count - 1);
      var first := fetch(lo).value;
      if b.Some? {
        assert [first] + (rest.blocks + [b.value]) == ([first] + rest.blocks) + [b.value];
      }
    }
  }

  /** A failed fetch ends the loop: asking for more changes nothing. */
  lemma {:induction false} FetchRunStops(fetch: Fetcher, lo: int, count: nat, more: nat)
    requires !FetchRun(fetch, lo, count).complete && count <= more
    ensures FetchRun(fetch, lo, more) == FetchRun(fetch, lo, count)
    decreases count
  {
    if fetch(lo).Some? {
      FetchRunStops(fetch, lo + 1, count - 1, more - 1);
    }
  }

  /** The numbers from lo, count of them, ascending. */
  function Range(lo: int, count: nat): (r: seq<int>)
    ensures |r| == count && forall k :: 0 <= k < count ==> r[k] == lo + k
    decreases count
  {
    if count == 0 then [] else [lo] + Range(lo + 1, count - 1)
  }

  // ---------------------------------------------------------------- the sentry's state as a value

  /** The tip, the queue, and for each queue entry the block number it was
      fetched under. */
  datatype Snapshot = Snapshot(latest: int, queue: seq<Block>, numbers: seq<int>)

  predicate WellLabelled(s: Snapshot)
  {
    |s.queue| == |s.numbers|
  }

  /** Init and catch-up either finish, exit the process through log.Fatalln, or
      panic on a slice index. */
  datatype RunOutcome = Ok | Fatal | Panicked

  datatype Step = Step(state: Snapshot, outcome: RunOutcome)

  /** The state after appending a fetch loop's blocks requested from lo on. */
  function Append(s: Snapshot, lo: int, f: Fetched): (r: Snapshot)
    ensures r.latest == s.latest
  {
    Snapshot(s.latest, s.queue + f.blocks, s.numbers + Range(lo, |f.blocks|))
  }

  /** Init, given the tip reading and the chain's blocks: a failed reading is
      fatal and changes nothing; otherwise the tip is recorded and the n blocks
      tip-(d+n) .. tip-d-1 are appended; a failed block fetch is fatal and
      leaves the blocks appended before it. */
  function InitSpec(s: Snapshot, d: nat, n: nat, tip: LatestBlock, fetch: Fetcher): Step
  {
    if tip.failed then Step(s, Fatal)
    else
      var lo := tip.value - (d + n);
      var f := FetchRun(fetch, lo, n);
      Step(Append(s.(latest := tip.value), lo, f), if f.complete then Ok else Fatal)
  }

  /** catchupOnFinalizedBlocks, given the tip reading (a failed one is only
      logged, and reads as -1) and the chain's blocks. An unchanged tip changes
      nothing. Otherwise the blocks prev+1 .. latest are appended (a failed
      fetch is fatal, leaving the blocks appended before it), the first
      latest-prev entries are dropped (a negative count panics) and the tip is
      recorded. */
  function CatchupSpec(s: Snapshot, latest: int, fetch: Fetcher): Step
  {
    var prev := s.latest;
    if prev == latest then Step(s, Ok)
    else
      var f := FetchRun(fetch, prev + 1, if latest > prev then latest - prev else 0);
      var grown := Append(s, prev + 1, f);
      if !f.complete then Step(grown, Fatal)
      else if latest < prev then Step(grown, Panicked)
      else Step(DropOldest(grown, latest, latest - prev), Ok)
  }

  /** The queue without its first k entries, under the new tip. */
  function DropOldest(s: Snapshot, latest: int, k: nat): (r: Snapshot)
    requires k <= |s.queue| && k <= |s.numbers|
    ensures r.latest == latest && |r.queue| == |s.queue| - k && |r.numbers| == |s.numbers| - k
  {
    Snapshot(latest, s.queue[k..], s.numbers[k..])
  }

  /** Catch-up as the window GetLatestBlockData reports calls for: a failed tip
      reading or a tip that did not advance leaves the sentry as it is;
      otherwise the finalized blocks prev-d .. latest-d-1 are appended (a failed
      fetch is fatal, leaving the blocks appended before it), the first
      latest-prev entries are dropped and the tip is recorded. */
  function CatchupFixedSpec(s: Snapshot, d: nat, tip: LatestBlock, fetch: Fetcher): Step
  {
    if tip.failed || tip.value <= s.latest then Step(s, Ok)
    else
      var k := tip.value - s.latest;
      var f := FetchRun(fetch, s.latest - d, k);
      var grown := Append(s, s.latest - d, f);
      if !f.complete then Step(grown, Fatal)
      else Step(DropOldest(grown, tip.value, k), Ok)
  }

  /** GetLatestBlockData's result: the tip and the hashes of the first n queue
      entries keyed tip-d-n+i, or an index-out-of-range panic. */
  datatype BlockData = BlockData(tip: int, hashes: map<int, Option<string>>) | IndexPanic

  /** The hashes of the first count queue entries, entry i under the key base + i. */
  function HashMap(queue: seq<Block>, base: int, count: nat): map<int, Option<string>>
    requires count <= |queue|
  {
    if count == 0 then map[] else HashMap(queue, base, count - 1)[base + count - 1 := HashOf(queue[count - 1])]
  }

  lemma {:induction false} HashMapSpec(queue: seq<Block>, base: int, count: nat)
    requires count <= |queue|
    ensures forall key :: key in HashMap(queue, base, count) <==> base <= key < base + count
    ensures forall i :: 0 <= i < count ==> HashMap(queue, base, count)[base + i] == HashOf(queue[i])
  {
    if count > 0 {
      HashMapSpec(queue, base, count - 1);
    }
  }

  /** GetLatestBlockData on a state. */
  function LatestData(s: Snapshot, d: nat, n: nat): BlockData
  {
    if |s.queue| < n then IndexPanic
    else BlockData(s.latest, HashMap(s.queue, s.latest - d - n, n))
  }

  /** What the sentry should hold: one entry per finalized block in
      tip-d-n .. tip-d-1, in ascending order, each fetched as the block of that
      number. Then every key GetLatestBlockData reports names its own block. */
  predicate Window(s: Snapshot, d: nat, n: nat)
  {
    && |s.queue| == n && |s.numbers| == n
    && forall i :: 0 <= i < n ==> s.numbers[i] == s.latest - d - n + i
  }

  // ---------------------------------------------------------------- the sentry

  class ChainSentry {
    const finalizedBlockDistance: nat
    const numFinalBlocks: nat
    var latestBlockNum: int
    var blocksQueue: seq<Block>
    /** The block number each queue entry was requested under. */
    ghost var numbers: seq<int>

    ghost predicate Valid()
      reads this
    {
      |numbers| == |blocksQueue|
    }

    ghost function Snap(): Snapshot
      reads this
    {
      Snapshot(latestBlockNum, blocksQueue, numbers)
    }

    /** NewChainSentry: the default distance and window size, an empty queue. */
    constructor ()
      ensures Valid()
      ensures finalizedBlockDistance == DefaultNumSavedBlocks && numFinalBlocks == DefaultNumFinalBlocks
      ensures latestBlockNum == 0 && blocksQueue == [] && numbers == []
    {
      finalizedBlockDistance := DefaultNumSavedBlocks;
      numFinalBlocks := DefaultNumFinalBlocks;
      latestBlockNum := 0;
      blocksQueue := [];
      numbers := [];
    }

    method GetLatestBlockNum() returns (v: int)
      ensures v == latestBlockNum
    {
      v := latestBlockNum;
    }

    method SetLatestBlockNum(value: int)
      modifies this`latestBlockNum
      ensures latestBlockNum == value
    {
      latestBlockNum := value;
    }

    /** GetLatestBlockData: the tip and, for i < n, the hash of queue entry i
      under the key tip-d-n+i; it panics when the queue is shorter than n. */
    method GetLatestBlockData() returns (r: BlockData)
      ensures r == LatestData(Snap(), finalizedBlockDistance, numFinalBlocks)
      ensures r.IndexPanic? <==> |blocksQueue| < numFinalBlocks
      ensures r.BlockData? ==> r.tip == latestBlockNum
      ensures r.BlockData? ==> forall key :: key in r.hashes <==>
        latestBlockNum - finalizedBlockDistance - numFinalBlocks <= key < latestBlockNum - finalizedBlockDistance
      ensures r.BlockData? ==> forall i :: 0 <= i < numFinalBlocks ==>
        r.hashes[latestBlockNum - finalizedBlockDistance - numFinalBlocks + i] == HashOf(blocksQueue[i])
    {
      var latest := GetLatestBlockNum();
      var base := latest - finalizedBlockDistance - numFinalBlocks;
      var hashes: map<int, Option<string>> := map[];
      var i := 0;
      while i < numFinalBlocks
        invariant 0 <= i <= numFinalBlocks && i <= |blocksQueue|
        invariant hashes == HashMap(blocksQueue, base, i)
      {
        if i >= |blocksQueue| {
          return IndexPanic;
        }
        hashes := hashes[base + i := HashOf(blocksQueue[i])];
        i := i + 1;
      }
      HashMapSpec(blocksQueue, base, numFinalBlocks);
      return BlockData(latest, hashes);
    }

    /** The fetch loop Init and catch-up share: request blocks lo, lo + 1, ...,
        count of them, appending each to the queue; a failed fetch stops it
        (log.Fatalln), keeping the blocks appended before. */
    method AppendRun(fetch: Fetcher, lo: int, count: nat) returns (complete: bool)
      requires Valid()
      modifies this`blocksQueue, this`numbers
      ensures Valid()
      ensures complete == FetchRun(fetch, lo, count).complete
      ensures blocksQueue == old(blocksQueue) + FetchRun(fetch, lo, count).blocks
      ensures numbers == old(numbers) + Range(lo, |FetchRun(fetch, lo, count).blocks|)
      ensures Snap() == Append(old(Snap()), lo, FetchRun(fetch, lo, count))
    {
      var j: nat := 0;
      while j < count
        invariant j <= count
        invariant FetchRun(fetch, lo, j).complete
        invariant blocksQueue == old(blocksQueue) + FetchRun(fetch, lo, j).blocks
        invariant numbers == old(numbers) + Range(lo, j)
      {
        var result := fetch(lo + j);
        FetchRunSnoc(fetch, lo, j, result);
        RangeSnoc(lo, j);
        if result.None? {
          FetchRunStops(fetch, lo, j + 1, count);
          return false;
        }
        blocksQueue := blocksQueue + [result.value];
        numbers := numbers + [lo + j];
        j := j + 1;
      }
      return true;
    }

    /** Init, proved against InitSpec. */
    method Init(ep: Endpoint) returns (outcome: RunOutcome)
      requires Valid()
      modifies this`latestBlockNum, this`blocksQueue, this`numbers
      ensures Valid()
      ensures Step(Snap(), outcome) ==
        InitSpec(old(Snap()), finalizedBlockDistance, numFinalBlocks, FetchLatestBlockNum(ep.blockNumber), Blocks(ep))
    {
      var latestBlock := FetchLatestBlockNum(ep.blockNumber);
      if latestBlock.failed {
        return Fatal;
      }
      SetLatestBlockNum(latestBlock.value);
      var lo := latestBlock.value - (finalizedBlockDistance + numFinalBlocks);
      var complete := AppendRun(Blocks(ep), lo, numFinalBlocks);
      if !complete {
        return Fatal;
      }
      return Ok;
    }

    /** catchupOnFinalizedBlocks, proved against CatchupSpec. */
    method CatchupOnFinalizedBlocks(ep: Endpoint) returns (outcome: RunOutcome)
      requires Valid()
      modifies this`latestBlockNum, this`blocksQueue, this`numbers
      ensures Valid()
      ensures Step(Snap(), outcome) == CatchupSpec(old(Snap()), FetchLatestBlockNum(ep.blockNumber).value, Blocks(ep))
    {
      var latestBlock := FetchLatestBlockNum(ep.blockNumber);
      var latest := latestBlock.value;
      if latestBlockNum != latest {
        var prev := GetLatestBlockNum();
        var count: nat := if latest > prev then latest - prev else 0;
        var complete := AppendRun(Blocks(ep), prev + 1, count);
        ghost var grown := Snap();
        if !complete {
          return Fatal;
        }
        var k := latest - prev;
        if k < 0 {
          return Panicked;
        }
        blocksQueue := blocksQueue[k..];
        numbers := numbers[k..];
        latestBlockNum := latest;
        assert Snap() == DropOldest(grown, latest, k);
      }
      return Ok;
    }

    /** catchupOnFinalizedBlocks corrected, proved against CatchupFixedSpec. */
    method CatchupFixed(ep: Endpoint) returns (outcome: RunOutcome)
      requires Valid()
      modifies this`latestBlockNum, this`blocksQueue, this`numbers
      ensures Valid()
      ensures Step(Snap(), outcome) ==
        CatchupFixedSpec(old(Snap()), finalizedBlockDistance, FetchLatestBlockNum(ep.blockNumber), Blocks(ep))
    {
      var latestBlock := FetchLatestBlockNum(ep.blockNumber);
      if latestBlock.failed {
        return Ok;
      }
      var latest := latestBlock.value;
      var prev := GetLatestBlockNum();
      if latest <= prev {
        return Ok;
      }
      var k := latest - prev;
      var complete := AppendRun(Blocks(ep), prev - finalizedBlockDistance, k);
      ghost var grown := Append(old(Snap()), prev - finalizedBlockDistance,
                                FetchRun(Blocks(ep), prev - finalizedBlockDistance, k));
      assert Snap() == grown;
      if !complete {
        return Fatal;
      }
      blocksQueue := blocksQueue[k..];
      numbers := numbers[k..];
      latestBlockNum := latest;
      assert Snap() == DropOldest(grown, latest, k);
      return Ok;
    }
  }

  lemma RangeSnoc(lo: int, count: nat)
    ensures Range(lo, count + 1) == Range(lo, count) + [lo + count]
  {
  }
}
