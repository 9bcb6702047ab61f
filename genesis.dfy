/**
 * The subscription module's GenesisState and its generated protobuf codec
 * (x/subscription/types/genesis.pb.go): Size, Marshal, MarshalToSizedBuffer
 * and Unmarshal. The five singular fields and the repeated Adjustments field
 * are all length-delimited messages whose own definitions live elsewhere;
 * each is carried here as the bytes of its encoding (a payload), so that its
 * Size is the payload length, its MarshalToSizedBuffer is a copy, and its
 * Unmarshal merges by appending bytes, since decoding the concatenation of
 * two encodings of a message is the protobuf meaning of merging them.
 */
module Genesis {
  import opened Wrappers
  import opened GenesisVarint
  import opened GenesisSkip

  /** The encoding of a nested message. */
  type Payload = seq<byte>

  datatype GenesisState = GenesisState(
    params: Payload,       // field 1, Params
    subsFS: Payload,       // field 2, fixationstore GenesisState
    subsTS: Payload,       // field 3, timerstore GenesisState
    cuTrackerFS: Payload,  // field 4, fixationstore GenesisState
    cuTrackerTS: Payload,  // field 5, timerstore GenesisState
    adjustments: seq<Payload>)  // field 6, repeated Adjustment

  const Empty := GenesisState([], [], [], [], [], [])

  /** Go slices hold fewer than 2^63 elements. */
  predicate Fits(m: GenesisState)
  {
    && |m.params| < Two63 && |m.subsFS| < Two63 && |m.subsTS| < Two63
    && |m.cuTrackerFS| < Two63 && |m.cuTrackerTS| < Two63
    && forall k :: 0 <= k < |m.adjustments| ==> |m.adjustments[k]| < Two63
  }

  // ---------------------------------------------------------------- the wire format

  /** One length-delimited field: its number and its payload. */
  datatype Chunk = Chunk(fieldNum: int, payload: Payload)

  /** The key byte of a length-delimited field: field << 3 | 2. */
  function Key(fieldNum: int): int
  {
    fieldNum * 8 + 2
  }

  /** The bytes of one field: its key, the varint of the payload length, the payload. */
  function EncodeChunk(c: Chunk): seq<byte>
    requires 1 <= c.fieldNum <= 6
  {
    [Key(c.fieldNum)] + VarintBytes(|c.payload|) + c.payload
  }

  predicate Numbered(cs: seq<Chunk>)
  {
    forall k :: 0 <= k < |cs| ==> 1 <= cs[k].fieldNum <= 6
  }

  function EncodeChunks(cs: seq<Chunk>): seq<byte>
    requires Numbered(cs)
  {
    if cs == [] then [] else EncodeChunk(cs[0]) + EncodeChunks(cs[1..])
  }

  function AdjustmentChunks(adjs: seq<Payload>): (cs: seq<Chunk>)
    ensures |cs| == |adjs|
    ensures forall k :: 0 <= k < |cs| ==> cs[k] == Chunk(6, adjs[k])
  {
    if adjs == [] then [] else [Chunk(6, adjs[0])] + AdjustmentChunks(adjs[1..])
  }

  /** The fields in the order MarshalToSizedBuffer leaves them in the buffer. */
  function Chunks(m: GenesisState): (cs: seq<Chunk>)
    ensures Numbered(cs)
  {
    [Chunk(1, m.params), Chunk(2, m.subsFS), Chunk(3, m.subsTS),
     Chunk(4, m.cuTrackerFS), Chunk(5, m.cuTrackerTS)] + AdjustmentChunks(m.adjustments)
  }

  function Encode(m: GenesisState): seq<byte>
  {
    EncodeChunks(Chunks(m))
  }

  /** The fields come out in ascending tag order: keys 0x0a, 0x12, 0x1a, 0x22,
      0x2a, then one 0x32 per adjustment, the adjustments in their own order. */
  lemma FieldOrder(m: GenesisState)
    ensures |Chunks(m)| == 5 + |m.adjustments|
    ensures Key(Chunks(m)[0].fieldNum) == 0x0a && Key(Chunks(m)[1].fieldNum) == 0x12
    ensures Key(Chunks(m)[2].fieldNum) == 0x1a && Key(Chunks(m)[3].fieldNum) == 0x22
    ensures Key(Chunks(m)[4].fieldNum) == 0x2a
    ensures forall k :: 0 <= k < |m.adjustments| ==>
      Key(Chunks(m)[5 + k].fieldNum) == 0x32 && Chunks(m)[5 + k].payload == m.adjustments[k]
    ensures forall a, b :: 0 <= a < b < |Chunks(m)| ==> Chunks(m)[a].fieldNum <= Chunks(m)[b].fieldNum
  {
  }

  lemma {:induction false} EncodeChunksAppend(a: seq<Chunk>, b: seq<Chunk>)
    requires Numbered(a) && Numbered(b)
    ensures Numbered(a + b)
    ensures EncodeChunks(a + b) == EncodeChunks(a) + EncodeChunks(b)
  {
    if a != [] {
      assert (a + b)[1..] == a[1..] + b;
      EncodeChunksAppend(a[1..], b);
    } else {
      assert a + b == b;
    }
  }

  // ---------------------------------------------------------------- Size

  /** The size Size adds for one field: 1 + l + sov(l). */
  function ChunkSize(c: Chunk): nat
  {
    1 + |c.payload| + |VarintBytes(|c.payload|)|
  }

  function SizeSum(cs: seq<Chunk>): nat
  {
    if cs == [] then 0 else ChunkSize(cs[0]) + SizeSum(cs[1..])
  }

  lemma {:induction false} SizeSumIsLength(cs: seq<Chunk>)
    requires Numbered(cs)
    ensures SizeSum(cs) == |EncodeChunks(cs)|
  {
    if cs != [] {
      SizeSumIsLength(cs[1..]);
    }
  }

  lemma {:induction false} SizeSumAppend(a: seq<Chunk>, b: seq<Chunk>)
    ensures SizeSum(a + b) == SizeSum(a) + SizeSum(b)
  {
    if a != [] {
      assert (a + b)[1..] == a[1..] + b;
      SizeSumAppend(a[1..], b);
    } else {
      assert a + b == b;
    }
  }

  /** Size: for each field 1 + l + sovGenesis(l), summed in a loop over the
      adjustments; it is the length of the encoding. */
  method Size(m: GenesisState) returns (n: int)
    requires Fits(m)
    ensures n == SizeSum(Chunks(m)) == |Encode(m)|
  {
    var l := |m.params|;
    n := 1 + l + Sov(l);
    l := |m.subsFS|;
    n := n + 1 + l + Sov(l);
    l := |m.subsTS|;
    n := n + 1 + l + Sov(l);
    l := |m.cuTrackerFS|;
    n := n + 1 + l + Sov(l);
    l := |m.cuTrackerTS|;
    n := n + 1 + l + Sov(l);
    ghost var singular := SingularSize(m);
    assert singular + AdjustmentChunks(m.adjustments[..0]) == singular;
    var k := 0;
    while k < |m.adjustments|
      invariant 0 <= k <= |m.adjustments|
      invariant n == SizeSum(singular + AdjustmentChunks(m.adjustments[..k]))
    {
      l := |m.adjustments[k]|;
      SizeStep(singular, m.adjustments, k);
      n := n + 1 + l + Sov(l);
      k := k + 1;
    }
    assert m.adjustments[..k] == m.adjustments;
    SizeSumIsLength(Chunks(m));
  }

  /** The five singular fields contribute 1 + l + sov(l) each. */
  lemma SingularSize(m: GenesisState) returns (singular: seq<Chunk>)
    requires Fits(m)
    ensures Chunks(m) == singular + AdjustmentChunks(m.adjustments)
    ensures SizeSum(singular)
         == (1 + |m.params| + Sov(|m.params|)) + (1 + |m.subsFS| + Sov(|m.subsFS|))
          + (1 + |m.subsTS| + Sov(|m.subsTS|)) + (1 + |m.cuTrackerFS| + Sov(|m.cuTrackerFS|))
          + (1 + |m.cuTrackerTS| + Sov(|m.cuTrackerTS|))
  {
    var a, b, c, d, e :=
      Chunk(1, m.params), Chunk(2, m.subsFS), Chunk(3, m.subsTS), Chunk(4, m.cuTrackerFS), Chunk(5, m.cuTrackerTS);
    singular := [a, b, c, d, e];
    SizeSumCons(e, []);
    SizeSumCons(d, [e]);
    SizeSumCons(c, [d, e]);
    SizeSumCons(b, [c, d, e]);
    SizeSumCons(a, [b, c, d, e]);
    ChunkSizeSov(a);
    ChunkSizeSov(b);
    ChunkSizeSov(c);
    ChunkSizeSov(d);
    ChunkSizeSov(e);
  }

  lemma SizeSumCons(c: Chunk, cs: seq<Chunk>)
    ensures SizeSum([c] + cs) == ChunkSize(c) + SizeSum(cs)
  {
    assert ([c] + cs)[1..] == cs;
  }

  lemma ChunkSizeSov(c: Chunk)
    requires |c.payload| < Two64
    ensures ChunkSize(c) == 1 + |c.payload| + Sov(|c.payload|)
  {
    SovIsVarintLength(|c.payload|);
  }

  lemma SizeStep(singular: seq<Chunk>, adjs: seq<Payload>, k: nat)
    requires k < |adjs| && |adjs[k]| < Two64
    ensures SizeSum(singular + AdjustmentChunks(adjs[..k + 1]))
         == SizeSum(singular + AdjustmentChunks(adjs[..k])) + 1 + |adjs[k]| + Sov(|adjs[k]|)
  {
    AdjustmentChunksSnoc(adjs, k);
    assert singular + AdjustmentChunks(adjs[..k + 1]) == (singular + AdjustmentChunks(adjs[..k])) + [Chunk(6, adjs[k])];
    SizeSumAppend(singular + AdjustmentChunks(adjs[..k]), [Chunk(6, adjs[k])]);
    ChunkSizeSov(Chunk(6, adjs[k]));
  }

  lemma AdjustmentChunksSnoc(adjs: seq<Payload>, k: nat)
    requires k < |adjs|
    ensures AdjustmentChunks(adjs[..k + 1]) == AdjustmentChunks(adjs[..k]) + [Chunk(6, adjs[k])]
  {
  }

  // ---------------------------------------------------------------- Marshal

  /** The MarshalToSizedBuffer of a nested message: its payload, written so
      that it ends at index i; it returns the payload length. */
  method MarshalPayload(p: Payload, dAtA: array<byte>, i: int) returns (size: int)
    requires |p| <= i <= dAtA.Length
    modifies dAtA
    ensures size == |p|
    ensures dAtA[i - size..i] == p
    ensures forall k :: 0 <= k < dAtA.Length && !(i - size <= k < i) ==> dAtA[k] == old(dAtA[k])
  {
    size := |p|;
    forall k | 0 <= k < size {
      dAtA[i - size + k] := p[k];
    }
  }

  /** One field written backward: payload, then its length, then its key. */
  method PutChunk(c: Chunk, dAtA: array<byte>, i: int) returns (i': int)
    requires 1 <= c.fieldNum <= 6 && |c.payload| < Two63
    requires |EncodeChunk(c)| <= i <= dAtA.Length
    modifies dAtA
    ensures i' == i - |EncodeChunk(c)|
    ensures dAtA[i'..i] == EncodeChunk(c)
    ensures forall k :: 0 <= k < dAtA.Length && !(i' <= k < i) ==> dAtA[k] == old(dAtA[k])
  {
    var size := MarshalPayload(c.payload, dAtA, i);
    var j := i - size;
    ghost var payloadAt := j;
    ghost var afterPayload := dAtA[..];
    SovIsVarintLength(size);
    j := EncodeVarint(dAtA, j, size);
    ghost var afterLength := dAtA[..];
    SameSlice(afterPayload, afterLength, payloadAt, i, j, payloadAt);
    j := j - 1;
    dAtA[j] := Key(c.fieldNum);
    i' := j;
    SameSlice(afterLength, dAtA[..], j + 1, i, j, j + 1);
    ChunkBytes(dAtA[..], c, i', payloadAt, i);
  }

  /** Writes outside [lo, hi) leave the slice [a, b) alone when the two do not meet. */
  lemma SameSlice(before: seq<byte>, after: seq<byte>, a: int, b: int, lo: int, hi: int)
    requires |before| == |after| && 0 <= lo <= hi <= a <= b <= |before|
    requires forall k :: 0 <= k < |after| && !(lo <= k < hi) ==> after[k] == before[k]
    ensures after[a..b] == before[a..b]
  {
  }

  lemma ChunkBytes(s: seq<byte>, c: Chunk, lo: nat, split: nat, hi: nat)
    requires 1 <= c.fieldNum <= 6
    requires lo < split <= hi <= |s|
    requires s[lo] == Key(c.fieldNum) && s[lo + 1..split] == VarintBytes(|c.payload|) && s[split..hi] == c.payload
    ensures s[lo..hi] == EncodeChunk(c)
  {
    assert s[lo..hi] == [s[lo]] + s[lo + 1..split] + s[split..hi];
  }

  /** One field written in front of the bytes already in the tail of the buffer. */
  method PutField(c: Chunk, dAtA: array<byte>, i: int, ghost tail: seq<byte>) returns (i': int)
    requires 1 <= c.fieldNum <= 6 && |c.payload| < Two63
    requires |EncodeChunk(c)| <= i <= dAtA.Length && dAtA[i..] == tail
    modifies dAtA
    ensures i' == i - |EncodeChunk(c)|
    ensures dAtA[i'..] == EncodeChunk(c) + tail
    ensures forall k :: 0 <= k < i' ==> dAtA[k] == old(dAtA[k])
  {
    i' := PutChunk(c, dAtA, i);
    assert dAtA[i'..] == dAtA[i'..i] + dAtA[i..];
  }

  lemma EncodeChunksCons(c: Chunk, cs: seq<Chunk>)
    requires 1 <= c.fieldNum <= 6 && Numbered(cs)
    ensures Numbered([c] + cs)
    ensures EncodeChunks([c] + cs) == EncodeChunk(c) + EncodeChunks(cs)
  {
    assert ([c] + cs)[1..] == cs;
  }

  /** The encoding as MarshalToSizedBuffer assembles it: fields 1 to 5, each in
      front of the rest, then the adjustments. */
  lemma EncodeLayout(m: GenesisState)
    ensures Encode(m)
         == EncodeChunk(Chunk(1, m.params)) + (EncodeChunk(Chunk(2, m.subsFS)) + (EncodeChunk(Chunk(3, m.subsTS))
          + (EncodeChunk(Chunk(4, m.cuTrackerFS)) + (EncodeChunk(Chunk(5, m.cuTrackerTS))
          + EncodeChunks(AdjustmentChunks(m.adjustments))))))
  {
    var adj := AdjustmentChunks(m.adjustments);
    var a, b, c, d, e :=
      Chunk(1, m.params), Chunk(2, m.subsFS), Chunk(3, m.subsTS), Chunk(4, m.cuTrackerFS), Chunk(5, m.cuTrackerTS);
    assert Chunks(m) == [a] + ([b] + ([c] + ([d] + ([e] + adj))));
    EncodeChunksCons(e, adj);
    EncodeChunksCons(d, [e] + adj);
    EncodeChunksCons(c, [d] + ([e] + adj));
    EncodeChunksCons(b, [c] + ([d] + ([e] + adj)));
    EncodeChunksCons(a, [b] + ([c] + ([d] + ([e] + adj))));
  }

  /** MarshalToSizedBuffer writes the fields backward from the end of dAtA,
      the adjustments last to first and then fields 5 down to 1, and returns
      the number of bytes written: the encoding ends up in the tail of the
      buffer and the bytes before it are untouched. */
  method MarshalToSizedBuffer(m: GenesisState, dAtA: array<byte>) returns (n: int)
    requires Fits(m) && |Encode(m)| <= dAtA.Length
    modifies dAtA
    ensures n == |Encode(m)|
    ensures dAtA[dAtA.Length - n..] == Encode(m)
    ensures dAtA[..dAtA.Length - n] == old(dAtA[..dAtA.Length - |Encode(m)|])
  {
    EncodeLayout(m);
    var i := PutAdjustments(m.adjustments, dAtA);
    i := PutField(Chunk(5, m.cuTrackerTS), dAtA, i, dAtA[i..]);
    i := PutField(Chunk(4, m.cuTrackerFS), dAtA, i, dAtA[i..]);
    i := PutField(Chunk(3, m.subsTS), dAtA, i, dAtA[i..]);
    i := PutField(Chunk(2, m.subsFS), dAtA, i, dAtA[i..]);
    i := PutField(Chunk(1, m.params), dAtA, i, dAtA[i..]);
    n := dAtA.Length - i;
    assert dAtA[..i] == old(dAtA[..i]);
  }

  /** The loop over the adjustments, last to first, at the end of the buffer. */
  method PutAdjustments(adjs: seq<Payload>, dAtA: array<byte>) returns (i: int)
    requires forall k :: 0 <= k < |adjs| ==> |adjs[k]| < Two63
    requires |EncodeChunks(AdjustmentChunks(adjs))| <= dAtA.Length
    modifies dAtA
    ensures i == dAtA.Length - |EncodeChunks(AdjustmentChunks(adjs))|
    ensures dAtA[i..] == EncodeChunks(AdjustmentChunks(adjs))
    ensures forall k :: 0 <= k < i ==> dAtA[k] == old(dAtA[k])
  {
    i := dAtA.Length;
    var k := |adjs|;
    assert adjs[k..] == [];
    while k > 0
      invariant 0 <= k <= |adjs| && 0 <= i
      invariant i + |EncodeChunks(AdjustmentChunks(adjs[k..]))| == dAtA.Length
      invariant dAtA[i..] == EncodeChunks(AdjustmentChunks(adjs[k..]))
      invariant forall j :: 0 <= j < i ==> dAtA[j] == old(dAtA[j])
    {
      AdjustmentsSplitAt(adjs, k - 1);
      AdjustmentsStep(adjs, k);
      i := PutField(Chunk(6, adjs[k - 1]), dAtA, i, dAtA[i..]);
      k := k - 1;
    }
    assert adjs[0..] == adjs;
  }

  lemma {:induction false} AdjustmentChunksAppend(a: seq<Payload>, b: seq<Payload>)
    ensures AdjustmentChunks(a + b) == AdjustmentChunks(a) + AdjustmentChunks(b)
  {
    if a != [] {
      assert (a + b)[1..] == a[1..] + b;
      AdjustmentChunksAppend(a[1..], b);
    } else {
      assert a + b == b;
    }
  }

  lemma AdjustmentsSplitAt(adjs: seq<Payload>, k: nat)
    requires k <= |adjs|
    ensures EncodeChunks(AdjustmentChunks(adjs))
         == EncodeChunks(AdjustmentChunks(adjs[..k])) + EncodeChunks(AdjustmentChunks(adjs[k..]))
  {
    assert adjs == adjs[..k] + adjs[k..];
    AdjustmentChunksAppend(adjs[..k], adjs[k..]);
    EncodeChunksAppend(AdjustmentChunks(adjs[..k]), AdjustmentChunks(adjs[k..]));
  }

  lemma AdjustmentsStep(adjs: seq<Payload>, k: nat)
    requires 0 < k <= |adjs|
    ensures EncodeChunks(AdjustmentChunks(adjs[k - 1..]))
         == EncodeChunk(Chunk(6, adjs[k - 1])) + EncodeChunks(AdjustmentChunks(adjs[k..]))
  {
    assert adjs[k - 1..][1..] == adjs[k..];
  }

  /** Marshal allocates Size() bytes and fills them all. */
  method Marshal(m: GenesisState) returns (data: seq<byte>)
    requires Fits(m)
    ensures data == Encode(m)
  {
    var size := Size(m);
    var dAtA := new byte[size];
    var n := MarshalToSizedBuffer(m, dAtA);
    assert dAtA[..n] == dAtA[size - n..];
    data := dAtA[..n];
  }

  // ---------------------------------------------------------------- Unmarshal

  /** Go's int32(x): the low 32 bits of x read as a two's complement number. */
  function Int32(x: nat): int
  {
    var low := x % 0x1_0000_0000;
    if low < 0x8000_0000 then low else low - 0x1_0000_0000
  }

  /** The Unmarshal of the nested messages: for a field number and the bytes
      handed to that field, the error the nested Unmarshal returns, if any. */
  type NestedCheck = (int, Payload) -> Option<Error>

  /** How a length-delimited field with number 1 to 6 is merged into the state. */
  function Merge(m: GenesisState, fieldNum: int, p: Payload): GenesisState
  {
    match fieldNum
    case 1 => m.(params := m.params + p)
    case 2 => m.(subsFS := m.subsFS + p)
    case 3 => m.(subsTS := m.subsTS + p)
    case 4 => m.(cuTrackerFS := m.cuTrackerFS + p)
    case 5 => m.(cuTrackerTS := m.cuTrackerTS + p)
    case _ => m.(adjustments := m.adjustments + [p])
  }

  /** The state when a nested Unmarshal fails: field 6 has already appended
      its empty Adjustment. */
  function MergeFailed(m: GenesisState, fieldNum: int): GenesisState
  {
    if fieldNum == 6 then m.(adjustments := m.adjustments + [[]]) else m
  }

  /** The state Unmarshal has built and the error it returns, if any. */
  datatype Outcome = Outcome(state: GenesisState, err: Option<Error>)

  /** What one turn of Unmarshal's loop does: go on from index next with the
      merged state, or stop with an outcome. */
  datatype Turn = Continue(next: nat, state: GenesisState) | Stop(outcome: Outcome)

  /** One turn of Unmarshal's loop at index i < |data|. */
  function FieldTurn(data: seq<byte>, i: nat, m: GenesisState, nested: NestedCheck): (t: Turn)
    requires i < |data|
    ensures t.Continue? ==> i < t.next <= |data|
  {
    match ReadVarint(data, i)
    case VarintErr(e) => Stop(Outcome(m, Some(e)))
    case VarintOk(wire, j) =>
      var fieldNum := Int32(wire / 8);
      var wireType := wire % 8;
      if wireType == 4 then Stop(Outcome(m, Some(ErrEndGroupForNonGroup)))
      else if fieldNum <= 0 then Stop(Outcome(m, Some(ErrIllegalTag(fieldNum, wire))))
      else if fieldNum <= 6 then
        if wireType != 2 then Stop(Outcome(m, Some(ErrWrongWireType(fieldNum, wireType))))
        else
          match ReadVarint(data, j)
          case VarintErr(e) => Stop(Outcome(m, Some(e)))
          case VarintOk(v, k) =>
            var msglen := ToInt64(v);
            if msglen < 0 then Stop(Outcome(m, Some(ErrInvalidLengthGenesis)))
            else if k + msglen >= Two63 then Stop(Outcome(m, Some(ErrInvalidLengthGenesis)))
            else if k + msglen > |data| then Stop(Outcome(m, Some(ErrUnexpectedEOF)))
            else
              var p := data[k..k + msglen];
              match nested(fieldNum, p)
              case Some(e) => Stop(Outcome(MergeFailed(m, fieldNum), Some(e)))
              case None => Continue(k + msglen, Merge(m, fieldNum, p))
      else
        match SkipFrom(data[i..], 0, 0)
        case SkipErr(e) => Stop(Outcome(m, Some(e)))
        case Skipped(s) =>
          if i + s >= Two63 then Stop(Outcome(m, Some(ErrInvalidLengthGenesis)))
          else if i + s > |data| then Stop(Outcome(m, Some(ErrUnexpectedEOF)))
          else Continue(i + s, m)
  }

  /** What is left of Unmarshal's loop from index i with state m so far. */
  function UnmarshalFrom(data: seq<byte>, i: nat, m: GenesisState, nested: NestedCheck): Outcome
    decreases |data| - i
  {
    if i >= |data| then
      if i > |data| then Outcome(m, Some(ErrUnexpectedEOF)) else Outcome(m, None)
    else
      match FieldTurn(data, i, m, nested)
      case Stop(o) => o
      case Continue(j, m') => UnmarshalFrom(data, j, m', nested)
  }

  /** Unmarshal merges the fields of dAtA into m, in the order they appear. */
  method Unmarshal(m: GenesisState, dAtA: seq<byte>, nested: NestedCheck)
    returns (m': GenesisState, err: Option<Error>)
    ensures Outcome(m', err) == UnmarshalFrom(dAtA, 0, m, nested)
  {
    var l := |dAtA|;
    var iNdEx: nat := 0;
    m' := m;
    while iNdEx < l
      invariant UnmarshalFrom(dAtA, iNdEx, m', nested) == UnmarshalFrom(dAtA, 0, m, nested)
      decreases l - iNdEx
    {
      var t := UnmarshalField(m', dAtA, iNdEx, nested);
      if t.Stop? {
        return t.outcome.state, t.outcome.err;
      }
      iNdEx, m' := t.next, t.state;
    }
    if iNdEx > l {
      return m', Some(ErrUnexpectedEOF);
    }
    return m', None;
  }

  /** The body of Unmarshal's loop: one field read at iNdEx. */
  method UnmarshalField(m: GenesisState, dAtA: seq<byte>, start: nat, nested: NestedCheck) returns (t: Turn)
    requires start < |dAtA|
    ensures t == FieldTurn(dAtA, start, m, nested)
  {
    var l := |dAtA|;
    var preIndex := start;
    var tag := DecodeVarint(dAtA, start);
    if tag.VarintErr? {
      return Stop(Outcome(m, Some(tag.err)));
    }
    var iNdEx := tag.next;
    var wire := tag.value;
    var fieldNum := Int32(wire / 8);
    var wireType := wire % 8;
    if wireType == 4 {
      return Stop(Outcome(m, Some(ErrEndGroupForNonGroup)));
    }
    if fieldNum <= 0 {
      return Stop(Outcome(m, Some(ErrIllegalTag(fieldNum, wire))));
    }
    if fieldNum <= 6 {
      if wireType != 2 {
        return Stop(Outcome(m, Some(ErrWrongWireType(fieldNum, wireType))));
      }
      var len := DecodeVarint(dAtA, iNdEx);
      if len.VarintErr? {
        return Stop(Outcome(m, Some(len.err)));
      }
      iNdEx := len.next;
      var msglen := ToInt64(len.value);
      if msglen < 0 {
        return Stop(Outcome(m, Some(ErrInvalidLengthGenesis)));
      }
      var postIndex := iNdEx + msglen;
      if postIndex >= Two63 {
        return Stop(Outcome(m, Some(ErrInvalidLengthGenesis)));
      }
      if postIndex > l {
        return Stop(Outcome(m, Some(ErrUnexpectedEOF)));
      }
      var p := dAtA[iNdEx..postIndex];
      var e := nested(fieldNum, p);
      if e.Some? {
        return Stop(Outcome(MergeFailed(m, fieldNum), e));
      }
      return Continue(postIndex, Merge(m, fieldNum, p));
    }
    iNdEx := preIndex;
    var skippy := SkipGenesis(dAtA[iNdEx..]);
    if skippy.SkipErr? {
      return Stop(Outcome(m, Some(skippy.err)));
    }
    if iNdEx + skippy.n >= Two63 {
      return Stop(Outcome(m, Some(ErrInvalidLengthGenesis)));
    }
    if iNdEx + skippy.n > l {
      return Stop(Outcome(m, Some(ErrUnexpectedEOF)));
    }
    return Continue(iNdEx + skippy.n, m);
  }

  // ---------------------------------------------------------------- decoding what Marshal wrote

  /** The state after merging a list of fields, in order. */
  function MergeChunks(m: GenesisState, cs: seq<Chunk>): GenesisState
    decreases |cs|
  {
    if cs == [] then m else MergeChunks(Merge(m, cs[0].fieldNum, cs[0].payload), cs[1..])
  }

  /** Every field of the list is accepted by its nested Unmarshal. */
  predicate Accepted(cs: seq<Chunk>, nested: NestedCheck)
  {
    forall k :: 0 <= k < |cs| ==> nested(cs[k].fieldNum, cs[k].payload) == None
  }

  /** A field Marshal wrote is read back in one turn, and merged. */
  lemma ChunkTurn(data: seq<byte>, i: nat, c: Chunk, j: nat, m: GenesisState, nested: NestedCheck)
    requires 1 <= c.fieldNum <= 6 && j == i + |EncodeChunk(c)| && j <= |data| && j < Two63
    requires data[i..j] == EncodeChunk(c) && nested(c.fieldNum, c.payload) == None
    ensures FieldTurn(data, i, m, nested) == Continue(j, Merge(m, c.fieldNum, c.payload))
  {
    var k := ChunkReads(data, i, c, j);
    KeyFields(c.fieldNum);
    KnownFieldTurn(data, i, m, nested, Key(c.fieldNum), i + 1, |c.payload|, k);
  }

  /** What Unmarshal's two varint loops read from a field Marshal wrote. */
  lemma ChunkReads(data: seq<byte>, i: nat, c: Chunk, j: nat) returns (k: nat)
    requires 1 <= c.fieldNum <= 6 && j == i + |EncodeChunk(c)| && j <= |data| && j < Two63
    requires data[i..j] == EncodeChunk(c)
    ensures i < |data| && ReadVarint(data, i) == VarintOk(Key(c.fieldNum), i + 1)
    ensures ReadVarint(data, i + 1) == VarintOk(|c.payload|, k)
    ensures k + |c.payload| == j && data[k..j] == c.payload
  {
    var key := Key(c.fieldNum);
    var len := |c.payload|;
    k := i + 1 + |VarintBytes(len)|;
    ChunkParts(data, i, c, k, j);
    assert VarintBytes(key) == [key];
    VarintRoundTrip(data, i, key);
    VarintRoundTrip(data, i + 1, len);
    SovIsVarintLength(len);
  }

  /** The turn for a known field whose tag and length have been read. */
  lemma KnownFieldTurn(data: seq<byte>, i: nat, m: GenesisState, nested: NestedCheck,
                       tag: uint64, t: nat, len: nat, k: nat)
    requires i < |data| && len < Two63 && k + len <= |data| && k + len < Two63
    requires tag % 8 == 2 && 1 <= Int32(tag / 8) <= 6
    requires ReadVarint(data, i) == VarintOk(tag, t) && ReadVarint(data, t) == VarintOk(len, k)
    requires nested(Int32(tag / 8), data[k..k + len]) == None
    ensures FieldTurn(data, i, m, nested) == Continue(k + len, Merge(m, Int32(tag / 8), data[k..k + len]))
  {
  }

  lemma ChunkParts(data: seq<byte>, i: nat, c: Chunk, k: nat, j: nat)
    requires 1 <= c.fieldNum <= 6 && j == i + |EncodeChunk(c)| && j <= |data|
    requires k == i + 1 + |VarintBytes(|c.payload|)| && data[i..j] == EncodeChunk(c)
    ensures data[i..i + 1] == [Key(c.fieldNum)]
    ensures data[i + 1..k] == VarintBytes(|c.payload|)
    ensures data[k..j] == c.payload
  {
    SliceSplit3(data, i, [Key(c.fieldNum)], VarintBytes(|c.payload|), c.payload);
  }

  /** The key byte reads back as the field number with wire type 2. */
  lemma KeyFields(fieldNum: int)
    requires 1 <= fieldNum <= 6
    ensures 0 <= Key(fieldNum) < 128 && Key(fieldNum) % 8 == 2 && Int32(Key(fieldNum) / 8) == fieldNum
  {
  }

  /** Unmarshal reads back a sequence of fields Marshal wrote and merges them in order. */
  lemma {:induction false} DecodeChunks(data: seq<byte>, i: nat, cs: seq<Chunk>, m: GenesisState, nested: NestedCheck)
    requires Numbered(cs) && Accepted(cs, nested) && |data| < Two63
    requires i + |EncodeChunks(cs)| == |data| && data[i..] == EncodeChunks(cs)
    ensures UnmarshalFrom(data, i, m, nested) == Outcome(MergeChunks(m, cs), None)
    decreases cs
  {
    if cs != [] {
      var j := i + |EncodeChunk(cs[0])|;
      assert data[i..j] == EncodeChunk(cs[0]) by {
        assert data[i..j] == data[i..][..j - i];
      }
      assert data[j..] == EncodeChunks(cs[1..]) by {
        assert data[j..] == data[i..][j - i..];
      }
      ChunkTurn(data, i, cs[0], j, m, nested);
      assert Accepted(cs[1..], nested) by {
        forall k | 0 <= k < |cs[1..]|
          ensures nested(cs[1..][k].fieldNum, cs[1..][k].payload) == None
        {
          assert cs[1..][k] == cs[k + 1];
        }
      }
      DecodeChunks(data, j, cs[1..], Merge(m, cs[0].fieldNum, cs[0].payload), nested);
    }
  }

  /** Merging the fields of m into m0 concatenates each singular field's bytes
      (protobuf's merge of a message field) and appends m's adjustments. */
  function MergeStates(m0: GenesisState, m: GenesisState): GenesisState
  {
    GenesisState(m0.params + m.params, m0.subsFS + m.subsFS, m0.subsTS + m.subsTS,
                 m0.cuTrackerFS + m.cuTrackerFS, m0.cuTrackerTS + m.cuTrackerTS,
                 m0.adjustments + m.adjustments)
  }

  lemma MergeChunksCons(m: GenesisState, c: Chunk, cs: seq<Chunk>)
    ensures MergeChunks(m, [c] + cs) == MergeChunks(Merge(m, c.fieldNum, c.payload), cs)
  {
    assert ([c] + cs)[1..] == cs;
  }

  lemma {:induction false} MergeAdjustments(m: GenesisState, adjs: seq<Payload>)
    ensures MergeChunks(m, AdjustmentChunks(adjs)) == m.(adjustments := m.adjustments + adjs)
    decreases adjs
  {
    if adjs == [] {
      assert m.adjustments + adjs == m.adjustments;
    } else {
      var m' := m.(adjustments := m.adjustments + [adjs[0]]);
      assert AdjustmentChunks(adjs) == [Chunk(6, adjs[0])] + AdjustmentChunks(adjs[1..]);
      MergeChunksCons(m, Chunk(6, adjs[0]), AdjustmentChunks(adjs[1..]));
      MergeAdjustments(m', adjs[1..]);
      assert m.adjustments + [adjs[0]] + adjs[1..] == m.adjustments + adjs;
    }
  }

  lemma MergeChunksOfState(m0: GenesisState, m: GenesisState)
    ensures MergeChunks(m0, Chunks(m)) == MergeStates(m0, m)
  {
    var adj := AdjustmentChunks(m.adjustments);
    var a, b, c, d, e :=
      Chunk(1, m.params), Chunk(2, m.subsFS), Chunk(3, m.subsTS), Chunk(4, m.cuTrackerFS), Chunk(5, m.cuTrackerTS);
    assert Chunks(m) == [a] + ([b] + ([c] + ([d] + ([e] + adj))));
    var m1 := m0.(params := m0.params + m.params);
    var m2 := m1.(subsFS := m0.subsFS + m.subsFS);
    var m3 := m2.(subsTS := m0.subsTS + m.subsTS);
    var m4 := m3.(cuTrackerFS := m0.cuTrackerFS + m.cuTrackerFS);
    var m5 := m4.(cuTrackerTS := m0.cuTrackerTS + m.cuTrackerTS);
    MergeChunksCons(m0, a, [b] + ([c] + ([d] + ([e] + adj))));
    assert Merge(m0, 1, m.params) == m1;
    MergeChunksCons(m1, b, [c] + ([d] + ([e] + adj)));
    assert Merge(m1, 2, m.subsFS) == m2;
    MergeChunksCons(m2, c, [d] + ([e] + adj));
    assert Merge(m2, 3, m.subsTS) == m3;
    MergeChunksCons(m3, d, [e] + adj);
    assert Merge(m3, 4, m.cuTrackerFS) == m4;
    MergeChunksCons(m4, e, adj);
    assert Merge(m4, 5, m.cuTrackerTS) == m5;
    MergeAdjustments(m5, m.adjustments);
  }

  /** Unmarshal into m0 of what Marshal made of m merges m into m0; Unmarshal
      never resets the state it is given. */
  lemma UnmarshalMergesEncoding(m0: GenesisState, m: GenesisState, nested: NestedCheck)
    requires |Encode(m)| < Two63 && Accepted(Chunks(m), nested)
    ensures UnmarshalFrom(Encode(m), 0, m0, nested) == Outcome(MergeStates(m0, m), None)
  {
    var data := Encode(m);
    assert data[0..] == data;
    DecodeChunks(data, 0, Chunks(m), m0, nested);
    MergeChunksOfState(m0, m);
  }

  /** The round trip: Unmarshal into an empty state gives back the state Marshal encoded. */
  lemma RoundTrip(m: GenesisState, nested: NestedCheck)
    requires |Encode(m)| < Two63 && Accepted(Chunks(m), nested)
    ensures UnmarshalFrom(Encode(m), 0, Empty, nested) == Outcome(m, None)
  {
    UnmarshalMergesEncoding(Empty, m, nested);
    assert [] + m.params == m.params && [] + m.subsFS == m.subsFS && [] + m.subsTS == m.subsTS;
    assert [] + m.cuTrackerFS == m.cuTrackerFS && [] + m.cuTrackerTS == m.cuTrackerTS;
    assert [] + m.adjustments == m.adjustments;
  }

  // ---------------------------------------------------------------- unknown fields

  lemma WireStartsWithTag(f: WireField)
    ensures |VarintBytes(f.tag)| <= |Wire(f)| && Wire(f)[..|VarintBytes(f.tag)|] == VarintBytes(f.tag)
  {
  }

  /** A complete field whose number is not 1 to 6 is skipped with skipGenesis
      and leaves the state as it was. */
  lemma UnknownFieldTurn(data: seq<byte>, i: nat, f: WireField, j: nat, m: GenesisState, nested: NestedCheck)
    requires WellFormed(f) && Int32(f.tag / 8) > 6
    requires j == i + |Wire(f)| && j <= |data| && j < Two63 && data[i..j] == Wire(f)
    ensures FieldTurn(data, i, m, nested) == Continue(j, m)
  {
    UnknownFieldSkipped(data, i, f, j);
    UnknownFieldTag(data, i, f, j);
  }

  /** skipGenesis, on the rest of the input from an unknown field's tag, skips that field. */
  lemma UnknownFieldSkipped(data: seq<byte>, i: nat, f: WireField, j: nat)
    requires WellFormed(f)
    requires j == i + |Wire(f)| && j <= |data| && j < Two63 && data[i..j] == Wire(f)
    ensures SkipFrom(data[i..], 0, 0) == Skipped(j - i)
  {
    assert data[i..] == Wire(f) + data[j..];
    SkipGenesisSkipsField(f, data[j..]);
  }

  /** The tag of a field, read where the field starts. */
  lemma UnknownFieldTag(data: seq<byte>, i: nat, f: WireField, j: nat)
    requires j == i + |Wire(f)| && j <= |data| && data[i..j] == Wire(f)
    ensures i < j && ReadVarint(data, i) == VarintOk(f.tag, i + Sov(f.tag))
  {
    WireStartsWithTag(f);
    assert data[i..i + |VarintBytes(f.tag)|] == VarintBytes(f.tag);
    VarintRoundTrip(data, i, f.tag);
    WireNonEmpty(f);
  }

  lemma WireNonEmpty(f: WireField)
    ensures |Wire(f)| > 0
  {
    VarintBytesShape(f.tag);
  }

  /** So skipping an unknown field changes nothing that follows. */
  lemma UnknownFieldIgnored(data: seq<byte>, i: nat, f: WireField, j: nat, m: GenesisState, nested: NestedCheck)
    requires WellFormed(f) && Int32(f.tag / 8) > 6
    requires j == i + |Wire(f)| && j <= |data| && j < Two63 && data[i..j] == Wire(f)
    ensures UnmarshalFrom(data, i, m, nested) == UnmarshalFrom(data, j, m, nested)
  {
    UnknownFieldTurn(data, i, f, j, m, nested);
    WireNonEmpty(f);
  }

  // ---------------------------------------------------------------- rejected input

  /** The tag at i, as Unmarshal reads it. */
  predicate TagThere(data: seq<byte>, i: nat, tag: uint64)
  {
    i + |VarintBytes(tag)| <= |data| && data[i..i + |VarintBytes(tag)|] == VarintBytes(tag)
  }

  lemma TagThereReads(data: seq<byte>, i: nat, tag: uint64)
    requires TagThere(data, i, tag)
    ensures i < |data| && ReadVarint(data, i) == VarintOk(tag, i + Sov(tag))
  {
    VarintRoundTrip(data, i, tag);
    VarintBytesShape(tag);
  }

  /** An end-group tag outside a group is rejected, the state unchanged. */
  lemma EndGroupRejected(data: seq<byte>, i: nat, tag: uint64, m: GenesisState, nested: NestedCheck)
    requires tag % 8 == 4 && TagThere(data, i, tag)
    ensures UnmarshalFrom(data, i, m, nested) == Outcome(m, Some(ErrEndGroupForNonGroup))
  {
    TagThereReads(data, i, tag);
  }

  /** A field number that is 0 or negative once cut to 32 bits is an illegal tag. */
  lemma IllegalTagRejected(data: seq<byte>, i: nat, tag: uint64, m: GenesisState, nested: NestedCheck)
    requires tag % 8 != 4 && Int32(tag / 8) <= 0 && TagThere(data, i, tag)
    ensures UnmarshalFrom(data, i, m, nested) == Outcome(m, Some(ErrIllegalTag(Int32(tag / 8), tag)))
  {
    TagThereReads(data, i, tag);
  }

  /** Fields 1 to 6 must be length-delimited. */
  lemma WrongWireTypeRejected(data: seq<byte>, i: nat, tag: uint64, m: GenesisState, nested: NestedCheck)
    requires tag % 8 != 2 && tag % 8 != 4 && 1 <= Int32(tag / 8) <= 6 && TagThere(data, i, tag)
    ensures UnmarshalFrom(data, i, m, nested) == Outcome(m, Some(ErrWrongWireType(Int32(tag / 8), tag % 8)))
  {
    TagThereReads(data, i, tag);
  }

  /** What Unmarshal's two varint loops read from a key byte and a length. */
  lemma KeyAndLengthRead(data: seq<byte>, i: nat, f: int, v: uint64)
    requires 1 <= f <= 6 && TagThere(data, i, Key(f)) && TagThere(data, i + 1, v)
    ensures i < |data| && ReadVarint(data, i) == VarintOk(Key(f), i + 1)
    ensures ReadVarint(data, i + 1) == VarintOk(v, i + 1 + |VarintBytes(v)|)
  {
    assert VarintBytes(Key(f)) == [Key(f)];
    TagThereReads(data, i, Key(f));
    TagThereReads(data, i + 1, v);
    SovIsVarintLength(v);
  }

  /** A length that is negative as a Go int is rejected. */
  lemma NegativeLengthRejected(data: seq<byte>, i: nat, f: int, v: uint64, m: GenesisState, nested: NestedCheck)
    requires 1 <= f <= 6 && v >= Two63 && TagThere(data, i, Key(f)) && TagThere(data, i + 1, v)
    ensures UnmarshalFrom(data, i, m, nested) == Outcome(m, Some(ErrInvalidLengthGenesis))
  {
    KeyAndLengthRead(data, i, f, v);
    KeyFields(f);
  }

  /** A length reaching past the end of the input is rejected: as io.ErrUnexpectedEOF,
      or as ErrInvalidLengthGenesis when the end index is not a valid Go int. */
  lemma LengthPastEndRejected(data: seq<byte>, i: nat, f: int, n: uint64, m: GenesisState, nested: NestedCheck)
    requires 1 <= f <= 6 && n < Two63 && TagThere(data, i, Key(f)) && TagThere(data, i + 1, n)
    requires i + 1 + |VarintBytes(n)| + n > |data|
    ensures UnmarshalFrom(data, i, m, nested) == Outcome(m, Some(
      if i + 1 + |VarintBytes(n)| + n >= Two63 then ErrInvalidLengthGenesis else ErrUnexpectedEOF))
  {
    KeyAndLengthRead(data, i, f, n);
    KeyFields(f);
  }

  /** A tag that runs off the end of the input is rejected. */
  lemma TruncatedTagRejected(data: seq<byte>, i: nat, m: GenesisState, nested: NestedCheck)
    requires i < |data| <= i + 9 && forall k :: i <= k < |data| ==> data[k] >= 128
    ensures UnmarshalFrom(data, i, m, nested) == Outcome(m, Some(ErrUnexpectedEOF))
  {
    VarintTruncated(data, i, 0, 0);
  }

  /** A tag longer than ten bytes overflows 64 bits. */
  lemma OverlongTagRejected(data: seq<byte>, i: nat, m: GenesisState, nested: NestedCheck)
    requires i + 10 <= |data| && forall k :: i <= k < i + 10 ==> data[k] >= 128
    ensures UnmarshalFrom(data, i, m, nested) == Outcome(m, Some(ErrIntOverflowGenesis))
  {
    VarintOverflow(data, i, 0, 0);
  }

  /** When the nested Unmarshal fails, its error is returned; for field 6 the
      empty Adjustment appended before decoding it stays in the list. */
  lemma NestedErrorReturned(data: seq<byte>, i: nat, c: Chunk, j: nat, m: GenesisState, nested: NestedCheck, e: Error)
    requires 1 <= c.fieldNum <= 6 && j == i + |EncodeChunk(c)| && j <= |data| && j < Two63
    requires data[i..j] == EncodeChunk(c) && nested(c.fieldNum, c.payload) == Some(e)
    ensures UnmarshalFrom(data, i, m, nested) == Outcome(MergeFailed(m, c.fieldNum), Some(e))
    ensures c.fieldNum == 6 ==> MergeFailed(m, c.fieldNum).adjustments == m.adjustments + [[]]
    ensures c.fieldNum != 6 ==> MergeFailed(m, c.fieldNum) == m
  {
    var k := ChunkReads(data, i, c, j);
    KeyFields(c.fieldNum);
    NestedFailTurn(data, i, m, nested, c.fieldNum, |c.payload|, k, e);
  }

  lemma NestedFailTurn(data: seq<byte>, i: nat, m: GenesisState, nested: NestedCheck, f: int, len: nat, k: nat, e: Error)
    requires i < |data| && len < Two63 && k + len <= |data| && k + len < Two63
    requires 1 <= f <= 6 && Key(f) % 8 == 2 && Int32(Key(f) / 8) == f
    requires ReadVarint(data, i) == VarintOk(Key(f), i + 1) && ReadVarint(data, i + 1) == VarintOk(len, k)
    requires nested(f, data[k..k + len]) == Some(e)
    ensures UnmarshalFrom(data, i, m, nested) == Outcome(MergeFailed(m, f), Some(e))
  {
  }

  /** The field number is cut to 32 bits: a tag 2^35 above a known key reads
      as that known field. */
  lemma FieldNumberWraps(data: seq<byte>, i: nat, c: Chunk, j: nat, m: GenesisState, nested: NestedCheck)
    requires 1 <= c.fieldNum <= 6 && nested(c.fieldNum, c.payload) == None
    requires j == i + |VarintBytes(Key(c.fieldNum) + 0x8_0000_0000)| + |VarintBytes(|c.payload|)| + |c.payload|
    requires j <= |data| && j < Two63
    requires data[i..j] == VarintBytes(Key(c.fieldNum) + 0x8_0000_0000) + VarintBytes(|c.payload|) + c.payload
    ensures FieldTurn(data, i, m, nested) == Continue(j, Merge(m, c.fieldNum, c.payload))
  {
    var tag := Key(c.fieldNum) + 0x8_0000_0000;
    var t, k := WrappedReads(data, i, c, j);
    WrappedKey(c.fieldNum);
    KnownFieldTurn(data, i, m, nested, tag, t, |c.payload|, k);
  }

  lemma WrappedKey(f: int)
    requires 1 <= f <= 6
    ensures (Key(f) + 0x8_0000_0000) % 8 == 2 && Int32((Key(f) + 0x8_0000_0000) / 8) == f
  {
    assert (Key(f) + 0x8_0000_0000) / 8 == f + 0x1_0000_0000;
  }

  lemma WrappedReads(data: seq<byte>, i: nat, c: Chunk, j: nat) returns (t: nat, k: nat)
    requires 1 <= c.fieldNum <= 6
    requires j == i + |VarintBytes(Key(c.fieldNum) + 0x8_0000_0000)| + |VarintBytes(|c.payload|)| + |c.payload|
    requires j <= |data| && j < Two63
    requires data[i..j] == VarintBytes(Key(c.fieldNum) + 0x8_0000_0000) + VarintBytes(|c.payload|) + c.payload
    ensures i < |data| && ReadVarint(data, i) == VarintOk(Key(c.fieldNum) + 0x8_0000_0000, t)
    ensures ReadVarint(data, t) == VarintOk(|c.payload|, k)
    ensures k + |c.payload| == j && data[k..j] == c.payload
  {
    var tag := Key(c.fieldNum) + 0x8_0000_0000;
    var len := |c.payload|;
    t := i + |VarintBytes(tag)|;
    k := t + |VarintBytes(len)|;
    SliceSplit3(data, i, VarintBytes(tag), VarintBytes(len), c.payload);
    VarintRoundTrip(data, i, tag);
    VarintRoundTrip(data, t, len);
    SovIsVarintLength(tag);
    SovIsVarintLength(len);
  }
}
