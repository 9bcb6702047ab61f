/**
 * skipGenesis from x/subscription/types/genesis.pb.go: given the bytes that
 * start at a field's tag, find the length of that one field, following
 * start-group and end-group tags to any depth.
 */
module GenesisSkip {
  import opened GenesisVarint

  datatype SkipResult = Skipped(n: nat) | SkipErr(err: Error)

  /** The loop skipGenesis runs for wire type 0: it reads no value, it only
      looks for the byte without the continuation bit. */
  function SkipVarintFrom(data: seq<byte>, i: nat, shift: nat): (r: SkipResult)
    ensures r.Skipped? ==> i < r.n <= |data|
    decreases |data| - i
  {
    if shift >= 64 then SkipErr(ErrIntOverflowGenesis)
    else if i >= |data| then SkipErr(ErrUnexpectedEOF)
    else if data[i] < 128 then Skipped(i + 1)
    else SkipVarintFrom(data, i + 1, shift + 7)
  }

  /** The effect of one wire-type case of skipGenesis: the index and group depth
      it moves to, or the error it returns. */
  datatype Step = Advance(next: nat, depth: nat) | StepErr(err: Error)

  function SkipStep(data: seq<byte>, j: nat, wireType: int, depth: nat): (r: Step)
    ensures r.Advance? ==> r.next >= j
  {
    match wireType
    case 0 =>
      (match SkipVarintFrom(data, j, 0)
       case Skipped(n) => Advance(n, depth)
       case SkipErr(e) => StepErr(e))
    case 1 => Advance(j + 8, depth)
    case 2 =>
      (match ReadVarint(data, j)
       case VarintErr(e) => StepErr(e)
       case VarintOk(v, n) =>
         var length := ToInt64(v);
         if length < 0 then StepErr(ErrInvalidLengthGenesis) else Advance(n + length, depth))
    case 3 => Advance(j, depth + 1)
    case 4 => if depth == 0 then StepErr(ErrUnexpectedEndOfGroupGenesis) else Advance(j, depth - 1)
    case 5 => Advance(j + 4, depth)
    case _ => StepErr(ErrIllegalWireType(wireType))
  }

  /** The outer loop of skipGenesis from index i at group depth `depth`. Go's
      `iNdEx` is a 64-bit int, and every index it adds is below 2^63, so the
      check `iNdEx < 0` fires exactly when the sum reaches 2^63. */
  function SkipFrom(data: seq<byte>, i: nat, depth: nat): (r: SkipResult)
    ensures r.Skipped? ==> r.n > i
    decreases |data| - i
  {
    if i >= |data| then SkipErr(ErrUnexpectedEOF)
    else
      match ReadVarint(data, i)
      case VarintErr(e) => SkipErr(e)
      case VarintOk(wire, j) =>
        match SkipStep(data, j, wire % 8, depth)
        case StepErr(e) => SkipErr(e)
        case Advance(k, d) =>
          if k >= Two63 then SkipErr(ErrInvalidLengthGenesis)
          else if d == 0 then Skipped(k)
          else SkipFrom(data, k, d)
  }

  /** The wire-type-0 loop of skipGenesis. */
  method SkipVarint(dAtA: seq<byte>, start: nat) returns (r: SkipResult)
    ensures r == SkipVarintFrom(dAtA, start, 0)
  {
    var iNdEx := start;
    var shift: nat := 0;
    while true
      invariant SkipVarintFrom(dAtA, iNdEx, shift) == SkipVarintFrom(dAtA, start, 0)
      decreases |dAtA| - iNdEx
    {
      if shift >= 64 {
        return SkipErr(ErrIntOverflowGenesis);
      }
      if iNdEx >= |dAtA| {
        return SkipErr(ErrUnexpectedEOF);
      }
      iNdEx := iNdEx + 1;
      if dAtA[iNdEx - 1] < 128 {
        return Skipped(iNdEx);
      }
      shift := shift + 7;
    }
  }

  /** skipGenesis: the length of the one field whose tag starts dAtA. */
  method SkipGenesis(dAtA: seq<byte>) returns (r: SkipResult)
    ensures r == SkipFrom(dAtA, 0, 0)
  {
    var l := |dAtA|;
    var iNdEx: nat := 0;
    var depth: nat := 0;
    while iNdEx < l
      invariant SkipFrom(dAtA, iNdEx, depth) == SkipFrom(dAtA, 0, 0)
      decreases l - iNdEx
    {
      var tag := DecodeVarint(dAtA, iNdEx);
      if tag.VarintErr? {
        return SkipErr(tag.err);
      }
      ghost var start, startDepth := iNdEx, depth;
      iNdEx := tag.next;
      var wireType := tag.value % 8;
      if wireType == 0 {
        var s := SkipVarint(dAtA, iNdEx);
        if s.SkipErr? {
          return s;
        }
        iNdEx := s.n;
      } else if wireType == 1 {
        iNdEx := iNdEx + 8;
      } else if wireType == 2 {
        var len := DecodeVarint(dAtA, iNdEx);
        if len.VarintErr? {
          return SkipErr(len.err);
        }
        var length := ToInt64(len.value);
        if length < 0 {
          return SkipErr(ErrInvalidLengthGenesis);
        }
        iNdEx := len.next + length;
      } else if wireType == 3 {
        depth := depth + 1;
      } else if wireType == 4 {
        if depth == 0 {
          return SkipErr(ErrUnexpectedEndOfGroupGenesis);
        }
        depth := depth - 1;
      } else if wireType == 5 {
        iNdEx := iNdEx + 4;
      } else {
        return SkipErr(ErrIllegalWireType(wireType));
      }
      assert SkipStep(dAtA, tag.next, wireType, startDepth) == Advance(iNdEx, depth);
      if iNdEx >= Two63 {
        return SkipErr(ErrInvalidLengthGenesis);
      }
      if depth == 0 {
        return Skipped(iNdEx);
      }
    }
    return SkipErr(ErrUnexpectedEOF);
  }

  // ---------------------------------------------------------------- well-formed fields

  /** A complete field as it appears on the wire, one constructor per wire type;
      a group holds the fields between its start tag and its end tag. */
  datatype WireField =
    | VarintField(tag: uint64, value: uint64)
    | Fixed64Field(tag: uint64, bits: seq<byte>)
    | BytesField(tag: uint64, payload: seq<byte>)
    | GroupField(tag: uint64, body: seq<WireField>, endTag: uint64)
    | Fixed32Field(tag: uint64, bits: seq<byte>)

  predicate WellFormed(f: WireField)
    decreases f, 1
  {
    match f
    case VarintField(tag, _) => tag % 8 == 0
    case Fixed64Field(tag, bits) => tag % 8 == 1 && |bits| == 8
    case BytesField(tag, _) => tag % 8 == 2
    case GroupField(tag, body, endTag) => tag % 8 == 3 && endTag % 8 == 4 && AllWellFormed(body)
    case Fixed32Field(tag, bits) => tag % 8 == 5 && |bits| == 4
  }

  predicate AllWellFormed(fs: seq<WireField>)
    decreases fs, 0
  {
    fs == [] || (WellFormed(fs[0]) && AllWellFormed(fs[1..]))
  }

  function Wire(f: WireField): seq<byte>
    decreases f, 1
  {
    match f
    case VarintField(tag, value) => VarintBytes(tag) + VarintBytes(value)
    case Fixed64Field(tag, bits) => VarintBytes(tag) + bits
    case BytesField(tag, payload) => VarintBytes(tag) + VarintBytes(|payload|) + payload
    case GroupField(tag, body, endTag) => VarintBytes(tag) + WireAll(body) + VarintBytes(endTag)
    case Fixed32Field(tag, bits) => VarintBytes(tag) + bits
  }

  function WireAll(fs: seq<WireField>): seq<byte>
    decreases fs, 0
  {
    if fs == [] then [] else Wire(fs[0]) + WireAll(fs[1..])
  }

  lemma SliceSplit(data: seq<byte>, i: nat, a: seq<byte>, b: seq<byte>)
    requires i + |a| + |b| <= |data| && data[i..i + |a| + |b|] == a + b
    ensures data[i..i + |a|] == a
    ensures data[i + |a|..i + |a| + |b|] == b
  {
    assert data[i..i + |a|] == (a + b)[..|a|];
    assert data[i + |a|..i + |a| + |b|] == (a + b)[|a|..];
  }

  /** The wire-type-0 loop stops where the value loop of Unmarshal stops, and
      fails the same way. */
  lemma {:induction false} SkipVarintAgrees(data: seq<byte>, i: nat, shift: nat, acc: uint64)
    ensures SkipVarintFrom(data, i, shift) ==
      match ReadVarintFrom(data, i, shift, acc)
      case VarintOk(_, n) => Skipped(n)
      case VarintErr(e) => SkipErr(e)
    decreases |data| - i
  {
    if shift < 64 && i < |data| && data[i] >= 128 {
      SkipVarintAgrees(data, i + 1, shift + 7, (acc + (data[i] % 128) * Pow2(shift)) % Two64);
    }
  }

  lemma SkipVarintOfBytes(data: seq<byte>, i: nat, v: uint64)
    requires i + |VarintBytes(v)| <= |data| && data[i..i + |VarintBytes(v)|] == VarintBytes(v)
    ensures SkipVarintFrom(data, i, 0) == Skipped(i + |VarintBytes(v)|)
  {
    SkipVarintAgrees(data, i, 0, 0);
    VarintRoundTrip(data, i, v);
    SovIsVarintLength(v);
  }

  /** One turn of the outer loop of skipGenesis, once its tag and its case are known. */
  lemma SkipTurn(data: seq<byte>, i: nat, depth: nat, wire: uint64, j: nat, k: nat, d: nat)
    requires i < |data| && ReadVarint(data, i) == VarintOk(wire, j)
    requires SkipStep(data, j, wire % 8, depth) == Advance(k, d) && k < Two63
    ensures SkipFrom(data, i, depth) == if d == 0 then Skipped(k) else SkipFrom(data, k, d)
  {
  }

  /** The bytes of the well-formed field f sit at data[i..m], below 2^63. */
  predicate FieldAt(data: seq<byte>, i: nat, f: WireField, m: nat)
  {
    WellFormed(f) && m == i + |Wire(f)| && m <= |data| && data[i..m] == Wire(f) && m < Two63
  }

  /** The bytes of the well-formed fields fs sit at data[i..e], below 2^63. */
  predicate RunAt(data: seq<byte>, i: nat, fs: seq<WireField>, e: nat)
  {
    AllWellFormed(fs) && e == i + |WireAll(fs)| && e <= |data| && data[i..e] == WireAll(fs) && e < Two63
  }

  /** Reading a tag back. */
  lemma TagRead(data: seq<byte>, i: nat, tag: uint64, j: nat)
    requires TagAt(data, i, tag, j)
    ensures i < |data| && ReadVarint(data, i) == VarintOk(tag, j)
  {
    VarintRoundTrip(data, i, tag);
    SovIsVarintLength(tag);
  }

  /** What follows the tag of a non-group field, from j to m. */
  predicate ScalarRestAt(data: seq<byte>, j: nat, f: WireField, m: nat)
  {
    m <= |data| &&
    match f
    case VarintField(_, value) => m == j + |VarintBytes(value)| && data[j..m] == VarintBytes(value)
    case Fixed64Field(_, _) => m == j + 8
    case BytesField(_, payload) =>
      var n := j + |VarintBytes(|payload|)|;
      m == n + |payload| && data[j..n] == VarintBytes(|payload|)
    case Fixed32Field(_, _) => m == j + 4
    case GroupField(_, _, _) => false
  }

  /** The bytes of a non-group field: its tag at data[i..j], the rest up to m. */
  lemma ScalarParts(data: seq<byte>, i: nat, f: WireField, m: nat) returns (j: nat)
    requires FieldAt(data, i, f, m) && !f.GroupField?
    ensures TagAt(data, i, f.tag, j) && ScalarRestAt(data, j, f, m)
  {
    var tagBytes := VarintBytes(f.tag);
    j := i + |tagBytes|;
    match f
    case VarintField(tag, value) =>
      SliceSplit(data, i, tagBytes, VarintBytes(value));
    case Fixed64Field(tag, bits) =>
      SliceSplit(data, i, tagBytes, bits);
    case BytesField(tag, payload) =>
      SliceSplit3(data, i, tagBytes, VarintBytes(|payload|), payload);
    case Fixed32Field(tag, bits) =>
      SliceSplit(data, i, tagBytes, bits);
  }

  /** The step over the part of a non-group field that follows its tag. */
  lemma StepOverScalar(data: seq<byte>, j: nat, f: WireField, m: nat, depth: nat)
    requires WellFormed(f) && ScalarRestAt(data, j, f, m) && m < Two63
    ensures SkipStep(data, j, f.tag % 8, depth) == Advance(m, depth)
  {
    match f
    case VarintField(tag, value) =>
      SkipVarintOfBytes(data, j, value);
    case Fixed64Field(tag, bits) =>
    case BytesField(tag, payload) =>
      VarintRoundTrip(data, j, |payload|);
      SovIsVarintLength(|payload|);
    case Fixed32Field(tag, bits) =>
  }

  /** skipGenesis moves past exactly one complete field: at depth 0 it stops
      just past it, inside a group it carries on from there at the same depth. */
  lemma {:induction false} SkipOneField(data: seq<byte>, i: nat, f: WireField, m: nat, depth: nat)
    requires FieldAt(data, i, f, m)
    ensures SkipFrom(data, i, depth) == if depth == 0 then Skipped(m) else SkipFrom(data, m, depth)
    decreases f, 2
  {
    if f.GroupField? {
      SkipGroupField(data, i, f, m, depth);
    } else {
      SkipScalarField(data, i, f, m, depth);
    }
  }

  lemma SkipScalarField(data: seq<byte>, i: nat, f: WireField, m: nat, depth: nat)
    requires FieldAt(data, i, f, m) && !f.GroupField?
    ensures SkipFrom(data, i, depth) == if depth == 0 then Skipped(m) else SkipFrom(data, m, depth)
  {
    var j := ScalarParts(data, i, f, m);
    TagRead(data, i, f.tag, j);
    StepOverScalar(data, j, f, m, depth);
    SkipTurn(data, i, depth, f.tag, j, m, depth);
  }

  /** A group: its start tag opens a level, its body is skipped one level
      down, its end tag closes the level. */
  lemma {:induction false} SkipGroupField(data: seq<byte>, i: nat, f: WireField, m: nat, depth: nat)
    requires FieldAt(data, i, f, m) && f.GroupField?
    ensures SkipFrom(data, i, depth) == if depth == 0 then Skipped(m) else SkipFrom(data, m, depth)
    decreases f, 1
  {
    var j, e := GroupParts(data, i, f, m);
    GroupEnter(data, i, f.tag, j, depth);
    SkipGroupRest(data, j, f.body, e, f.endTag, m, depth);
  }

  lemma {:induction false} SkipGroupRest(data: seq<byte>, j: nat, body: seq<WireField>, e: nat, endTag: uint64, m: nat, depth: nat)
    requires RunAt(data, j, body, e) && endTag % 8 == 4 && TagAt(data, e, endTag, m)
    ensures SkipFrom(data, j, depth + 1) == if depth == 0 then Skipped(m) else SkipFrom(data, m, depth)
    decreases body, 4
  {
    SkipFields(data, j, body, e, depth + 1);
    GroupLeave(data, e, endTag, m, depth);
  }

  /** The varint of tag sits at data[i..j], below 2^63. */
  predicate TagAt(data: seq<byte>, i: nat, tag: uint64, j: nat)
  {
    j == i + |VarintBytes(tag)| && j <= |data| && data[i..j] == VarintBytes(tag) && j < Two63
  }

  /** The bytes of a group: its start tag at data[i..j], its body at
      data[j..e], its end tag at data[e..m]. */
  lemma GroupParts(data: seq<byte>, i: nat, f: WireField, m: nat) returns (j: nat, e: nat)
    requires FieldAt(data, i, f, m) && f.GroupField?
    ensures f.tag % 8 == 3 && TagAt(data, i, f.tag, j)
    ensures RunAt(data, j, f.body, e)
    ensures f.endTag % 8 == 4 && TagAt(data, e, f.endTag, m)
  {
    j := i + |VarintBytes(f.tag)|;
    e := j + |WireAll(f.body)|;
    SliceSplit3(data, i, VarintBytes(f.tag), WireAll(f.body), VarintBytes(f.endTag));
  }

  lemma SliceSplit3(data: seq<byte>, i: nat, a: seq<byte>, b: seq<byte>, c: seq<byte>)
    requires i + |a + b + c| <= |data| && data[i..i + |a + b + c|] == a + b + c
    ensures data[i..i + |a|] == a
    ensures data[i + |a|..i + |a| + |b|] == b
    ensures data[i + |a| + |b|..i + |a| + |b| + |c|] == c
  {
    SliceSplit(data, i, a + b, c);
    SliceSplit(data, i, a, b);
  }

  /** A start-group tag opens a level. */
  lemma GroupEnter(data: seq<byte>, i: nat, tag: uint64, j: nat, depth: nat)
    requires tag % 8 == 3 && TagAt(data, i, tag, j)
    ensures SkipFrom(data, i, depth) == SkipFrom(data, j, depth + 1)
  {
    TagRead(data, i, tag, j);
    assert SkipStep(data, j, tag % 8, depth) == Advance(j, depth + 1);
    SkipTurn(data, i, depth, tag, j, j, depth + 1);
  }

  /** An end-group tag closes a level: at the outermost level skipGenesis
      stops there. */
  lemma GroupLeave(data: seq<byte>, e: nat, endTag: uint64, m: nat, depth: nat)
    requires endTag % 8 == 4 && TagAt(data, e, endTag, m)
    ensures SkipFrom(data, e, depth + 1) == if depth == 0 then Skipped(m) else SkipFrom(data, m, depth)
  {
    TagRead(data, e, endTag, m);
    assert SkipStep(data, m, endTag % 8, depth + 1) == Advance(m, depth);
    SkipTurn(data, e, depth + 1, endTag, m, m, depth);
  }

  /** Inside a group, skipGenesis moves past a run of complete fields. */
  lemma {:induction false} SkipFields(data: seq<byte>, i: nat, fs: seq<WireField>, e: nat, depth: nat)
    requires depth >= 1 && RunAt(data, i, fs, e)
    ensures SkipFrom(data, i, depth) == SkipFrom(data, e, depth)
    decreases fs, 3
  {
    if fs != [] {
      var m := FieldsParts(data, i, fs, e);
      SkipOneField(data, i, fs[0], m, depth);
      SkipFields(data, m, fs[1..], e, depth);
    }
  }

  /** The bytes of a non-empty run of fields: its first field, then the others. */
  lemma FieldsParts(data: seq<byte>, i: nat, fs: seq<WireField>, e: nat) returns (m: nat)
    requires fs != [] && RunAt(data, i, fs, e)
    ensures FieldAt(data, i, fs[0], m) && RunAt(data, m, fs[1..], e)
  {
    var first, others := Wire(fs[0]), WireAll(fs[1..]);
    m := i + |first|;
    assert WireAll(fs) == first + others;
    SliceSplit(data, i, first, others);
  }

  /** skipGenesis applied to a complete field returns that field's length. */
  lemma SkipGenesisSkipsField(f: WireField, rest: seq<byte>)
    requires WellFormed(f) && |Wire(f)| < Two63
    ensures SkipFrom(Wire(f) + rest, 0, 0) == Skipped(|Wire(f)|)
  {
    var data := Wire(f) + rest;
    assert data[0..|Wire(f)|] == Wire(f);
    SkipOneField(data, 0, f, |Wire(f)|, 0);
  }

  /** An end-group tag with no open group is an error. */
  lemma SkipEndGroupAtTopLevel(data: seq<byte>, tag: uint64)
    requires tag % 8 == 4
    requires |VarintBytes(tag)| <= |data| && data[..|VarintBytes(tag)|] == VarintBytes(tag)
    ensures SkipFrom(data, 0, 0) == SkipErr(ErrUnexpectedEndOfGroupGenesis)
  {
    VarintRoundTrip(data, 0, tag);
    VarintBytesShape(tag);
    assert data[0..|VarintBytes(tag)|] == data[..|VarintBytes(tag)|];
  }

  /** Wire types 6 and 7 are illegal. */
  lemma SkipIllegalWireType(data: seq<byte>, tag: uint64)
    requires tag % 8 == 6 || tag % 8 == 7
    requires |VarintBytes(tag)| <= |data| && data[..|VarintBytes(tag)|] == VarintBytes(tag)
    ensures SkipFrom(data, 0, 0) == SkipErr(ErrIllegalWireType(tag % 8))
  {
    VarintRoundTrip(data, 0, tag);
    VarintBytesShape(tag);
    assert data[0..|VarintBytes(tag)|] == data[..|VarintBytes(tag)|];
  }

  /** A start-group tag followed by complete fields but no end-group tag of
      its own runs off the end of the input. */
  lemma SkipUnterminatedGroup(tag: uint64, body: seq<WireField>)
    requires tag % 8 == 3 && AllWellFormed(body)
    requires |VarintBytes(tag) + WireAll(body)| < Two63
    ensures SkipFrom(VarintBytes(tag) + WireAll(body), 0, 0) == SkipErr(ErrUnexpectedEOF)
  {
    var data := VarintBytes(tag) + WireAll(body);
    ConcatParts(VarintBytes(tag), WireAll(body));
    SkipOpenGroupToEnd(data, 0, tag, |VarintBytes(tag)|, body, 0);
  }

  lemma ConcatParts(a: seq<byte>, b: seq<byte>)
    ensures (a + b)[0..|a|] == a && (a + b)[|a|..|a + b|] == b
  {
  }

  /** An open group whose body runs to the end of the input. */
  lemma SkipOpenGroupToEnd(data: seq<byte>, i: nat, tag: uint64, j: nat, body: seq<WireField>, depth: nat)
    requires tag % 8 == 3 && TagAt(data, i, tag, j) && RunAt(data, j, body, |data|)
    ensures SkipFrom(data, i, depth) == SkipErr(ErrUnexpectedEOF)
  {
    GroupEnter(data, i, tag, j, depth);
    SkipFields(data, j, body, |data|, depth + 1);
    SkipAtEnd(data, depth + 1);
  }

  /** The outer loop does not run at the end of the input. */
  lemma SkipAtEnd(data: seq<byte>, depth: nat)
    ensures SkipFrom(data, |data|, depth) == SkipErr(ErrUnexpectedEOF)
  {
  }
}
