/**
 The serialize and deserialize overloads: they append to a byte vector and advance a
 span.  Each is proved against the functions of Codec.
 */
module CodecImpl {
  import opened Bytes
  import opened Codec

  /** std::vector<std::byte>, as serialize grows it. */
  class ByteVector {
    var bytes: seq<Byte>

    constructor ()
      ensures bytes == []
    {
      bytes := [];
    }

    method Append(more: seq<Byte>)
      modifies this
      ensures bytes == old(bytes) + more
    {
      bytes := bytes + more;
    }
  }

  /** std::span<const std::byte>, as deserialize shortens it. */
  class Span {
    var rest: seq<Byte>

    constructor (bytes: seq<Byte>)
      ensures rest == bytes
    {
      rest := bytes;
    }
  }

  datatype Outcome<+T> = Ok(value: T) | Invalid | PastEnd

  /** What deserialize reports and leaves, when Codec says d of the bytes it was given. */
  ghost predicate Agrees<T>(d: Decoded<T>, outcome: Outcome<T>, rest: seq<Byte>) {
    match d
    case Got(v, r) => outcome == Ok(v) && rest == r
    case InvalidType => outcome == Invalid
    case Truncated => outcome == PastEnd
  }

  method SerializeText(chars: seq<Byte>, out: ByteVector)
    requires |chars| < SIZE_LIMIT
    modifies out
    ensures out.bytes == old(out.bytes) + (SizeBytes(|chars|) + chars)
  {
    out.Append(SizeBytes(|chars|));
    out.Append(chars);
  }

  method SerializeOptional(v: Value, out: ByteVector)
    requires v.Absent? || v.Present?
    modifies out
    ensures out.bytes == old(out.bytes) + if v.Absent? then [0] else [1] + v.rep
  {
    out.Append(if v.Absent? then [0] else [1]);
    if v.Present? {
      out.Append(v.rep);
    }
  }

  method Serialize(s: Shape, v: Value, out: ByteVector)
    requires Fits(s, v)
    modifies out
    ensures out.bytes == old(out.bytes) + Encode(s, v)
    decreases s, 0, 0
  {
    match s {
      case Pod(_) =>
        out.Append(v.rep);
      case Text =>
        SerializeText(v.chars, out);
      case Optional(_) =>
        SerializeOptional(v, out);
      case List(elem) =>
        SerializeList(elem, v.items, out);
      case Record(fields) =>
        SerializeFields(fields, v.values, out);
      case Omitted(_) =>
        assert out.bytes == out.bytes + [];
      case Variant(alts) =>
        ghost var before := out.bytes;
        out.Append(SizeBytes(v.index));
        Serialize(alts[v.index], v.alt, out);
        ConcatAssoc(before, SizeBytes(v.index), Encode(alts[v.index], v.alt));
    }
  }

  lemma {:induction false} EncodeAllSnoc(elem: Shape, vs: seq<Value>, i: nat)
    requires AllFit(elem, vs) && i < |vs|
    ensures EncodeAll(elem, vs[..i + 1]) == EncodeAll(elem, vs[..i]) + Encode(elem, vs[i])
    decreases i
  {
    if i > 0 {
      assert vs[..i + 1][1..] == vs[1..][..i] && vs[..i][1..] == vs[1..][..i - 1];
      EncodeAllSnoc(elem, vs[1..], i - 1);
      assert vs[..i + 1][0] == vs[0] && vs[..i][0] == vs[0];
      ConcatAssoc(Encode(elem, vs[0]), EncodeAll(elem, vs[1..][..i - 1]), Encode(elem, vs[i]));
    } else {
      assert vs[..1][1..] == [];
    }
  }

  method SerializeList(elem: Shape, items: seq<Value>, out: ByteVector)
    requires |items| < SIZE_LIMIT && AllFit(elem, items)
    modifies out
    ensures out.bytes == old(out.bytes) + (SizeBytes(|items|) + EncodeAll(elem, items))
    decreases elem, 1, 0
  {
    out.Append(SizeBytes(|items|));
    ghost var start := out.bytes;
    for i := 0 to |items|
      invariant out.bytes == start + EncodeAll(elem, items[..i])
    {
      Serialize(elem, items[i], out);
      EncodeAllSnoc(elem, items, i);
      ConcatAssoc(start, EncodeAll(elem, items[..i]), Encode(elem, items[i]));
    }
    assert items[..|items|] == items;
    ConcatAssoc(old(out.bytes), SizeBytes(|items|), EncodeAll(elem, items));
  }

  method SerializeFields(fields: seq<Shape>, values: seq<Value>, out: ByteVector)
    requires FieldsFit(fields, values)
    modifies out
    ensures out.bytes == old(out.bytes) + EncodeFields(fields, values)
    decreases fields, 0, 0
  {
    if fields != [] {
      Serialize(fields[0], values[0], out);
      SerializeFields(fields[1..], values[1..], out);
      ConcatAssoc(old(out.bytes), Encode(fields[0], values[0]), EncodeFields(fields[1..], values[1..]));
    }
  }

  method TakeBytes(n: nat, span: Span) returns (outcome: Outcome<seq<Byte>>)
    modifies span
    ensures Agrees(Take(n, old(span.rest)), outcome, span.rest)
  {
    if n > |span.rest| {
      return PastEnd;
    }
    outcome := Ok(span.rest[..n]);
    span.rest := span.rest[n..];
  }

  method DeserializeSize(span: Span) returns (outcome: Outcome<nat>)
    modifies span
    ensures Agrees(DecodeSize(old(span.rest)), outcome, span.rest)
  {
    var rep := TakeBytes(SIZE_WIDTH, span);
    match rep {
      case Ok(bytes) => outcome := Ok(FromLE(bytes));
      case _ => outcome := PastEnd;
    }
  }

  method Deserialize(s: Shape, span: Span) returns (outcome: Outcome<Value>)
    modifies span
    ensures Agrees(Decode(s, old(span.rest)), outcome, span.rest)
    decreases s, 0, 0
  {
    match s {
      case Pod(size) =>
        var rep := TakeBytes(size, span);
        outcome := if rep.Ok? then Ok(Raw(rep.value)) else PastEnd;
      case Text =>
        var size := DeserializeSize(span);
        if !size.Ok? {
          return PastEnd;
        }
        var chars := TakeBytes(size.value, span);
        outcome := if chars.Ok? then Ok(Chars(chars.value)) else PastEnd;
      case Optional(size) =>
        var engaged := TakeBytes(1, span);
        if !engaged.Ok? {
          return PastEnd;
        }
        if engaged.value == [0] {
          return Ok(Absent);
        }
        var rep := TakeBytes(size, span);
        outcome := if rep.Ok? then Ok(Present(rep.value)) else PastEnd;
      case List(elem) =>
        outcome := DeserializeList(elem, span);
      case Record(fields) =>
        var values := DeserializeFields(fields, span);
        match values {
          case Ok(vs) => outcome := Ok(Fields(vs));
          case Invalid => outcome := Invalid;
          case PastEnd => outcome := PastEnd;
        }
      case Omitted(size) =>
        outcome := Ok(Raw(Zeros(size)));
      case Variant(alts) =>
        var index := DeserializeSize(span);
        if !index.Ok? {
          return PastEnd;
        }
        outcome := DeserializeAlternative(alts, 0, index.value, span);
    }
  }

  /** The alternatives are tried from Index on, as the template recursion does. */
  method DeserializeAlternative(alts: seq<Shape>, index: nat, which: nat, span: Span) returns (outcome: Outcome<Value>)
    requires index <= |alts| && index <= which
    modifies span
    ensures which >= |alts| ==> outcome == Invalid
    ensures which < |alts| ==>
      match Decode(alts[which], old(span.rest))
      case Got(v, r) => outcome == Ok(Alt(which, v)) && span.rest == r
      case InvalidType => outcome == Invalid
      case Truncated => outcome == PastEnd
    decreases alts, 1, |alts| - index
  {
    if index == |alts| {
      return Invalid;
    }
    if which == index {
      var alt := Deserialize(alts[index], span);
      match alt {
        case Ok(v) => outcome := Ok(Alt(index, v));
        case Invalid => outcome := Invalid;
        case PastEnd => outcome := PastEnd;
      }
      return;
    }
    outcome := DeserializeAlternative(alts, index + 1, which, span);
  }

  /** DecodeAll with the values decoded before put in front. */
  ghost function After(done: seq<Value>, d: Decoded<seq<Value>>): Decoded<seq<Value>> {
    if d.Got? then Got(done + d.value, d.rest) else d
  }

  lemma AfterNone(d: Decoded<seq<Value>>)
    ensures After([], d) == d
  {
    if d.Got? {
      assert [] + d.value == d.value;
    }
  }

  lemma AfterOneMore(done: seq<Value>, elem: Shape, count: nat, bytes: seq<Byte>, v: Value, rest: seq<Byte>)
    requires count > 0 && Decode(elem, bytes) == Got(v, rest)
    ensures After(done, DecodeAll(elem, count, bytes)) == After(done + [v], DecodeAll(elem, count - 1, rest))
  {
    var d := DecodeAll(elem, count - 1, rest);
    if d.Got? {
      assert done + ([v] + d.value) == (done + [v]) + d.value;
    }
  }

  method DeserializeList(elem: Shape, span: Span) returns (outcome: Outcome<Value>)
    modifies span
    ensures Agrees(Decode(List(elem), old(span.rest)), outcome, span.rest)
    decreases elem, 1, 0
  {
    var count := DeserializeSize(span);
    if !count.Ok? {
      return PastEnd;
    }
    ghost var start := span.rest;
    var items := [];
    AfterNone(DecodeAll(elem, count.value, start));
    for i := 0 to count.value
      invariant |items| == i
      invariant DecodeAll(elem, count.value, start) == After(items, DecodeAll(elem, count.value - i, span.rest))
    {
      ghost var bytes := span.rest;
      var item := Deserialize(elem, span);
      match item {
        case Ok(v) =>
          AfterOneMore(items, elem, count.value - i, bytes, v, span.rest);
          items := items + [v];
        case Invalid => return Invalid;
        case PastEnd => return PastEnd;
      }
    }
    assert items + [] == items;
    outcome := Ok(Items(items));
  }

  method DeserializeFields(fields: seq<Shape>, span: Span) returns (outcome: Outcome<seq<Value>>)
    modifies span
    ensures Agrees(DecodeFields(fields, old(span.rest)), outcome, span.rest)
    decreases fields, 0, 0
  {
    if fields == [] {
      return Ok([]);
    }
    var first := Deserialize(fields[0], span);
    match first {
      case Ok(v) =>
        var others := DeserializeFields(fields[1..], span);
        match others {
          case Ok(vs) => outcome := Ok([v] + vs);
          case Invalid => outcome := Invalid;
          case PastEnd => outcome := PastEnd;
        }
      case Invalid => outcome := Invalid;
      case PastEnd => outcome := PastEnd;
    }
  }
}
