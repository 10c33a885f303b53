/**
 The type-directed codec.  C++ picks a serialize or deserialize overload from a
 static type; here that type is a Shape, and a C++ value of that type is a Value
 that fits the Shape.
 */
module Codec {
  import opened Bytes

  datatype Shape =
    | Pod(size: nat)                // trivial type: its object representation is copied
    | Text                          // std::string or std::vector<std::byte>
    | Optional(size: nat)           // std::optional of a trivial type
    | List(elem: Shape)             // std::vector<T>
    | Record(fields: seq<Shape>)    // struct with its own overload
    | Omitted(size: nat)            // trivial field that the struct's overloads skip
    | Variant(alts: seq<Shape>)     // std::variant

  datatype Value =
    | Raw(rep: seq<Byte>)
    | Chars(chars: seq<Byte>)
    | Absent
    | Present(rep: seq<Byte>)
    | Items(items: seq<Value>)
    | Fields(values: seq<Value>)
    | Alt(index: nat, alt: Value)

  /** v is a value of the C++ type s; container sizes are size_t values. */
  predicate Fits(s: Shape, v: Value)
    decreases s, 1
  {
    match s
    case Pod(size) => v.Raw? && |v.rep| == size
    case Text => v.Chars? && |v.chars| < SIZE_LIMIT
    case Optional(size) => v.Absent? || (v.Present? && |v.rep| == size)
    case List(elem) => v.Items? && |v.items| < SIZE_LIMIT && AllFit(elem, v.items)
    case Record(fields) => v.Fields? && FieldsFit(fields, v.values)
    case Omitted(size) => v.Raw? && |v.rep| == size
    case Variant(alts) => v.Alt? && v.index < |alts| && v.index < SIZE_LIMIT && Fits(alts[v.index], v.alt)
  }

  predicate AllFit(elem: Shape, vs: seq<Value>)
    decreases elem, 2
  {
    forall i :: 0 <= i < |vs| ==> Fits(elem, vs[i])
  }

  predicate FieldsFit(fields: seq<Shape>, vs: seq<Value>)
    decreases fields, 0
  {
    |vs| == |fields| && forall i :: 0 <= i < |fields| ==> Fits(fields[i], vs[i])
  }

  // ---- what serialize appends ----

  function Encode(s: Shape, v: Value): (bs: seq<Byte>)
    requires Fits(s, v)
    ensures s.Variant? ==> |bs| >= SIZE_WIDTH
    decreases s, 0
  {
    match s
    case Pod(_) => v.rep
    case Text => SizeBytes(|v.chars|) + v.chars
    case Optional(_) => if v.Absent? then [0] else [1] + v.rep
    case List(elem) => SizeBytes(|v.items|) + EncodeAll(elem, v.items)
    case Record(fields) => EncodeFields(fields, v.values)
    case Omitted(_) => []
    case Variant(alts) => SizeBytes(v.index) + Encode(alts[v.index], v.alt)
  }

  function EncodeAll(elem: Shape, vs: seq<Value>): seq<Byte>
    requires AllFit(elem, vs)
    decreases elem, |vs| + 1
  {
    if vs == [] then [] else Encode(elem, vs[0]) + EncodeAll(elem, vs[1..])
  }

  function EncodeFields(fields: seq<Shape>, vs: seq<Value>): seq<Byte>
    requires FieldsFit(fields, vs)
    decreases fields, 0
  {
    if fields == [] then [] else Encode(fields[0], vs[0]) + EncodeFields(fields[1..], vs[1..])
  }

  // ---- what deserialize reads ----

  /** InvalidType is the exception the variant overload throws.  Truncated stands for
      reading past the end of the span, which the code does not check. */
  datatype Decoded<+T> = Got(value: T, rest: seq<Byte>) | InvalidType | Truncated
  {
    predicate IsFailure() { !Got? }
    function PropagateFailure<U>(): Decoded<U>
      requires IsFailure()
    {
      if InvalidType? then InvalidType else Truncated
    }
    function Extract(): (T, seq<Byte>)
      requires !IsFailure()
    {
      (value, rest)
    }
  }

  function Take(n: nat, bs: seq<Byte>): Decoded<seq<Byte>> {
    if n <= |bs| then Got(bs[..n], bs[n..]) else Truncated
  }

  function DecodeSize(bs: seq<Byte>): Decoded<nat> {
    var (rep, rest) :- Take(SIZE_WIDTH, bs);
    Got(FromLE(rep), rest)
  }

  function Decode(s: Shape, bs: seq<Byte>): Decoded<Value>
    decreases s, 0
  {
    match s
    case Pod(size) =>
      var (rep, rest) :- Take(size, bs);
      Got(Raw(rep), rest)
    case Text =>
      var (size, tail) :- DecodeSize(bs);
      var (chars, rest) :- Take(size, tail);
      Got(Chars(chars), rest)
    case Optional(size) =>
      var (engaged, tail) :- Take(1, bs);
      if engaged == [0] then Got(Absent, tail)
      else
        var (rep, rest) :- Take(size, tail);
        Got(Present(rep), rest)
    case List(elem) =>
      var (count, tail) :- DecodeSize(bs);
      var (items, rest) :- DecodeAll(elem, count, tail);
      Got(Items(items), rest)
    case Record(fields) =>
      var (values, rest) :- DecodeFields(fields, bs);
      Got(Fields(values), rest)
    case Omitted(size) => Got(Raw(Zeros(size)), bs)
    case Variant(alts) =>
      var (index, tail) :- DecodeSize(bs);
      if index < |alts| then
        var (alt, rest) :- Decode(alts[index], tail);
        Got(Alt(index, alt), rest)
      else InvalidType
  }

  function DecodeAll(elem: Shape, count: nat, bs: seq<Byte>): Decoded<seq<Value>>
    decreases elem, count + 1
  {
    if count == 0 then Got([], bs)
    else
      var (v, tail) :- Decode(elem, bs);
      var (vs, rest) :- DecodeAll(elem, count - 1, tail);
      Got([v] + vs, rest)
  }

  function DecodeFields(fields: seq<Shape>, bs: seq<Byte>): Decoded<seq<Value>>
    decreases fields, 0
  {
    if fields == [] then Got([], bs)
    else
      var (v, tail) :- Decode(fields[0], bs);
      var (vs, rest) :- DecodeFields(fields[1..], tail);
      Got([v] + vs, rest)
  }

  // ---- round trip ----

  /** What survives a trip over the wire: v with its omitted fields value-initialised. */
  function Received(s: Shape, v: Value): (r: Value)
    requires Fits(s, v)
    decreases s, 0
  {
    match s
    case Pod(_) => v
    case Text => v
    case Optional(_) => v
    case List(elem) => Items(AllReceived(elem, v.items))
    case Record(fields) => Fields(FieldsReceived(fields, v.values))
    case Omitted(size) => Raw(Zeros(size))
    case Variant(alts) => Alt(v.index, Received(alts[v.index], v.alt))
  }

  function AllReceived(elem: Shape, vs: seq<Value>): seq<Value>
    requires AllFit(elem, vs)
    decreases elem, |vs| + 1
  {
    if vs == [] then [] else [Received(elem, vs[0])] + AllReceived(elem, vs[1..])
  }

  function FieldsReceived(fields: seq<Shape>, vs: seq<Value>): (rs: seq<Value>)
    requires FieldsFit(fields, vs)
    ensures |rs| == |vs|
    ensures forall i :: 0 <= i < |vs| ==> rs[i] == Received(fields[i], vs[i])
    decreases fields, 0
  {
    if fields == [] then [] else [Received(fields[0], vs[0])] + FieldsReceived(fields[1..], vs[1..])
  }

  lemma DecodeSizeOfConcat(n: nat, b: seq<Byte>)
    requires n < SIZE_LIMIT
    ensures DecodeSize(SizeBytes(n) + b) == Got(n, b)
  {
    SizeRoundTrip(n);
  }

  lemma RoundTripText(v: Value, rest: seq<Byte>)
    requires Fits(Text, v)
    ensures Decode(Text, Encode(Text, v) + rest) == Got(v, rest)
  {
    assert Encode(Text, v) + rest == SizeBytes(|v.chars|) + (v.chars + rest);
    DecodeSizeOfConcat(|v.chars|, v.chars + rest);
  }

  lemma RoundTripOptional(size: nat, v: Value, rest: seq<Byte>)
    requires Fits(Optional(size), v)
    ensures Decode(Optional(size), Encode(Optional(size), v) + rest) == Got(v, rest)
  {
    if v.Present? {
      assert Encode(Optional(size), v) + rest == [1] + (v.rep + rest);
    }
  }

  /** Deserializing serialize(v) followed by anything yields v, up to omitted fields,
      and leaves exactly what followed. */
  lemma {:induction false} RoundTrip(s: Shape, v: Value, rest: seq<Byte>)
    requires Fits(s, v)
    ensures Decode(s, Encode(s, v) + rest) == Got(Received(s, v), rest)
    decreases s, 0
  {
    match s
    case Pod(_) =>
    case Text => RoundTripText(v, rest);
    case Optional(size) => RoundTripOptional(size, v, rest);
    case List(elem) =>
      var tail := EncodeAll(elem, v.items) + rest;
      assert Encode(s, v) + rest == SizeBytes(|v.items|) + tail;
      DecodeSizeOfConcat(|v.items|, tail);
      RoundTripAll(elem, v.items, rest);
    case Record(fields) => RoundTripFields(fields, v.values, rest);
    case Omitted(_) => assert [] + rest == rest;
    case Variant(alts) =>
      var tail := Encode(alts[v.index], v.alt) + rest;
      assert Encode(s, v) + rest == SizeBytes(v.index) + tail;
      DecodeSizeOfConcat(v.index, tail);
      RoundTrip(alts[v.index], v.alt, rest);
  }

  lemma {:induction false} RoundTripAll(elem: Shape, vs: seq<Value>, rest: seq<Byte>)
    requires AllFit(elem, vs)
    ensures DecodeAll(elem, |vs|, EncodeAll(elem, vs) + rest) == Got(AllReceived(elem, vs), rest)
    decreases elem, |vs| + 1
  {
    if vs == [] {
      assert [] + rest == rest;
    } else {
      var tail := EncodeAll(elem, vs[1..]) + rest;
      assert EncodeAll(elem, vs) + rest == Encode(elem, vs[0]) + tail;
      RoundTrip(elem, vs[0], tail);
      RoundTripAll(elem, vs[1..], rest);
    }
  }

  lemma {:induction false} RoundTripFields(fields: seq<Shape>, vs: seq<Value>, rest: seq<Byte>)
    requires FieldsFit(fields, vs)
    ensures DecodeFields(fields, EncodeFields(fields, vs) + rest) == Got(FieldsReceived(fields, vs), rest)
    decreases fields, 0
  {
    if fields == [] {
      assert [] + rest == rest;
    } else {
      var tail := EncodeFields(fields[1..], vs[1..]) + rest;
      assert EncodeFields(fields, vs) + rest == Encode(fields[0], vs[0]) + tail;
      RoundTrip(fields[0], vs[0], tail);
      RoundTripFields(fields[1..], vs[1..], rest);
    }
  }

  /** No encoding is a proper prefix of another: a byte stream splits into values in one way. */
  lemma EncodingsSplitUniquely(s: Shape, v: Value, a: seq<Byte>, w: Value, b: seq<Byte>)
    requires Fits(s, v) && Fits(s, w)
    requires Encode(s, v) + a == Encode(s, w) + b
    ensures Received(s, v) == Received(s, w) && a == b
  {
    RoundTrip(s, v, a);
    RoundTrip(s, w, b);
  }

  /** The type has no field that its overloads skip. */
  predicate Complete(s: Shape)
  {
    match s
    case Pod(_) => true
    case Text => true
    case Optional(_) => true
    case List(elem) => Complete(elem)
    case Record(fields) => forall f | f in fields :: Complete(f)
    case Omitted(_) => false
    case Variant(alts) => forall a | a in alts :: Complete(a)
  }

  /** A value of a complete type arrives unchanged. */
  lemma {:induction false} CompleteIsLossless(s: Shape, v: Value)
    requires Fits(s, v) && Complete(s)
    ensures Received(s, v) == v
    decreases s, 0
  {
    match s
    case Pod(_) =>
    case Text =>
    case Optional(_) =>
    case List(elem) => AllLossless(elem, v.items);
    case Record(fields) => FieldsLossless(fields, v.values);
    case Omitted(_) =>
    case Variant(alts) =>
      CompleteIsLossless(alts[v.index], v.alt);
  }

  lemma {:induction false} AllLossless(elem: Shape, vs: seq<Value>)
    requires AllFit(elem, vs) && Complete(elem)
    ensures AllReceived(elem, vs) == vs
    decreases elem, |vs| + 1
  {
    if vs != [] {
      CompleteIsLossless(elem, vs[0]);
      AllLossless(elem, vs[1..]);
    }
  }

  lemma {:induction false} FieldsLossless(fields: seq<Shape>, vs: seq<Value>)
    requires FieldsFit(fields, vs) && forall f | f in fields :: Complete(f)
    ensures FieldsReceived(fields, vs) == vs
    decreases fields, 0
  {
    if fields != [] {
      CompleteIsLossless(fields[0], vs[0]);
      FieldsLossless(fields[1..], vs[1..]);
    }
  }

  // ---- what can come out ----

  lemma {:induction false} FromLEBound(bs: seq<Byte>)
    ensures FromLE(bs) < Pow256(|bs|)
  {
    if bs != [] {
      FromLEBound(bs[1..]);
    }
  }

  lemma DecodedSizeFits(bs: seq<Byte>)
    ensures DecodeSize(bs).Got? ==> DecodeSize(bs).value < SIZE_LIMIT
  {
    if |bs| >= SIZE_WIDTH {
      FromLEBound(bs[..SIZE_WIDTH]);
      Pow256OfEight();
    }
  }

  /** Whatever deserialize returns is a value of its type. */
  lemma {:induction false} DecodedFits(s: Shape, bs: seq<Byte>)
    ensures Decode(s, bs).Got? ==> Fits(s, Decode(s, bs).value)
    decreases s, 0
  {
    DecodedSizeFits(bs);
    match s
    case List(elem) =>
      if DecodeSize(bs).Got? {
        AllDecodedFit(elem, DecodeSize(bs).value, DecodeSize(bs).rest);
      }
    case Record(fields) => FieldsDecodedFit(fields, bs);
    case Variant(alts) =>
      if DecodeSize(bs).Got? && DecodeSize(bs).value < |alts| {
        DecodedFits(alts[DecodeSize(bs).value], DecodeSize(bs).rest);
      }
    case _ =>
  }

  lemma {:induction false} AllDecodedFit(elem: Shape, count: nat, bs: seq<Byte>)
    ensures var d := DecodeAll(elem, count, bs); d.Got? ==> |d.value| == count && AllFit(elem, d.value)
    decreases elem, count + 1
  {
    if count > 0 {
      DecodedFits(elem, bs);
      if Decode(elem, bs).Got? {
        AllDecodedFit(elem, count - 1, Decode(elem, bs).rest);
      }
    }
  }

  lemma {:induction false} FieldsDecodedFit(fields: seq<Shape>, bs: seq<Byte>)
    ensures var d := DecodeFields(fields, bs); d.Got? ==> FieldsFit(fields, d.value)
    decreases fields, 0
  {
    if fields != [] {
      DecodedFits(fields[0], bs);
      if Decode(fields[0], bs).Got? {
        FieldsDecodedFit(fields[1..], Decode(fields[0], bs).rest);
      }
    }
  }

  /** The values of a type whose overloads skip nothing are exactly those that can be received. */
  lemma FitsIffReceivable(s: Shape, v: Value)
    requires Complete(s)
    ensures Fits(s, v) <==> exists bs :: Decode(s, bs) == Got(v, [])
  {
    if Fits(s, v) {
      RoundTrip(s, v, []);
      CompleteIsLossless(s, v);
      assert Decode(s, Encode(s, v) + []) == Got(v, []);
    } else {
      forall bs
        ensures Decode(s, bs) != Got(v, [])
      {
        DecodedFits(s, bs);
      }
    }
  }
}
