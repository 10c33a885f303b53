/**
 Where the parts of a value lie in its encoding.
 */
module CodecLayout {
  import opened Bytes
  import opened Codec

  /** The bytes of whole from at on begin with part. */
  predicate LiesAt(part: seq<Byte>, whole: seq<Byte>, at: nat) {
    at + |part| <= |whole| && whole[at..at + |part|] == part
  }

  lemma LiesAfter(part: seq<Byte>, whole: seq<Byte>, at: nat, before: seq<Byte>)
    requires LiesAt(part, whole, at)
    ensures LiesAt(part, before + whole, |before| + at)
  {
  }

  /** A string is its length and its characters. */
  lemma TextLayout(v: Value)
    requires Fits(Text, v)
    ensures var bs := Encode(Text, v);
      |bs| == 8 + |v.chars| && LiesAt(SizeBytes(|v.chars|), bs, 0) && LiesAt(v.chars, bs, 8)
  {
  }

  /** A trivial value is its bytes, an optional one a byte that says whether there is one, and then
      the value, and a field that the overloads skip is nothing. */
  lemma TrivialLayout(size: nat, v: Value)
    ensures Fits(Pod(size), v) ==> Encode(Pod(size), v) == v.rep
    ensures Fits(Omitted(size), v) ==> Encode(Omitted(size), v) == []
    ensures Fits(Optional(size), v) ==>
      var bs := Encode(Optional(size), v);
      if v.Absent? then |bs| == 1 && bs[0] == 0 else |bs| == 1 + size && bs[0] == 1 && LiesAt(v.rep, bs, 1)
  {
  }

  /** A variant is its index and its alternative. */
  lemma VariantLayout(alts: seq<Shape>, v: Value)
    requires Fits(Variant(alts), v)
    ensures var bs, alt := Encode(Variant(alts), v), Encode(alts[v.index], v.alt);
      |bs| == 8 + |alt| && LiesAt(SizeBytes(v.index), bs, 0) && LiesAt(alt, bs, 8)
  {
  }

  // ---- vectors ----

  /** How many bytes the first k elements take. */
  function ElemsLength(elem: Shape, vs: seq<Value>, k: nat): nat
    requires AllFit(elem, vs) && k <= |vs|
  {
    if k == 0 then 0 else ElemsLength(elem, vs, k - 1) + |Encode(elem, vs[k - 1])|
  }

  lemma {:induction false} ElemsLengthOfTail(elem: Shape, vs: seq<Value>, k: nat)
    requires AllFit(elem, vs) && 0 < k <= |vs|
    ensures ElemsLength(elem, vs, k) == |Encode(elem, vs[0])| + ElemsLength(elem, vs[1..], k - 1)
  {
    if k > 1 {
      ElemsLengthOfTail(elem, vs, k - 1);
    }
  }

  lemma {:induction false} ElemsLengthIs(elem: Shape, vs: seq<Value>)
    requires AllFit(elem, vs)
    ensures |EncodeAll(elem, vs)| == ElemsLength(elem, vs, |vs|)
    decreases |vs|
  {
    if vs != [] {
      ElemsLengthOfTail(elem, vs, |vs|);
      ElemsLengthIs(elem, vs[1..]);
    }
  }

  lemma ElemsLieInLonger(elem: Shape, vs: seq<Value>, k: nat, part: seq<Byte>)
    requires AllFit(elem, vs) && 0 < k < |vs|
    requires LiesAt(part, EncodeAll(elem, vs[1..]), ElemsLength(elem, vs[1..], k - 1))
    ensures LiesAt(part, EncodeAll(elem, vs), ElemsLength(elem, vs, k))
  {
    ElemsLengthOfTail(elem, vs, k);
    LiesAfter(part, EncodeAll(elem, vs[1..]), ElemsLength(elem, vs[1..], k - 1), Encode(elem, vs[0]));
  }

  lemma {:induction false} ElemsLie(elem: Shape, vs: seq<Value>, k: nat)
    requires AllFit(elem, vs) && k < |vs|
    ensures LiesAt(Encode(elem, vs[k]), EncodeAll(elem, vs), ElemsLength(elem, vs, k))
    decreases |vs|
  {
    if k > 0 {
      ElemsLie(elem, vs[1..], k - 1);
      ElemsLieInLonger(elem, vs, k, Encode(elem, vs[1..][k - 1]));
    }
  }

  /** A vector is the number of its elements and then the elements, each after those before it. */
  lemma ListLayout(elem: Shape, v: Value, k: nat)
    requires Fits(List(elem), v) && k < |v.items|
    ensures AllFit(elem, v.items)
    ensures var bs := Encode(List(elem), v);
      && |bs| == 8 + ElemsLength(elem, v.items, |v.items|) && LiesAt(SizeBytes(|v.items|), bs, 0)
      && LiesAt(Encode(elem, v.items[k]), bs, 8 + ElemsLength(elem, v.items, k))
  {
    ElemsLengthIs(elem, v.items);
    ElemsLie(elem, v.items, k);
    var at := ElemsLength(elem, v.items, k);
    LiesAfter(Encode(elem, v.items[k]), EncodeAll(elem, v.items), at, SizeBytes(|v.items|));
  }

  // ---- structs ----

  /** How many bytes the first k fields take. */
  function FieldsLength(fields: seq<Shape>, vs: seq<Value>, k: nat): nat
    requires FieldsFit(fields, vs) && k <= |vs|
  {
    if k == 0 then 0 else FieldsLength(fields, vs, k - 1) + |Encode(fields[k - 1], vs[k - 1])|
  }

  lemma {:induction false} FieldsLengthOfTail(fields: seq<Shape>, vs: seq<Value>, k: nat)
    requires FieldsFit(fields, vs) && 0 < k <= |vs|
    ensures FieldsLength(fields, vs, k) == |Encode(fields[0], vs[0])| + FieldsLength(fields[1..], vs[1..], k - 1)
  {
    if k > 1 {
      FieldsLengthOfTail(fields, vs, k - 1);
    }
  }

  lemma {:induction false} FieldsLengthIs(fields: seq<Shape>, vs: seq<Value>)
    requires FieldsFit(fields, vs)
    ensures |EncodeFields(fields, vs)| == FieldsLength(fields, vs, |vs|)
    decreases |vs|
  {
    if vs != [] {
      FieldsLengthOfTail(fields, vs, |vs|);
      FieldsLengthIs(fields[1..], vs[1..]);
    }
  }

  lemma FieldsLieInLonger(fields: seq<Shape>, vs: seq<Value>, k: nat, part: seq<Byte>)
    requires FieldsFit(fields, vs) && 0 < k < |vs|
    requires LiesAt(part, EncodeFields(fields[1..], vs[1..]), FieldsLength(fields[1..], vs[1..], k - 1))
    ensures LiesAt(part, EncodeFields(fields, vs), FieldsLength(fields, vs, k))
  {
    FieldsLengthOfTail(fields, vs, k);
    var at := FieldsLength(fields[1..], vs[1..], k - 1);
    LiesAfter(part, EncodeFields(fields[1..], vs[1..]), at, Encode(fields[0], vs[0]));
  }

  lemma {:induction false} FieldsLie(fields: seq<Shape>, vs: seq<Value>, k: nat)
    requires FieldsFit(fields, vs) && k < |vs|
    ensures LiesAt(Encode(fields[k], vs[k]), EncodeFields(fields, vs), FieldsLength(fields, vs, k))
    decreases |vs|
  {
    if k > 0 {
      FieldsLie(fields[1..], vs[1..], k - 1);
      FieldsLieInLonger(fields, vs, k, Encode(fields[1..][k - 1], vs[1..][k - 1]));
    }
  }

  /** A struct with its own overload is its fields in their order, without those it skips. */
  lemma RecordLayout(fields: seq<Shape>, v: Value, k: nat)
    requires Fits(Record(fields), v) && k < |fields|
    ensures FieldsFit(fields, v.values)
    ensures var bs := Encode(Record(fields), v);
      && |bs| == FieldsLength(fields, v.values, |fields|)
      && LiesAt(Encode(fields[k], v.values[k]), bs, FieldsLength(fields, v.values, k))
      && (fields[k].Omitted? ==> FieldsLength(fields, v.values, k + 1) == FieldsLength(fields, v.values, k))
  {
    FieldsLengthIs(fields, v.values);
    FieldsLie(fields, v.values, k);
  }
}
