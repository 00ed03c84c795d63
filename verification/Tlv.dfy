/** The typed, length-prefixed encoding under the plan fingerprint: its value tree,
    its bytes, a decoder, and the accumulating encoder the program uses. */
module Tlv {
  import opened Options

  type byte = x: int | 0 <= x < 256

  datatype Field = Field(id: nat, value: Value)

  datatype Value =
    | Null
    | Bool(b: bool)
    | Uint(n: int)
    | Bytes(s: seq<byte>)
    | Struct(fields: seq<Field>)
    | Array(items: seq<Value>)

  const TAG_NULL: byte := 0
  const TAG_BOOL: byte := 1
  const TAG_UINT: byte := 2
  const TAG_BYTES: byte := 3
  const TAG_STRUCT: byte := 4
  const TAG_ARRAY: byte := 5

  const TWO_TO_THE_32: int := 0x1_0000_0000
  const TWO_TO_THE_63: int := 0x8000_0000_0000_0000
  const TWO_TO_THE_64: int := 0x1_0000_0000_0000_0000

  function Tag(v: Value): byte {
    match v
    case Null => TAG_NULL
    case Bool(_) => TAG_BOOL
    case Uint(_) => TAG_UINT
    case Bytes(_) => TAG_BYTES
    case Struct(_) => TAG_STRUCT
    case Array(_) => TAG_ARRAY
  }

  // ---------- big-endian integers ----------

  /** The low `k` bytes of `v` in two's complement, most significant first. */
  function PutUint(k: nat, v: int): (s: seq<byte>)
    ensures |s| == k
  {
    if k == 0 then [] else PutUint(k - 1, v / 256) + [v % 256]
  }

  function GetUint(s: seq<byte>): nat {
    if |s| == 0 then 0 else GetUint(s[..|s| - 1]) * 256 + s[|s| - 1]
  }

  function Pow256(k: nat): (p: nat)
    ensures p > 0
  {
    if k == 0 then 1 else 256 * Pow256(k - 1)
  }

  lemma ModStep(v: int, m: int)
    requires m > 0
    ensures v % (256 * m) == (v / 256) % m * 256 + v % 256
  {
    var q, r := v / 256, v % 256;
    var q1, r1 := q / m, q % m;
    assert v == 256 * (m * q1 + r1) + r == (256 * m) * q1 + (256 * r1 + r);
    assert 0 <= 256 * r1 + r < 256 * m;
    DivModUnique(v, 256 * m, q1, 256 * r1 + r);
  }

  lemma DivModUnique(v: int, m: int, q: int, r: int)
    requires m > 0 && 0 <= r < m && v == m * q + r
    ensures v % m == r
  {
    MultipleIsFar(m, v / m - q);
    assert m * (v / m - q) == r - v % m;
  }

  lemma MultipleIsFar(m: int, d: int)
    requires m > 0
    ensures d == 0 || m * d >= m || m * d <= -m
  {
    if d >= 1 {
      assert m * d >= m * 1;
    } else if d <= -1 {
      assert m * d <= m * -1;
    }
  }

  lemma {:induction false} GetPutUint(k: nat, v: int)
    ensures GetUint(PutUint(k, v)) == v % Pow256(k)
  {
    if k > 0 {
      GetPutUint(k - 1, v / 256);
      ModStep(v, Pow256(k - 1));
      assert PutUint(k, v)[..k - 1] == PutUint(k - 1, v / 256);
    }
  }

  lemma Pow256Values()
    ensures Pow256(2) == 0x1_0000 && Pow256(4) == TWO_TO_THE_32 && Pow256(8) == TWO_TO_THE_64
  {
    assert Pow256(2) == 256 * Pow256(1) == 256 * (256 * Pow256(0));
    assert Pow256(4) == 256 * Pow256(3) == 256 * (256 * Pow256(2));
    assert Pow256(6) == 256 * Pow256(5) == 256 * (256 * Pow256(4));
    assert Pow256(8) == 256 * Pow256(7) == 256 * (256 * Pow256(6));
  }

  // ---------- the encoding ----------

  function Payload(v: Value): seq<byte>
    decreases v, 0
  {
    match v
    case Null => []
    case Bool(b) => [if b then 1 else 0]
    case Uint(n) => PutUint(8, n)
    case Bytes(s) => s
    case Struct(fields) => Fields(fields)
    case Array(items) => Items(items)
  }

  /** One element: tag, four length bytes, payload. */
  function Element(v: Value): seq<byte>
    decreases v, 1
  {
    [Tag(v)] + PutUint(4, |Payload(v)|) + Payload(v)
  }

  /** One member: two id bytes, then its element. */
  function Member(f: Field): seq<byte>
    decreases f
  {
    PutUint(2, f.id) + Element(f.value)
  }

  function Fields(fs: seq<Field>): seq<byte>
    decreases fs
  {
    if |fs| == 0 then [] else Member(fs[0]) + Fields(fs[1..])
  }

  function Items(vs: seq<Value>): seq<byte>
    decreases vs
  {
    if |vs| == 0 then [] else Element(vs[0]) + Items(vs[1..])
  }

  /** Member ids fit two bytes and counts fit a machine word. */
  predicate InRange(v: Value)
    decreases v
  {
    match v
    case Uint(n) => -TWO_TO_THE_63 <= n < TWO_TO_THE_63
    case Struct(fields) => FieldsInRange(fields)
    case Array(items) => ItemsInRange(items)
    case _ => true
  }

  predicate FieldInRange(f: Field)
    decreases f
  {
    f.id < 0x1_0000 && InRange(f.value)
  }

  predicate FieldsInRange(fs: seq<Field>)
    decreases fs
  {
    |fs| == 0 || (FieldInRange(fs[0]) && FieldsInRange(fs[1..]))
  }

  predicate ItemsInRange(vs: seq<Value>)
    decreases vs
  {
    |vs| == 0 || (InRange(vs[0]) && ItemsInRange(vs[1..]))
  }

  // ---------- the decoder ----------

  function ParseElement(s: seq<byte>): (r: Option<(Value, seq<byte>)>)
    ensures r.Some? ==> |r.value.1| < |s|
    decreases |s|, 0
  {
    if |s| < 5 then None
    else
      var length := GetUint(s[1..5]);
      if 5 + length > |s| then None
      else
        match ParsePayload(s[0], s[5..5 + length])
        case None => None
        case Some(v) => Some((v, s[5 + length..]))
  }

  function ParsePayload(tag: byte, s: seq<byte>): Option<Value>
    decreases |s|, 2
  {
    if tag == TAG_NULL then (if |s| == 0 then Some(Null) else None)
    else if tag == TAG_BOOL then (if |s| == 1 && s[0] <= 1 then Some(Bool(s[0] == 1)) else None)
    else if tag == TAG_UINT then
      (if |s| != 8 then None
       else var u := GetUint(s); Some(Uint(if u < TWO_TO_THE_63 then u else u - TWO_TO_THE_64)))
    else if tag == TAG_BYTES then Some(Bytes(s))
    else if tag == TAG_STRUCT then
      match ParseFields(s) { case None => None case Some(fs) => Some(Struct(fs)) }
    else if tag == TAG_ARRAY then
      match ParseItems(s) { case None => None case Some(vs) => Some(Array(vs)) }
    else None
  }

  function ParseFields(s: seq<byte>): Option<seq<Field>>
    decreases |s|, 1
  {
    if |s| == 0 then Some([])
    else if |s| < 2 then None
    else
      match ParseElement(s[2..])
      case None => None
      case Some((v, rest)) =>
        match ParseFields(rest)
        case None => None
        case Some(fs) => Some([Field(GetUint(s[..2]), v)] + fs)
  }

  function ParseItems(s: seq<byte>): Option<seq<Value>>
    decreases |s|, 1
  {
    if |s| == 0 then Some([])
    else
      match ParseElement(s)
      case None => None
      case Some((v, rest)) =>
        match ParseItems(rest)
        case None => None
        case Some(vs) => Some([v] + vs)
  }

  lemma LengthReadsBack(n: nat)
    requires n < TWO_TO_THE_32
    ensures GetUint(PutUint(4, n)) == n
  {
    GetPutUint(4, n);
    Pow256Values();
    DivModUnique(n, TWO_TO_THE_32, 0, n);
  }

  /** Where the parts of one framed element lie when other bytes follow it. */
  lemma ElementParts(tag: byte, length: seq<byte>, payload: seq<byte>, rest: seq<byte>)
    requires |length| == 4
    ensures var s := [tag] + length + payload + rest;
            && |s| >= 5 + |payload| && s[0] == tag && s[1..5] == length
            && s[5..5 + |payload|] == payload && s[5 + |payload|..] == rest
  {
  }

  /** Decoding undoes encoding, whatever bytes follow. */
  lemma {:induction false} ParseElementInverse(v: Value, rest: seq<byte>)
    requires InRange(v) && |Payload(v)| < TWO_TO_THE_32
    ensures ParseElement(Element(v) + rest) == Some((v, rest))
    decreases v, 1
  {
    var n := |Payload(v)|;
    LengthReadsBack(n);
    ElementParts(Tag(v), PutUint(4, n), Payload(v), rest);
    ParsePayloadInverse(v);
  }

  lemma {:induction false} ParsePayloadInverse(v: Value)
    requires InRange(v) && |Payload(v)| < TWO_TO_THE_32
    ensures ParsePayload(Tag(v), Payload(v)) == Some(v)
    decreases v, 0
  {
    match v
    case Uint(n) =>
      GetPutUint(8, n);
      Pow256Values();
      if n >= 0 {
        DivModUnique(n, TWO_TO_THE_64, 0, n);
      } else {
        DivModUnique(n, TWO_TO_THE_64, -1, n + TWO_TO_THE_64);
      }
    case Struct(fields) => ParseFieldsInverse(fields);
    case Array(items) => ParseItemsInverse(items);
    case _ =>
  }

  lemma {:induction false} ParseFieldsInverse(fs: seq<Field>)
    requires FieldsInRange(fs) && |Fields(fs)| < TWO_TO_THE_32
    ensures ParseFields(Fields(fs)) == Some(fs)
    decreases fs
  {
    if |fs| > 0 {
      ParseMemberInverse(fs[0], Fields(fs[1..]));
      ParseFieldsInverse(fs[1..]);
      assert fs == [fs[0]] + fs[1..];
    }
  }

  lemma MemberParts(id: seq<byte>, element: seq<byte>, rest: seq<byte>)
    requires |id| == 2
    ensures (id + element + rest)[..2] == id && (id + element + rest)[2..] == element + rest
  {
  }

  lemma {:induction false} ParseMemberInverse(f: Field, rest: seq<byte>)
    requires FieldInRange(f) && |Element(f.value)| < TWO_TO_THE_32
    ensures var s := Member(f) + rest;
            |s| >= 2 && GetUint(s[..2]) == f.id && ParseElement(s[2..]) == Some((f.value, rest))
    decreases f
  {
    GetPutUint(2, f.id);
    Pow256Values();
    DivModUnique(f.id, 0x1_0000, 0, f.id);
    MemberParts(PutUint(2, f.id), Element(f.value), rest);
    ParseElementInverse(f.value, rest);
  }

  lemma {:induction false} ParseItemsInverse(vs: seq<Value>)
    requires ItemsInRange(vs) && |Items(vs)| < TWO_TO_THE_32
    ensures ParseItems(Items(vs)) == Some(vs)
    decreases vs
  {
    if |vs| > 0 {
      assert vs[0] in vs;
      ParseElementInverse(vs[0], Items(vs[1..]));
      ParseItemsInverse(vs[1..]);
      assert vs == [vs[0]] + vs[1..];
    }
  }

  /** Beyond 2^32 bytes the length field wraps and different arrays share one encoding:
      one long token, and an empty token followed by a shorter one. */
  lemma LengthWrapCollides(t: seq<byte>)
    requires |t| == TWO_TO_THE_32 - 5
    ensures var a, b := Array([Bytes(Element(Bytes(t)))]), Array([Bytes([]), Bytes(t)]);
            a != b && Element(a) == Element(b)
  {
    var s := Element(Bytes(t));
    var a, b := Array([Bytes(s)]), Array([Bytes([]), Bytes(t)]);
    assert |a.items| != |b.items|;
    assert Payload(Bytes(t)) == t;
    assert |s| == 1 + 4 + |t| == TWO_TO_THE_32;
    WrapToZero();
    assert Element(Bytes(s)) == [TAG_BYTES] + PutUint(4, 0) + s;
    assert Element(Bytes([])) == [TAG_BYTES] + PutUint(4, 0) + [];
    assert [Bytes(s)][1..] == [];
    assert Items([Bytes(s)]) == Element(Bytes(s)) + Items([]) == Element(Bytes(s));
    assert [Bytes([]), Bytes(t)][1..] == [Bytes(t)] && [Bytes(t)][1..] == [];
    assert Items([Bytes(t)]) == s + Items([]) == s;
    assert Items([Bytes([]), Bytes(t)]) == Element(Bytes([])) + Items([Bytes(t)]);
    assert Items([Bytes(s)]) == Items([Bytes([]), Bytes(t)]);
  }

  lemma WrapToZero()
    ensures PutUint(4, TWO_TO_THE_32) == PutUint(4, 0)
  {
    assert PutUint(3, TWO_TO_THE_32 / 256) == PutUint(2, TWO_TO_THE_32 / 256 / 256) + [0];
    assert PutUint(3, 0) == PutUint(2, 0) + [0];
    assert PutUint(2, TWO_TO_THE_32 / 256 / 256) == PutUint(1, TWO_TO_THE_32 / 256 / 256 / 256) + [0];
    assert PutUint(2, 0) == PutUint(1, 0) + [0];
    assert PutUint(1, 256) == PutUint(0, 1) + [0];
    assert PutUint(1, 0) == PutUint(0, 0) + [0];
  }

  // ---------- concatenations ----------

  lemma {:induction false} FieldsAppend(a: seq<Field>, b: seq<Field>)
    ensures Fields(a + b) == Fields(a) + Fields(b)
  {
    if |a| == 0 {
      assert a + b == b;
    } else {
      assert (a + b)[1..] == a[1..] + b;
      FieldsAppend(a[1..], b);
    }
  }

  lemma {:induction false} ItemsAppend(a: seq<Value>, b: seq<Value>)
    ensures Items(a + b) == Items(a) + Items(b)
  {
    if |a| == 0 {
      assert a + b == b;
    } else {
      assert (a + b)[1..] == a[1..] + b;
      ItemsAppend(a[1..], b);
    }
  }

  /** `tlvElement`. */
  function Framed(tag: byte, payload: seq<byte>): seq<byte> {
    [tag] + PutUint(4, |payload|) + payload
  }

  /** `tlvConcat`. */
  function Concat(elements: seq<seq<byte>>): seq<byte> {
    if |elements| == 0 then [] else Concat(elements[..|elements| - 1]) + elements[|elements| - 1]
  }

  lemma ConcatSnoc(elements: seq<seq<byte>>, x: seq<byte>)
    ensures Concat(elements + [x]) == Concat(elements) + x
  {
    assert (elements + [x])[..|elements|] == elements;
  }

  lemma ItemsSnoc(vs: seq<Value>, v: Value)
    ensures Items(vs + [v]) == Items(vs) + Element(v)
  {
    ItemsAppend(vs, [v]);
    assert [v][1..] == [];
    assert Items([v]) == Element(v) + Items([]) == Element(v);
  }

  /** One more member's bytes go at the end. */
  lemma FieldsSnoc(fs: seq<Field>, id: nat, v: Value)
    ensures Fields(fs + [Field(id, v)])
            == Fields(fs) + (PutUint(2, id) + ([Tag(v)] + PutUint(4, |Payload(v)|) + Payload(v)))
  {
    FieldsAppend(fs, [Field(id, v)]);
    assert [Field(id, v)][1..] == [];
    assert Fields([Field(id, v)]) == Member(Field(id, v)) + Fields([]) == PutUint(2, id) + Element(v);
  }

  lemma Regroup(a: seq<byte>, b: seq<byte>, c: seq<byte>, d: seq<byte>, e: seq<byte>)
    ensures a + b + c + d + e == a + (b + (c + d + e))
  {
  }

  // ---------- typed members ----------

  function BoolPtr(o: Option<bool>): Value { match o case None => Null case Some(b) => Bool(b) }

  function UintPtr(o: Option<int>): Value { match o case None => Null case Some(n) => Uint(n) }

  function BytesPtr(o: Option<seq<byte>>): Value { match o case None => Null case Some(s) => Bytes(s) }

  /** `tlvEncoder`: the members of one structure in the order they are written. */
  class Encoder {
    var buf: seq<byte>
    ghost var members: seq<Field>

    ghost predicate Valid() reads this { buf == Fields(members) }

    constructor ()
      ensures Valid() && members == []
    {
      buf := [];
      members := [];
    }

    method WriteField(id: nat, tag: byte, payload: seq<byte>, ghost v: Value)
      requires Valid() && tag == Tag(v) && payload == Payload(v)
      modifies this
      ensures Valid() && members == old(members) + [Field(id, v)]
    {
      FieldsSnoc(members, id, v);
      hide Fields, PutUint, Element, Tag, Payload;
      buf := buf + PutUint(2, id);
      buf := buf + [tag];
      buf := buf + PutUint(4, |payload|);
      buf := buf + payload;
      Regroup(old(buf), PutUint(2, id), [tag], PutUint(4, |payload|), payload);
      members := members + [Field(id, v)];
    }

    method WriteNull(id: nat)
      requires Valid()
      modifies this
      ensures Valid() && members == old(members) + [Field(id, Null)]
    {
      WriteField(id, TAG_NULL, [], Null);
    }

    method WriteBool(id: nat, b: bool)
      requires Valid()
      modifies this
      ensures Valid() && members == old(members) + [Field(id, Bool(b))]
    {
      WriteField(id, TAG_BOOL, [if b then 1 else 0], Bool(b));
    }

    method WriteBoolPtr(id: nat, o: Option<bool>)
      requires Valid()
      modifies this
      ensures Valid() && members == old(members) + [Field(id, BoolPtr(o))]
    {
      if o.None? { WriteNull(id); } else { WriteBool(id, o.value); }
    }

    method WriteUintPtr(id: nat, o: Option<int>)
      requires Valid()
      modifies this
      ensures Valid() && members == old(members) + [Field(id, UintPtr(o))]
    {
      if o.None? { WriteNull(id); } else { WriteField(id, TAG_UINT, PutUint(8, o.value), Uint(o.value)); }
    }

    method WriteBytes(id: nat, s: seq<byte>)
      requires Valid()
      modifies this
      ensures Valid() && members == old(members) + [Field(id, Bytes(s))]
    {
      WriteField(id, TAG_BYTES, s, Bytes(s));
    }

    method WriteBytesPtr(id: nat, o: Option<seq<byte>>)
      requires Valid()
      modifies this
      ensures Valid() && members == old(members) + [Field(id, BytesPtr(o))]
    {
      if o.None? { WriteNull(id); } else { WriteBytes(id, o.value); }
    }

    method WriteArray(id: nat, elements: seq<seq<byte>>, ghost items: seq<Value>)
      requires Valid() && Concat(elements) == Items(items)
      modifies this
      ensures Valid() && members == old(members) + [Field(id, Array(items))]
    {
      WriteField(id, TAG_ARRAY, Concat(elements), Array(items));
    }

    method WriteArrayPtr(id: nat, present: bool, elements: seq<seq<byte>>, ghost items: seq<Value>)
      requires Valid() && (present ==> Concat(elements) == Items(items))
      modifies this
      ensures Valid() && members == old(members) + [Field(id, if present then Array(items) else Null)]
    {
      if present { WriteArray(id, elements, items); } else { WriteNull(id); }
    }
  }
}
