/** Type descriptors: what ValidateTypeDescriptor accepts, and why accepted
    fields always fit their payload. */
module TypeDescriptors {
  import opened Wire

  /** A C string held in a fixed buffer: the bytes before the first NUL. It fills
      the buffer when there is none. */
  type Chars = s: seq<byte> | NoNul(s)

  predicate NoNul(s: seq<byte>) { s == [] || (s[0] != 0 && NoNul(s[1..])) }

  const NAME_BUFFER := 160
  const FIELD_NAME_BUFFER := 96
  const MAX_TYPE_FIELDS := 128
  const DESCRIPTOR_SIZE := 192 + 112 * MAX_TYPE_FIELDS

  const BOOL: u8 := 1

  datatype Field = Field(name: Chars, kind: u8, offset: u32, elementSize: u32, count: u32)

  datatype TypeDescriptor = TypeDescriptor(
    version: u32, structSize: u32, typeId: u64, name: Chars, payloadSize: u32, payloadAlignment: u32,
        fields: seq<Field>)

  function PrimitiveSize(kind: u8): nat {
    if kind == 1 || kind == 2 || kind == 3 then 1          // BOOL INT8 UINT8
    else if kind == 4 || kind == 5 then 2                  // INT16 UINT16
    else if kind == 6 || kind == 7 || kind == 10 then 4    // INT32 UINT32 FLOAT32
    else if kind == 8 || kind == 9 || kind == 11 then 8    // INT64 UINT64 FLOAT64
    else 0
  }

  /** FNV-1a over 64 bits. */
  function Fnv(bytes: seq<byte>): bv64 {
    if bytes == [] then 14695981039346656037
    else (Fnv(bytes[..|bytes| - 1]) ^ (bytes[|bytes| - 1] as bv64)) * 1099511628211
  }

  function Hash(bytes: seq<byte>): u64 { Fnv(bytes) as nat }

  function StableTypeId(name: Chars): u64 { Hash(name) }

  predicate PowerOfTwo(n: nat) {
    n == 1 || (n > 1 && n % 2 == 0 && PowerOfTwo(n / 2))
  }

  /** The bytes that n elements take. Written as a sum, so that proofs about
      layouts stay linear. */
  function Span(size: nat, n: nat): nat {
    if n == 0 then 0 else Span(size, n - 1) + size
  }

  lemma {:induction false} SpanIsProduct(size: nat, n: nat)
    ensures Span(size, n) == size * n
  {
    if n > 0 {
      SpanIsProduct(size, n - 1);
      assert size * n == size * (n - 1) + size;
    }
  }

  function Extent(f: Field): nat { Span(f.elementSize, f.count) }

  function End(f: Field): nat { f.offset + Extent(f) }

  /** Field i on its own, and against the fields before it. */
  predicate FieldOk(d: TypeDescriptor, f: Field) {
    && 0 < |f.name| < FIELD_NAME_BUFFER
    && PrimitiveSize(f.kind) != 0 && f.elementSize == PrimitiveSize(f.kind)
    && f.count != 0 && End(f) <= d.payloadSize
  }

  predicate Apart(f: Field, g: Field) {
    f.name != g.name && (End(g) <= f.offset || End(f) <= g.offset)
  }

  predicate HeaderOk(d: TypeDescriptor) {
    && d.version == 1 && d.structSize == DESCRIPTOR_SIZE && d.typeId != 0
    && 0 < |d.name| < NAME_BUFFER
    && d.payloadSize != 0 && PowerOfTwo(d.payloadAlignment) && d.payloadSize % d.payloadAlignment == 0
    && 0 < |d.fields| <= MAX_TYPE_FIELDS
    && StableTypeId(d.name) == d.typeId
  }

  predicate ValidDescriptor(d: TypeDescriptor) {
    && HeaderOk(d)
    && (forall i :: 0 <= i < |d.fields| ==> FieldOk(d, d.fields[i]))
    && (forall i, j :: 0 <= j < i < |d.fields| ==> Apart(d.fields[i], d.fields[j]))
  }

  /** The source's nested loops decide exactly that. */
  method ValidateTypeDescriptor(d: TypeDescriptor) returns (ok: bool)
    ensures ok <==> ValidDescriptor(d)
  {
    if d.version != 1 || d.structSize != DESCRIPTOR_SIZE || d.typeId == 0 || d.name == [] || |d.name| >= NAME_BUFFER
       || d.payloadSize == 0 || d.payloadAlignment == 0 || !PowerOfTwo(d.payloadAlignment)
       || d.payloadSize % d.payloadAlignment != 0 || |d.fields| == 0 || |d.fields| > MAX_TYPE_FIELDS { return false; }
    if StableTypeId(d.name) != d.typeId { return false; }
    hide PowerOfTwo, StableTypeId;
    for i := 0 to |d.fields|
      invariant forall k :: 0 <= k < i ==> FieldOk(d, d.fields[k])
      invariant forall k, j :: 0 <= j < k < i ==> Apart(d.fields[k], d.fields[j])
    {
      var f := d.fields[i];
      if f.name == [] || |f.name| >= FIELD_NAME_BUFFER || PrimitiveSize(f.kind) == 0
         || f.elementSize != PrimitiveSize(f.kind) || f.count == 0 || f.offset > d.payloadSize { return false; }
      var bytes := f.elementSize * f.count;
      SpanIsProduct(f.elementSize, f.count);
      if bytes > d.payloadSize - f.offset { return false; }
      for j := 0 to i
        invariant forall k :: 0 <= k < j ==> Apart(f, d.fields[k])
      {
        var previous := d.fields[j];
        if f.name == previous.name { assert !Apart(f, previous); return false; }
        var end := previous.offset + previous.elementSize * previous.count;
        SpanIsProduct(previous.elementSize, previous.count);
        if f.offset < end && previous.offset < f.offset + bytes { assert !Apart(f, previous); return false; }
      }
    }
    return true;
  }

  // ---------------------------------------------------------------------
  // Disjoint fields cannot be larger, together, than what they lie in
  // ---------------------------------------------------------------------

  function TotalExtent(fields: seq<Field>): nat {
    if fields == [] then 0 else TotalExtent(fields[..|fields| - 1]) + Extent(fields[|fields| - 1])
  }

  ghost function Range(lo: nat, hi: nat): (r: set<nat>)
    ensures forall x: nat :: x in r <==> lo <= x < hi
  {
    if lo >= hi then {} else Range(lo, hi - 1) + {hi - 1}
  }

  lemma {:induction false} RangeSize(lo: nat, hi: nat)
    requires lo <= hi
    ensures |Range(lo, hi)| == hi - lo
    decreases hi - lo
  {
    if lo < hi {
      RangeSize(lo, hi - 1);
    }
  }

  ghost function Covered(fields: seq<Field>): set<nat> {
    if fields == [] then {} else
    Covered(fields[..|fields| - 1]) + Range(fields[|fields| - 1].offset, End(fields[|fields| - 1]))
  }

  lemma {:induction false} CoveredIs(fields: seq<Field>)
    ensures forall x: nat :: x in Covered(fields) <==>
        exists i :: 0 <= i < |fields| && fields[i].offset <= x < End(fields[i])
  {
    if fields != [] {
      var init := fields[..|fields| - 1];
      CoveredIs(init);
      assert forall i :: 0 <= i < |init| ==> init[i] == fields[i];
    }
  }

  /** A field apart from all others covers bytes of its own. */
  lemma CoversApart(fields: seq<Field>, f: Field)
    requires forall i :: 0 <= i < |fields| ==> Apart(f, fields[i])
    ensures Covered(fields) !! Range(f.offset, End(f))
  {
    CoveredIs(fields);
    forall x | x in Covered(fields) ensures x !in Range(f.offset, End(f)) {
      var i :| 0 <= i < |fields| && fields[i].offset <= x < End(fields[i]);
      assert Apart(f, fields[i]);
    }
  }

  lemma {:induction false} CoveredSize(fields: seq<Field>)
    requires forall i, j :: 0 <= j < i < |fields| ==> Apart(fields[i], fields[j])
    ensures |Covered(fields)| == TotalExtent(fields)
  {
    if fields != [] {
      var init, last := fields[..|fields| - 1], fields[|fields| - 1];
      CoveredSize(init);
      CoversApart(init, last);
      RangeSize(last.offset, End(last));
    }
  }

  /** Whatever set of fields the pairwise overlap check accepts. */
  lemma FieldsFitPayload(d: TypeDescriptor)
    requires ValidDescriptor(d)
    ensures TotalExtent(d.fields) <= d.payloadSize
  {
    CoveredSize(d.fields);
    CoveredIs(d.fields);
    RangeSize(0, d.payloadSize);
    assert Covered(d.fields) <= Range(0, d.payloadSize);
    SubsetSize(Covered(d.fields), Range(0, d.payloadSize));
  }

  lemma SubsetSize<T>(a: set<T>, b: set<T>)
    requires a <= b
    ensures |a| <= |b|
  {
    assert b == a + (b - a);
  }
}
