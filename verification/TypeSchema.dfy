/** The schema of a type on the wire: names, kinds and counts. A peer rebuilds a
    packed descriptor from it, with the same wire identity. */
module TypeSchema {
  import opened Wire
  import opened NetworkTypes
  import opened TypeDescriptors
  import opened ValueLayout
  import opened ValueCodec

  // Writers put their bytes in front of what follows.

  function PutField(f: Field, rest: seq<byte>): seq<byte> {
    PutText(f.name, [f.kind] + (BE(f.count, 4) + rest))
  }

  function PutFields(fields: seq<Field>, rest: seq<byte>): seq<byte> {
    if fields == [] then rest else PutField(fields[0], PutFields(fields[1..], rest))
  }

  function SchemaBytes(d: TypeDescriptor): seq<byte> {
    BE(1, 2) + PutText(d.name, BE(|d.fields|, 2) + PutFields(d.fields, []))
  }

  function EncodeSchema(d: TypeDescriptor): Result<seq<byte>> {
    var t :- WireType(d);
    if |SchemaBytes(d)| > MAX_PARAMETER_WIRE then Err(EMSGSIZE) else Ok(SchemaBytes(d))
  }

  datatype NameRead = BadName | GotName(name: Chars, after: seq<byte>)
  datatype FieldRead = BadField | OneField(field: Field, after: seq<byte>)
  datatype FieldsRead = BadFields | Fields(fields: seq<Field>, size: u32, after: seq<byte>)

  /** A name is text, not empty, that fits its buffer with a NUL after it. */
  function TakeName(b: seq<byte>, capacity: nat): NameRead
    requires capacity > 0
  {
    match TakeText(b, capacity - 1)
    case BadText => BadName
    case GotText(text, after) => if text == [] || !NoNul(text) then BadName else GotName(text, after)
  }

  /** One field off the front of b; it starts where the packed payload ends. */
  function TakeField(b: seq<byte>, size: nat): (r: FieldRead)
    requires size <= MAX_PARAMETER_WIRE
    ensures r.OneField? ==> r.field.offset == size && size + Extent(r.field) <= MAX_PARAMETER_WIRE
  {
    var name := TakeName(b, FIELD_NAME_BUFFER);
    if name.BadName? || |name.after| < 5 then BadField else
    var kind, count := name.after[0], FromBE(name.after[1..5]);
    CountIsU32(name.after[1..5]);
    var element := PrimitiveSize(kind);
    if element == 0 || count == 0 || Span(element, count) > MAX_PARAMETER_WIRE - size then BadField
    else OneField(Field(name.name, kind, size, element, count), name.after[5..])
  }

  lemma CountIsU32(s: seq<byte>)
    requires |s| == 4
    ensures FromBE(s) < 0x1_0000_0000
  {
    FromBEBound(s);
    Widths();
  }

  function TakeFields(b: seq<byte>, n: nat, acc: seq<Field>, size: nat): (r: FieldsRead)
    requires size <= MAX_PARAMETER_WIRE
    ensures r.Fields? ==> r.size <= MAX_PARAMETER_WIRE
    decreases n
  {
    if n == 0 then Fields(acc, size, b) else
    var next := TakeField(b, size);
    if next.BadField? then BadFields
    else TakeFields(next.after, n - 1, acc + [next.field], size + Extent(next.field))
  }

  function Described(name: Chars, fields: seq<Field>, size: u32): TypeDescriptor {
    TypeDescriptor(1, DESCRIPTOR_SIZE, StableTypeId(name), name, size, 1, fields)
  }

  function ParseSchema(b: seq<byte>): Result<TypeDescriptor> {
    if |b| > MAX_PARAMETER_WIRE then Err(EMSGSIZE) else
    if b == [] then Err(EPROTO) else
    if |b| < 2 || FromBE(b[..2]) != 1 then Err(EPROTONOSUPPORT) else
    var name := TakeName(b[2..], NAME_BUFFER);
    if name.BadName? || |name.after| < 2 then Err(EPROTO) else
    ParseBody(name.name, name.after)
  }

  function ParseBody(name: Chars, r: seq<byte>): Result<TypeDescriptor>
    requires |r| >= 2
  {
    var n := FromBE(r[..2]);
    if n == 0 || n > MAX_TYPE_FIELDS then Err(EPROTO) else
    var fields := TakeFields(r[2..], n, [], 0);
    if fields.BadFields? || fields.after != [] then Err(EPROTO) else
    Ok(Described(name, fields.fields, fields.size))
  }

  function DecodeSchema(b: seq<byte>, expected: TypeIdentity): Result<TypeDescriptor> {
    var d :- ParseSchema(b);
    var actual := WireType(d);
    if actual.Err? then Err(EPROTO) else
    if actual.value != expected then Err(EPROTOTYPE) else Ok(d)
  }

  // ---------------------------------------------------------------------
  // The packed descriptor
  // ---------------------------------------------------------------------

  /** The same elements one after the other, without padding. */
  function Packed(fields: seq<Field>): (p: seq<Field>)
    requires TotalExtent(fields) <= MAX_PARAMETER_WIRE
    ensures |p| == |fields|
  {
    if fields == [] then [] else
    var n := |fields| - 1;
    Packed(fields[..n]) + [fields[n].(offset := TotalExtent(fields[..n]))]
  }

  lemma {:induction false} TotalOfFront(fields: seq<Field>, i: nat)
    requires i <= |fields|
    ensures TotalExtent(fields[..i]) <= TotalExtent(fields)
    ensures i < |fields| ==> TotalExtent(fields[..i + 1]) == TotalExtent(fields[..i]) + Extent(fields[i])
  {
    if i == |fields| {
      assert fields[..i] == fields;
    } else {
      assert fields[..i + 1][..i] == fields[..i];
      if i + 1 == |fields| {
        assert fields[..i + 1] == fields;
      } else {
        TotalOfFront(fields[..|fields| - 1], i);
        assert fields[..|fields| - 1][..i] == fields[..i];
      }
    }
  }

  lemma {:induction false} PackedAt(fields: seq<Field>, i: nat)
    requires TotalExtent(fields) <= MAX_PARAMETER_WIRE && i < |fields|
    ensures TotalExtent(fields[..i]) <= MAX_PARAMETER_WIRE
    ensures Packed(fields)[i] == fields[i].(offset := TotalExtent(fields[..i]))
  {
    TotalOfFront(fields, i);
    if i + 1 < |fields| {
      PackedAt(fields[..|fields| - 1], i);
      assert fields[..|fields| - 1][..i] == fields[..i];
    }
  }

  lemma PackedApart(fields: seq<Field>, i: nat, j: nat)
    requires TotalExtent(fields) <= MAX_PARAMETER_WIRE && j < i < |fields| && Apart(fields[i], fields[j])
    ensures Apart(Packed(fields)[i], Packed(fields)[j])
  {
    PackedAt(fields, i);
    PackedAt(fields, j);
    TotalOfFront(fields, j);
    TotalOfFront(fields[..i], j + 1);
    assert fields[..i][..j + 1] == fields[..j + 1];
  }

  lemma PackedFieldOk(d: TypeDescriptor, i: nat, e: TypeDescriptor)
    requires TotalExtent(d.fields) <= MAX_PARAMETER_WIRE && i < |d.fields| && FieldOk(d, d.fields[i])
    requires e.payloadSize == TotalExtent(d.fields)
    ensures FieldOk(e, Packed(d.fields)[i])
  {
    PackedAt(d.fields, i);
    TotalOfFront(d.fields, i);
    TotalOfFront(d.fields, i + 1);
  }

  function PackedDescriptor(d: TypeDescriptor): TypeDescriptor
    requires TotalExtent(d.fields) <= MAX_PARAMETER_WIRE
  {
    Described(d.name, Packed(d.fields), TotalExtent(d.fields))
  }

  lemma PackedSameElements(fields: seq<Field>)
    requires TotalExtent(fields) <= MAX_PARAMETER_WIRE
    ensures forall i :: 0 <= i < |fields| ==> SameElements(fields[i], Packed(fields)[i])
  {
    forall i | 0 <= i < |fields| ensures SameElements(fields[i], Packed(fields)[i]) { PackedAt(fields, i); }
  }

  /** Packing keeps the type valid, its shape, and its wire identity. */
  lemma PackedIsSameType(d: TypeDescriptor)
    requires WireType(d).Ok?
    ensures TotalExtent(d.fields) <= MAX_PARAMETER_WIRE
    ensures ValidDescriptor(PackedDescriptor(d)) && SameShape(d, PackedDescriptor(d))
    ensures WireType(PackedDescriptor(d)) == WireType(d)
  {
    var e := PackedDescriptor(d);
    PackedSameElements(d.fields);
    forall i | 0 <= i < |e.fields| ensures FieldOk(e, e.fields[i]) {
      PackedFieldOk(d, i, e);
    }
    forall i, j | 0 <= j < i < |e.fields| ensures Apart(e.fields[i], e.fields[j]) {
      PackedApart(d.fields, i, j);
    }
    assert HeaderOk(e);
    SameWireType(d, e);
  }

  // ---------------------------------------------------------------------
  // Round trip
  // ---------------------------------------------------------------------

  lemma TakeWrittenName(s: Chars, capacity: nat, rest: seq<byte>)
    requires 0 < |s| < capacity && |s| < 0x1_0000
    ensures TakeName(PutText(s, rest), capacity) == GotName(s, rest)
  {
    hide TakeText, PutText;
    TextBack(s, rest, capacity - 1);
  }

  /** A field the sender's validator accepts, as the receiver packs it. */
  predicate Sendable(f: Field) {
    && 0 < |f.name| < FIELD_NAME_BUFFER
    && PrimitiveSize(f.kind) != 0 && f.elementSize == PrimitiveSize(f.kind) && f.count != 0
  }

  lemma TakeWrittenField(f: Field, size: nat, rest: seq<byte>)
    requires Sendable(f) && size + Extent(f) <= MAX_PARAMETER_WIRE
    ensures TakeField(PutField(f, rest), size) == OneField(f.(offset := size), rest)
  {
    var tail := [f.kind] + (BE(f.count, 4) + rest);
    TakeWrittenName(f.name, FIELD_NAME_BUFFER, tail);
    assert tail[1..5] == BE(f.count, 4) && tail[5..] == rest;
    Widths();
    FromBEOfBE(f.count, 4);
  }

  lemma PackedGrows(fields: seq<Field>, i: nat)
    requires i < |fields| && TotalExtent(fields) <= MAX_PARAMETER_WIRE
    ensures TotalExtent(fields[..i]) <= TotalExtent(fields[..i + 1]) <= MAX_PARAMETER_WIRE
    ensures TotalExtent(fields[..i + 1]) == TotalExtent(fields[..i]) + Extent(fields[i])
    ensures Packed(fields[..i + 1]) == Packed(fields[..i]) + [fields[i].(offset := TotalExtent(fields[..i]))]
  {
    TotalOfFront(fields, i);
    TotalOfFront(fields, i + 1);
    assert fields[..i + 1][..i] == fields[..i];
  }

  lemma PutFieldsAt(fields: seq<Field>, i: nat, rest: seq<byte>)
    requires i < |fields|
    ensures PutFields(fields[i..], rest) == PutField(fields[i], PutFields(fields[i + 1..], rest))
  {
    assert fields[i..][1..] == fields[i + 1..];
  }

  lemma TakeOne(b: seq<byte>, n: nat, acc: seq<Field>, size: nat, rest: seq<byte>, more: seq<Field>, grown: nat)
    requires n > 0 && size <= MAX_PARAMETER_WIRE && more != [] && acc == more[..|more| - 1]
    requires TakeField(b, size) == OneField(more[|more| - 1], rest) && grown == size + Extent(more[|more| - 1])
    ensures grown <= MAX_PARAMETER_WIRE
    ensures TakeFields(b, n, acc, size) == TakeFields(rest, n - 1, more, grown)
  {
    hide TakeField, Extent;
    assert acc + [more[|more| - 1]] == more;
  }

  lemma {:induction false} TakeWrittenFields(fields: seq<Field>, i: nat, rest: seq<byte>)
    requires i <= |fields| && TotalExtent(fields) <= MAX_PARAMETER_WIRE
    requires forall k :: 0 <= k < |fields| ==> Sendable(fields[k])
    ensures TotalExtent(fields[..i]) <= MAX_PARAMETER_WIRE
    ensures TakeFields(PutFields(fields[i..], rest), |fields| - i, Packed(fields[..i]), TotalExtent(fields[..i]))
         == Fields(Packed(fields), TotalExtent(fields), rest)
    decreases |fields| - i
  {
    hide TakeField, PutField, Span, Sendable;
    if i == |fields| {
      assert fields[..i] == fields && fields[i..] == [];
    } else {
      hide PutFields, TakeFields, Packed, TotalExtent, Extent;
      var size, after := TotalExtent(fields[..i]), PutFields(fields[i + 1..], rest);
      PackedGrows(fields, i);
      PutFieldsAt(fields, i, rest);
      TakeWrittenField(fields[i], size, after);
      TakeOne(PutFields(fields[i..], rest), |fields| - i, Packed(fields[..i]), size, after,
              Packed(fields[..i + 1]), TotalExtent(fields[..i + 1]));
      TakeWrittenFields(fields, i + 1, rest);
    }
  }

  lemma {:induction false} PutFieldsBound(fields: seq<Field>, rest: seq<byte>)
    requires forall k :: 0 <= k < |fields| ==> Sendable(fields[k])
    ensures |PutFields(fields, rest)| <= 102 * |fields| + |rest|
  {
    if fields != [] { PutFieldsBound(fields[1..], rest); }
  }

  lemma AllSendable(d: TypeDescriptor)
    requires ValidDescriptor(d)
    ensures forall k :: 0 <= k < |d.fields| ==> Sendable(d.fields[k])
  {
    forall k | 0 <= k < |d.fields| ensures Sendable(d.fields[k]) { assert FieldOk(d, d.fields[k]); }
  }

  /** The size error of the encoder cannot occur. */
  lemma SchemaAlwaysFits(d: TypeDescriptor)
    requires WireType(d).Ok?
    ensures EncodeSchema(d) == Ok(SchemaBytes(d)) && |SchemaBytes(d)| <= 13221
  {
    AllSendable(d);
    PutFieldsBound(d.fields, []);
  }

  lemma NothingPacked()
    ensures TotalExtent([]) == 0 && Packed([]) == []
  {
  }

  lemma ParseWrittenBody(d: TypeDescriptor)
    requires TotalExtent(d.fields) <= MAX_PARAMETER_WIRE && 0 < |d.fields| <= MAX_TYPE_FIELDS
    requires forall k :: 0 <= k < |d.fields| ==> Sendable(d.fields[k])
    ensures ParseBody(d.name, BE(|d.fields|, 2) + PutFields(d.fields, [])) == Ok(PackedDescriptor(d))
  {
    var fields := PutFields(d.fields, []);
    var tail := BE(|d.fields|, 2) + fields;
    Widths();
    FromBEOfBE(|d.fields|, 2);
    Parts(BE(|d.fields|, 2), fields);
    TakeWrittenFields(d.fields, 0, []);
    assert d.fields[0..] == d.fields && d.fields[..0] == [];
    NothingPacked();
    hide BE, FromBE, PutFields, TakeFields, Packed, TotalExtent, Sendable, Described;
  }

  lemma ParseWritten(d: TypeDescriptor)
    requires TotalExtent(d.fields) <= MAX_PARAMETER_WIRE && 0 < |d.fields| <= MAX_TYPE_FIELDS
        && 0 < |d.name| < NAME_BUFFER
    requires forall k :: 0 <= k < |d.fields| ==> Sendable(d.fields[k])
    requires |SchemaBytes(d)| <= MAX_PARAMETER_WIRE
    ensures ParseSchema(SchemaBytes(d)) == Ok(PackedDescriptor(d))
  {
    var b, tail := SchemaBytes(d), BE(|d.fields|, 2) + PutFields(d.fields, []);
    assert b[..2] == BE(1, 2) && b[2..] == PutText(d.name, tail);
    Widths();
    FromBEOfBE(1, 2);
    TakeWrittenName(d.name, NAME_BUFFER, tail);
    ParseWrittenBody(d);
  }

  /** The schema of any valid native descriptor decodes, under its own wire
      identity, to the packed descriptor of the same type. */
  lemma SchemaRoundTrip(d: TypeDescriptor)
    requires WireType(d).Ok?
    ensures TotalExtent(d.fields) <= MAX_PARAMETER_WIRE
    ensures EncodeSchema(d).Ok?
    ensures DecodeSchema(EncodeSchema(d).value, WireType(d).value) == Ok(PackedDescriptor(d))
  {
    SchemaAlwaysFits(d);
    AllSendable(d);
    PackedIsSameType(d);
    ParseWritten(d);
  }

  // ---------------------------------------------------------------------
  // Every accepted schema is the schema of what it decodes to
  // ---------------------------------------------------------------------

  lemma NameTaken(b: seq<byte>, capacity: nat)
    requires capacity > 0 && TakeName(b, capacity).GotName?
    ensures b == PutText(TakeName(b, capacity).name, TakeName(b, capacity).after)
  {
    hide TakeText, PutText;
    TextForth(b, capacity - 1);
  }

  lemma FieldTaken(b: seq<byte>, size: nat)
    requires size <= MAX_PARAMETER_WIRE && TakeField(b, size).OneField?
    ensures b == PutField(TakeField(b, size).field, TakeField(b, size).after)
  {
    NameTaken(b, FIELD_NAME_BUFFER);
    var r := TakeName(b, FIELD_NAME_BUFFER).after;
    BEOfFromBE(r[1..5]);
    assert r == [r[0]] + (r[1..5] + r[5..]);
  }

  lemma PrefixBefore(acc: seq<Field>, f: Field, all: seq<Field>)
    requires acc + [f] <= all
    ensures acc <= all && all[|acc|] == f
  {
    assert forall k :: 0 <= k <= |acc| ==> (acc + [f])[k] == all[k];
  }

  lemma PackedMore(acc: seq<Field>, f: Field)
    requires TotalExtent(acc) + Extent(f) <= MAX_PARAMETER_WIRE && Packed(acc) == acc && f.offset == TotalExtent(acc)
    ensures TotalExtent(acc + [f]) == TotalExtent(acc) + Extent(f) && Packed(acc + [f]) == acc + [f]
  {
    hide Extent;
    assert (acc + [f])[..|acc + [f]| - 1] == acc;
  }

  lemma {:induction false} FieldsArePacked(b: seq<byte>, n: nat, acc: seq<Field>, size: nat)
    requires size == TotalExtent(acc) <= MAX_PARAMETER_WIRE && Packed(acc) == acc
    requires TakeFields(b, n, acc, size).Fields?
    ensures var r := TakeFields(b, n, acc, size);
      acc <= r.fields && |r.fields| == |acc| + n && r.size == TotalExtent(r.fields) && Packed(r.fields) == r.fields
    decreases n
  {
    hide TakeField, Extent, Packed, TotalExtent;
    if n > 0 {
      var next := TakeField(b, size);
      PackedMore(acc, next.field);
      FieldsArePacked(next.after, n - 1, acc + [next.field], size + Extent(next.field));
      PrefixBefore(acc, next.field, TakeFields(b, n, acc, size).fields);
    }
  }

  lemma {:induction false} FieldsTaken(b: seq<byte>, n: nat, acc: seq<Field>, size: nat)
    requires size <= MAX_PARAMETER_WIRE && TakeFields(b, n, acc, size).Fields?
    ensures var r := TakeFields(b, n, acc, size);
      acc <= r.fields && b == PutFields(r.fields[|acc|..], r.after)
    decreases n
  {
    hide TakeField, PutField, Extent;
    var r := TakeFields(b, n, acc, size);
    if n == 0 {
      assert r.fields[|acc|..] == [];
    } else {
      var next := TakeField(b, size);
      FieldTaken(b, size);
      FieldsTaken(next.after, n - 1, acc + [next.field], size + Extent(next.field));
      PrefixBefore(acc, next.field, r.fields);
      PutFieldsAt(r.fields, |acc|, r.after);
    }
  }

  lemma BodyTaken(name: Chars, r: seq<byte>)
    requires |r| >= 2 && ParseBody(name, r).Ok?
    ensures var d := ParseBody(name, r).value;
      && r == BE(|d.fields|, 2) + PutFields(d.fields, []) && d.name == name
      && TotalExtent(d.fields) <= MAX_PARAMETER_WIRE && PackedDescriptor(d) == d
  {
    var d := ParseBody(name, r).value;
    FieldsArePacked(r[2..], FromBE(r[..2]), [], 0);
    FieldsTaken(r[2..], FromBE(r[..2]), [], 0);
    BEOfFromBE(r[..2]);
    assert d.fields[0..] == d.fields;
    assert r == r[..2] + r[2..];
  }

  /** Decoding and encoding are inverse on accepted schemas: one byte string per
      packed type. */
  lemma AcceptedSchemaIsCanonical(b: seq<byte>, expected: TypeIdentity)
    requires DecodeSchema(b, expected).Ok?
    ensures var d := DecodeSchema(b, expected).value;
      WireType(d) == Ok(expected) && EncodeSchema(d) == Ok(b)
      && TotalExtent(d.fields) <= MAX_PARAMETER_WIRE && PackedDescriptor(d) == d
  {
    hide TakeName, PutText, ParseBody, ValidDescriptor, PutFields, Packed, TotalExtent;
    var name := TakeName(b[2..], NAME_BUFFER);
    NameTaken(b[2..], NAME_BUFFER);
    BodyTaken(name.name, name.after);
    BEOfFromBE(b[..2]);
    assert b == b[..2] + b[2..];
  }

  /** End to end: a peer that knows a type only from its schema exchanges values
      with the owner of the native layout in both directions. */
  lemma PeerExchangesValues(little: bool, d: TypeDescriptor, v: Payload, little': bool)
    requires EncodeValue(little, d, v).Ok?
    ensures EncodeSchema(d).Ok? && DecodeSchema(EncodeSchema(d).value, WireType(d).value).Ok?
    ensures var e := DecodeSchema(EncodeSchema(d).value, WireType(d).value).value;
      var wire := EncodeValue(little, d, v).value;
      && DecodeValue(little', e, wire).Ok?
      && Inside(Layout(d.fields), |v.bytes|) && Inside(Layout(e.fields), |DecodeValue(little', e, wire).value.bytes|)
      && SameValue(little, Layout(d.fields), v.bytes, little', Layout(e.fields),
                   DecodeValue(little', e, wire).value.bytes)
      && EncodeValue(little', e, DecodeValue(little', e, wire).value) == Ok(wire)
      && DecodeValue(little, d, wire).Ok?
      && Inside(Layout(d.fields), |DecodeValue(little, d, wire).value.bytes|)
      && SameValue(little, Layout(d.fields), v.bytes, little, Layout(d.fields),
        DecodeValue(little, d, wire).value.bytes)
  {
    SchemaRoundTrip(d);
    PackedIsSameType(d);
    LayoutIndependence(little, d, v, little', PackedDescriptor(d));
    LayoutIndependence(little, d, v, little, d);
  }

  // ---------------------------------------------------------------------
  // The loops
  // ---------------------------------------------------------------------

  lemma PutFieldThen(f: Field, rest: seq<byte>)
    ensures PutField(f, []) + rest == PutField(f, rest)
  {
  }

  method EncodeTypeDescriptor(d: TypeDescriptor) returns (r: Result<seq<byte>>)
    ensures r == EncodeSchema(d)
  {
    var t := WireType(d);
    if t.Err? { return Err(t.error); }
    var bytes := WriteSchema(d);
    if |bytes| > MAX_PARAMETER_WIRE { return Err(EMSGSIZE); }
    return Ok(bytes);
  }

  method WriteSchema(d: TypeDescriptor) returns (bytes: seq<byte>)
    ensures bytes == SchemaBytes(d)
  {
    bytes := BE(1, 2) + PutText(d.name, BE(|d.fields|, 2));
    for i := 0 to |d.fields|
      invariant bytes + PutFields(d.fields[i..], []) == SchemaBytes(d)
    {
      PutFieldsAt(d.fields, i, []);
      PutFieldThen(d.fields[i], PutFields(d.fields[i + 1..], []));
      bytes := bytes + PutField(d.fields[i], []);
    }
  }

  method DecodeTypeDescriptor(b: seq<byte>, expected: TypeIdentity) returns (r: Result<TypeDescriptor>)
    ensures r == DecodeSchema(b, expected)
  {
    if |b| > MAX_PARAMETER_WIRE { return Err(EMSGSIZE); }
    if b == [] { return Err(EPROTO); }
    if |b| < 2 || FromBE(b[..2]) != 1 { return Err(EPROTONOSUPPORT); }
    var name := TakeName(b[2..], NAME_BUFFER);
    if name.BadName? || |name.after| < 2 { return Err(EPROTO); }
    var d := ReadBody(name.name, name.after);
    if d.Err? { return Err(d.error); }
    var actual := WireType(d.value);
    if actual.Err? { return Err(EPROTO); }
    if actual.value != expected { return Err(EPROTOTYPE); }
    return d;
  }

  method ReadBody(name: Chars, body: seq<byte>) returns (r: Result<TypeDescriptor>)
    requires |body| >= 2
    ensures r == ParseBody(name, body)
  {
    hide TakeField, FromBE, Extent, Described;
    var n := FromBE(body[..2]);
    if n == 0 || n > MAX_TYPE_FIELDS { return Err(EPROTO); }
    var rest, fields: seq<Field>, size: nat := body[2..], [], 0;
    for i := 0 to n
      invariant size <= MAX_PARAMETER_WIRE && TakeFields(body[2..], n, [], 0) == TakeFields(rest, n - i, fields, size)
    {
      var next := TakeField(rest, size);
      if next.BadField? { return Err(EPROTO); }
      fields, size, rest := fields + [next.field], size + Extent(next.field), next.after;
    }
    if rest != [] { return Err(EPROTO); }
    return Ok(Described(name, fields, size));
  }
}
