/** The value codec: one canonical wire form for every native layout of a type,
    and the schema that lets a peer rebuild a packed descriptor for it. */
module ValueCodec {
  import opened Wire
  import opened NetworkTypes
  import opened TypeDescriptors
  import opened ValueLayout

  // ---------------------------------------------------------------------
  // Wire identity
  // ---------------------------------------------------------------------

  function FieldKey(f: Field): seq<byte> {
    f.name + [0, f.kind] + BE(f.count, 4)
  }

  /** What the schema hash covers: names, kinds and counts, in order; neither
      offsets nor alignment. */
  function SchemaKey(fields: seq<Field>): seq<byte> {
    if fields == [] then [] else SchemaKey(fields[..|fields| - 1]) + FieldKey(fields[|fields| - 1])
  }

  function WireType(d: TypeDescriptor): (t: Result<TypeIdentity>) {
    if !ValidDescriptor(d) || |d.fields| == 0 || d.payloadSize > MAX_PARAMETER_WIRE then Err(EINVAL) else
    var hash := Hash(SchemaKey(d.fields));
    var size := TotalExtent(d.fields);
    if hash == 0 || size == 0 || size > MAX_PARAMETER_WIRE then Err(EMSGSIZE)
    else Ok(TypeIdentity(d.typeId, hash, 1, size))
  }

  /** A valid descriptor fails only on a zero hash: the size error cannot occur. */
  lemma WireTypeFailsOnlyOnZeroHash(d: TypeDescriptor)
    requires ValidDescriptor(d) && d.payloadSize <= MAX_PARAMETER_WIRE
    ensures WireType(d).Ok? <==> Hash(SchemaKey(d.fields)) != 0
  {
    FieldsFitPayload(d);
    var last := d.fields[|d.fields| - 1];
    assert FieldOk(d, last);
  }

  // ---------------------------------------------------------------------
  // Layout of a descriptor
  // ---------------------------------------------------------------------

  /** The first n elements of a field. */
  function FieldCells(f: Field, n: nat): (cells: seq<Cell>)
    ensures |cells| == n
    ensures forall k :: 0 <= k < n ==>
        cells[k] == Cell(f.offset + Span(f.elementSize, k), f.elementSize, f.kind == BOOL)
  {
    if n == 0 then [] else
    FieldCells(f, n - 1) + [Cell(f.offset + Span(f.elementSize, n - 1), f.elementSize, f.kind == BOOL)]
  }

  function Layout(fields: seq<Field>): seq<Cell> {
    if fields == [] then [] else
    var last := fields[|fields| - 1];
    Layout(fields[..|fields| - 1]) + FieldCells(last, last.count)
  }

  lemma {:induction false} TotalOfAppend(a: seq<Cell>, b: seq<Cell>)
    ensures CellsTotal(a + b) == CellsTotal(a) + CellsTotal(b)
  {
    if b == [] {
      assert a + b == a;
    } else {
      TotalOfAppend(a, b[..|b| - 1]);
      assert (a + b)[..|a + b| - 1] == a + b[..|b| - 1];
    }
  }

  lemma {:induction false} TotalOfEqual(cells: seq<Cell>, size: nat)
    requires forall k :: 0 <= k < |cells| ==> cells[k].size == size
    ensures CellsTotal(cells) == Span(size, |cells|)
  {
    if cells != [] { TotalOfEqual(cells[..|cells| - 1], size); }
  }

  lemma TotalOfField(f: Field, n: nat)
    ensures CellsTotal(FieldCells(f, n)) == Span(f.elementSize, n)
  {
    hide CellsTotal, Span;
    TotalOfEqual(FieldCells(f, n), f.elementSize);
  }

  lemma {:induction false} TotalOfLayout(fields: seq<Field>)
    ensures CellsTotal(Layout(fields)) == TotalExtent(fields)
  {
    if fields != [] {
      var last := fields[|fields| - 1];
      TotalOfLayout(fields[..|fields| - 1]);
      TotalOfField(last, last.count);
      TotalOfAppend(Layout(fields[..|fields| - 1]), FieldCells(last, last.count));
    }
  }

  lemma {:induction false} Stride(k: nat, n: nat, size: nat)
    requires k < n
    ensures Span(size, k) + size <= Span(size, n)
  {
    if k + 1 < n { Stride(k, n - 1, size); }
  }

  /** Cell k lies in the range of field i. */
  predicate Within(c: Cell, f: Field) {
    f.offset <= c.at && c.at + c.size <= End(f)
  }

  lemma FieldCellsWithin(f: Field, k: nat)
    requires k < f.count
    ensures Within(FieldCells(f, f.count)[k], f)
  {
    Stride(k, f.count, f.elementSize);
  }

  lemma FieldCellsSeparate(f: Field, j: nat, k: nat)
    requires j < k < f.count
    ensures Separate(FieldCells(f, f.count)[j], FieldCells(f, f.count)[k])
  {
    Stride(j, k, f.elementSize);
  }

  lemma {:induction false} LayoutWithin(fields: seq<Field>, k: nat) returns (i: nat)
    requires k < |Layout(fields)|
    ensures i < |fields| && Within(Layout(fields)[k], fields[i])
  {
    var init, last := fields[..|fields| - 1], fields[|fields| - 1];
    if k < |Layout(init)| {
      i := LayoutWithin(init, k);
    } else {
      i := |fields| - 1;
      FieldCellsWithin(last, k - |Layout(init)|);
    }
  }

  /** The overlap check made by the validator keeps all elements separate. */
  lemma {:induction false} LayoutSeparate(fields: seq<Field>)
    requires forall i, j :: 0 <= j < i < |fields| ==> Apart(fields[i], fields[j])
    ensures AllSeparate(Layout(fields))
  {
    if fields != [] {
      var init, last := fields[..|fields| - 1], fields[|fields| - 1];
      var m := |Layout(init)|;
      LayoutSeparate(init);
      var cells := Layout(fields);
      forall j, k | 0 <= j < k < |cells| ensures Separate(cells[j], cells[k]) {
        if k < m {
          assert Separate(Layout(init)[j], Layout(init)[k]);
        } else if j >= m {
          FieldCellsSeparate(last, j - m, k - m);
        } else {
          var i := LayoutWithin(init, j);
          FieldCellsWithin(last, k - m);
          assert Apart(fields[|fields| - 1], fields[i]);
        }
      }
    }
  }

  lemma LayoutOk(d: TypeDescriptor)
    requires ValidDescriptor(d)
    ensures Inside(Layout(d.fields), d.payloadSize) && AllSeparate(Layout(d.fields))
    ensures CellsTotal(Layout(d.fields)) == TotalExtent(d.fields) <= d.payloadSize
  {
    LayoutSeparate(d.fields);
    TotalOfLayout(d.fields);
    FieldsFitPayload(d);
    forall k | 0 <= k < |Layout(d.fields)| ensures Layout(d.fields)[k].at + Layout(d.fields)[k].size <= d.payloadSize {
      var i := LayoutWithin(d.fields, k);
      assert FieldOk(d, d.fields[i]);
    }
  }

  // ---------------------------------------------------------------------
  // Values
  // ---------------------------------------------------------------------

  datatype Payload = Payload(typeId: u64, bytes: seq<byte>)

  /** What encoding a value gives: its elements in order, most significant byte
      first, whatever lies between them. */
  function EncodeValue(little: bool, d: TypeDescriptor, v: Payload): Result<seq<byte>> {
    var t :- WireType(d);
    if v.typeId != d.typeId || |v.bytes| != d.payloadSize then Err(EPROTOTYPE) else
    LayoutOk(d);
    var wire := Gather(little, Layout(d.fields), v.bytes);
    if BoolsOk(Layout(d.fields), wire) then Ok(wire) else Err(EPROTO)
  }

  function DecodeValue(little: bool, d: TypeDescriptor, wire: seq<byte>): Result<Payload> {
    var t :- WireType(d);
    if |wire| != t.payloadSize then Err(EMSGSIZE) else
    LayoutOk(d);
    if !BoolsOk(Layout(d.fields), wire) then Err(EPROTO) else
    Ok(Payload(d.typeId, Scatter(little, Layout(d.fields), wire, Zeros(d.payloadSize))))
  }

  /** The two descriptors name the same elements in the same order; where the
      elements lie may differ. */
  ghost predicate SameShape(d: TypeDescriptor, e: TypeDescriptor) {
    && d.typeId == e.typeId && |d.fields| == |e.fields|
    && forall i :: 0 <= i < |d.fields| ==> SameElements(d.fields[i], e.fields[i])
  }

  predicate SameElements(f: Field, g: Field) {
    f.name == g.name && f.kind == g.kind && f.elementSize == g.elementSize && f.count == g.count
  }

  lemma {:induction false} SameLayout(fields: seq<Field>, others: seq<Field>)
    requires |fields| == |others| && forall i :: 0 <= i < |fields| ==> SameElements(fields[i], others[i])
    ensures var a, b := Layout(fields), Layout(others);
      |a| == |b| && forall k :: 0 <= k < |a| ==> a[k].size == b[k].size && a[k].isBool == b[k].isBool
    ensures SchemaKey(fields) == SchemaKey(others) && TotalExtent(fields) == TotalExtent(others)
  {
    if fields != [] {
      var n := |fields| - 1;
      assert SameElements(fields[n], others[n]);
      SameLayout(fields[..n], others[..n]);
    }
  }

  /** Same shape, same wire identity. */
  lemma SameWireType(d: TypeDescriptor, e: TypeDescriptor)
    requires ValidDescriptor(d) && ValidDescriptor(e) && SameShape(d, e)
    requires d.payloadSize <= MAX_PARAMETER_WIRE && e.payloadSize <= MAX_PARAMETER_WIRE
    ensures WireType(d) == WireType(e)
  {
    SameLayout(d.fields, e.fields);
  }

  /** Anything accepted from the wire can be sent on unchanged. */
  lemma DecodedEncodesBack(little: bool, d: TypeDescriptor, wire: seq<byte>)
    requires DecodeValue(little, d, wire).Ok?
    ensures EncodeValue(little, d, DecodeValue(little, d, wire).value) == Ok(wire)
  {
    LayoutOk(d);
    GatherOfScatter(little, Layout(d.fields), wire, Zeros(d.payloadSize));
  }

  /** The two payloads hold the same elements, each in its own layout and order. */
  ghost predicate SameValue(little: bool, cells: seq<Cell>, bytes: seq<byte>, little': bool, cells': seq<Cell>,
      bytes': seq<byte>)
    requires Inside(cells, |bytes|) && Inside(cells', |bytes'|)
  {
    && |cells| == |cells'|
    && forall k :: 0 <= k < |cells| ==> Elem(little, cells[k], bytes) == Elem(little', cells'[k], bytes')
  }

  ghost predicate PaddingZero(cells: seq<Cell>, bytes: seq<byte>) {
    forall x :: 0 <= x < |bytes| && (forall k :: 0 <= k < |cells| ==> !InCell(cells[k], x)) ==> bytes[x] == 0
  }

  predicate InCell(c: Cell, x: nat) { c.at <= x < c.at + c.size }

  lemma Moved(little: bool, cells: seq<Cell>, bytes: seq<byte>, little': bool, cells': seq<Cell>, size: nat)
    requires Inside(cells, |bytes|) && Inside(cells', size) && AllSeparate(cells') && |cells| == |cells'|
    requires forall i :: 0 <= i < |cells| ==> cells[i].size == cells'[i].size
    ensures CellsTotal(cells) == CellsTotal(cells')
    ensures var wire := Gather(little, cells, bytes);
      var bytes' := Scatter(little', cells', wire, Zeros(size));
      Gather(little', cells', bytes') == wire
      && SameValue(little, cells, bytes, little', cells', bytes') && PaddingZero(cells', bytes')
  {
    TotalOfSizes(cells, cells');
    var wire := Gather(little, cells, bytes);
    var bytes' := Scatter(little', cells', wire, Zeros(size));
    GatherOfScatter(little', cells', wire, Zeros(size));
    forall k | 0 <= k < |cells| ensures Elem(little, cells[k], bytes) == Elem(little', cells'[k], bytes') {
      EqualWireEqualElements(little, cells, bytes, little', cells', bytes', k);
    }
    forall x | 0 <= x < |bytes'| && (forall k :: 0 <= k < |cells'| ==> !InCell(cells'[k], x)) ensures bytes'[x] == 0 {
      ScatterKeepsPadding(little', cells', wire, Zeros(size), x);
    }
  }

  /** Layout independence. A value encoded under one layout and byte order and
      decoded under another arrives element for element, and encodes again to the
      same bytes; the bytes between the elements are zero. */
  lemma LayoutIndependence(little: bool, d: TypeDescriptor, v: Payload, little': bool, e: TypeDescriptor)
    requires EncodeValue(little, d, v).Ok? && WireType(e).Ok? && SameShape(d, e)
    ensures var wire := EncodeValue(little, d, v).value;
      DecodeValue(little', e, wire).Ok?
      && var got := DecodeValue(little', e, wire).value;
      && got.typeId == v.typeId && |got.bytes| == e.payloadSize
      && EncodeValue(little', e, got) == Ok(wire)
      && Inside(Layout(d.fields), |v.bytes|) && Inside(Layout(e.fields), |got.bytes|)
      && SameValue(little, Layout(d.fields), v.bytes, little', Layout(e.fields), got.bytes)
      && PaddingZero(Layout(e.fields), got.bytes)
  {
    var cells, cells' := Layout(d.fields), Layout(e.fields);
    Encoded(little, d, v);
    LayoutOk(e);
    SameLayout(d.fields, e.fields);
    Moved(little, cells, v.bytes, little', cells', e.payloadSize);
    BoolsOfShape(cells, cells', Gather(little, cells, v.bytes));
    DecodeAccepts(little', e, Gather(little, cells, v.bytes));
    DecodedEncodesBack(little', e, Gather(little, cells, v.bytes));
  }

  lemma Encoded(little: bool, d: TypeDescriptor, v: Payload)
    requires EncodeValue(little, d, v).Ok?
    ensures v.typeId == d.typeId && |v.bytes| == d.payloadSize && Inside(Layout(d.fields), |v.bytes|)
    ensures EncodeValue(little, d, v).value == Gather(little, Layout(d.fields), v.bytes)
    ensures BoolsOk(Layout(d.fields), EncodeValue(little, d, v).value)
  {
    LayoutOk(d);
  }

  lemma DecodeAccepts(little: bool, d: TypeDescriptor, wire: seq<byte>)
    requires WireType(d).Ok? && |wire| == CellsTotal(Layout(d.fields)) && BoolsOk(Layout(d.fields), wire)
    ensures Inside(Layout(d.fields), d.payloadSize)
    ensures DecodeValue(little, d,
        wire) == Ok(Payload(d.typeId, Scatter(little, Layout(d.fields), wire, Zeros(d.payloadSize))))
  {
    LayoutOk(d);
  }

  /** A value that is refused under one layout is refused under the other too,
      for the same reason. */
  lemma RefusalAgrees(little: bool, d: TypeDescriptor, v: Payload, e: TypeDescriptor)
    requires WireType(d).Ok? && WireType(e).Ok? && SameShape(d, e)
    requires v.typeId == d.typeId && |v.bytes| == d.payloadSize
    ensures Inside(Layout(d.fields), |v.bytes|)
    ensures EncodeValue(little, d, v) == Err(EPROTO) <==>
      DecodeValue(little, e, Gather(little, Layout(d.fields), v.bytes)) == Err(EPROTO)
  {
    var cells, cells' := Layout(d.fields), Layout(e.fields);
    LayoutOk(d);
    LayoutOk(e);
    SameLayout(d.fields, e.fields);
    TotalOfSizes(cells, cells');
    BoolsOfShape(cells, cells', Gather(little, cells, v.bytes));
  }

  // ---------------------------------------------------------------------
  // The loops over the elements, in field order
  // ---------------------------------------------------------------------

  method EncodeParameterValue(little: bool, d: TypeDescriptor, v: Payload) returns (r: Result<seq<byte>>)
    ensures r == EncodeValue(little, d, v)
  {
    var t := WireType(d);
    if t.Err? { return Err(t.error); }
    if v.typeId != d.typeId || |v.bytes| != d.payloadSize { return Err(EPROTOTYPE); }
    LayoutOk(d);
    r := EncodeCells(little, Layout(d.fields), v.bytes);
  }

  method DecodeParameterValue(little: bool, d: TypeDescriptor, wire: seq<byte>) returns (r: Result<Payload>)
    ensures r == DecodeValue(little, d, wire)
  {
    var t := WireType(d);
    if t.Err? { return Err(t.error); }
    if |wire| != t.value.payloadSize { return Err(EMSGSIZE); }
    LayoutOk(d);
    var bytes := DecodeCells(little, Layout(d.fields), wire, d.payloadSize);
    if bytes.Err? { return Err(bytes.error); }
    return Ok(Payload(d.typeId, bytes.value));
  }
}
