/** What the wire form of a value means: which number each element of a payload is,
    in the byte order of its machine, and where on the wire the same number stands,
    most significant byte first. */
module ValueMeaning {
  import opened Wire
  import opened NetworkTypes
  import opened TypeDescriptors
  import opened ValueLayout
  import opened ValueCodec

  function FromLE(s: seq<byte>): nat { if s == [] then 0 else s[0] + 256 * FromLE(s[1..]) }

  /** The number in these bytes, on a machine of this byte order. */
  function Number(little: bool, s: seq<byte>): nat { if little then FromLE(s) else FromBE(s) }

  predicate HasElement(f: Field, n: nat, size: nat) {
    n < f.count && f.offset + Span(f.elementSize, n) + f.elementSize <= size
  }

  /** Element n of a field in a payload. */
  function ElementOf(little: bool, f: Field, n: nat, bytes: seq<byte>): nat
    requires HasElement(f, n, |bytes|)
  {
    var at := f.offset + Span(f.elementSize, n);
    Number(little, bytes[at..at + f.elementSize])
  }

  /** Where element n of field i stands on the wire: the elements follow one another,
      field by field, without gaps. */
  function WireOffset(fields: seq<Field>, i: nat, n: nat): nat
    requires i < |fields|
  {
    TotalExtent(fields[..i]) + Span(fields[i].elementSize, n)
  }

  predicate OnWire(fields: seq<Field>, i: nat, n: nat, wire: seq<byte>)
    requires i < |fields|
  {
    WireOffset(fields, i, n) + fields[i].elementSize <= |wire|
  }

  function WireNumber(fields: seq<Field>, i: nat, n: nat, wire: seq<byte>): nat
    requires i < |fields| && OnWire(fields, i, n, wire)
  {
    FromBE(wire[WireOffset(fields, i, n)..WireOffset(fields, i, n) + fields[i].elementSize])
  }

  // ---------------------------------------------------------------------
  // One element
  // ---------------------------------------------------------------------

  lemma {:induction false} ReverseIsLittle(s: seq<byte>)
    ensures FromBE(Reverse(s)) == FromLE(s)
  {
    if s != [] {
      ReverseIsLittle(s[1..]);
      assert Reverse(s)[..|s| - 1] == Reverse(s[1..]);
    }
  }

  lemma FlipIsNumber(little: bool, s: seq<byte>)
    ensures FromBE(Flip(little, s)) == Number(little, s)
  {
    if little { ReverseIsLittle(s); }
  }

  lemma GatherAt(little: bool, cells: seq<Cell>, bytes: seq<byte>, k: nat)
    requires Inside(cells, |bytes|) && k < |cells|
    ensures var at := CellsTotal(cells[..k]);
      && at + cells[k].size <= CellsTotal(cells)
      && Gather(little, cells, bytes)[at..at + cells[k].size] == Elem(little, cells[k], bytes)
  {
    Front(cells, k);
    GatherPrefix(little, cells, bytes, k);
    GatherPrefix(little, cells, bytes, k + 1);
    GatherNext(little, cells, bytes, k);
    var all, at, e := Gather(little, cells, bytes), CellsTotal(cells[..k]), Elem(little, cells[k], bytes);
    hide Gather, CellsTotal;
    assert all[..at + cells[k].size] == all[..at] + e;
    assert all[at..at + cells[k].size] == (all[..at] + e)[at..];
  }

  // ---------------------------------------------------------------------
  // The cells of a field
  // ---------------------------------------------------------------------

  lemma {:induction false} FieldFront(f: Field, count: nat, n: nat)
    requires n <= count
    ensures FieldCells(f, count)[..n] == FieldCells(f, n)
  {
    if n < count {
      FieldFront(f, count - 1, n);
      assert FieldCells(f, count)[..n] == FieldCells(f, count - 1)[..n];
    } else {
      assert FieldCells(f, count)[..n] == FieldCells(f, count);
    }
  }

  function CellIndex(fields: seq<Field>, i: nat, n: nat): nat
    requires i < |fields|
  {
    |Layout(fields[..i])| + n
  }

  lemma {:induction false} CellOf(fields: seq<Field>, i: nat, n: nat)
    requires i < |fields| && n < fields[i].count
    ensures var f, k := fields[i], CellIndex(fields, i, n);
      && k < |Layout(fields)|
      && Layout(fields)[k] == Cell(f.offset + Span(f.elementSize, n), f.elementSize, f.kind == BOOL)
      && Layout(fields)[..k] == Layout(fields[..i]) + FieldCells(f, n)
  {
    var last := |fields| - 1;
    var f, before, cells := fields[last], Layout(fields[..last]), FieldCells(fields[last], fields[last].count);
    if i == last {
      FieldFront(f, f.count, n);
      assert (before + cells)[..|before| + n] == before + cells[..n];
    } else {
      CellOf(fields[..last], i, n);
      assert fields[..last][..i] == fields[..i];
      var k := CellIndex(fields, i, n);
      assert (before + cells)[..k] == before[..k];
    }
  }

  lemma OffsetOf(fields: seq<Field>, i: nat, n: nat)
    requires i < |fields| && n < fields[i].count
    ensures CellIndex(fields, i, n) < |Layout(fields)|
    ensures CellsTotal(Layout(fields)[..CellIndex(fields, i, n)]) == WireOffset(fields, i, n)
  {
    CellOf(fields, i, n);
    TotalOfLayout(fields[..i]);
    TotalOfField(fields[i], n);
    TotalOfAppend(Layout(fields[..i]), FieldCells(fields[i], n));
  }

  lemma ElementIsThere(d: TypeDescriptor, i: nat, n: nat)
    requires ValidDescriptor(d) && i < |d.fields| && n < d.fields[i].count
    ensures HasElement(d.fields[i], n, d.payloadSize)
  {
    assert FieldOk(d, d.fields[i]);
    Stride(n, d.fields[i].count, d.fields[i].elementSize);
  }

  /** Every cell is an element of a field. */
  lemma {:induction false} CellIsElement(fields: seq<Field>, k: nat) returns (i: nat, n: nat)
    requires k < |Layout(fields)|
    ensures i < |fields| && n < fields[i].count && k == CellIndex(fields, i, n)
  {
    var last := |fields| - 1;
    if k >= |Layout(fields[..last])| {
      i, n := last, k - |Layout(fields[..last])|;
    } else {
      i, n := CellIsElement(fields[..last], k);
      assert fields[..last][..i] == fields[..i];
    }
  }

  // ---------------------------------------------------------------------
  // Values
  // ---------------------------------------------------------------------

  lemma GatheredNumber(little: bool, d: TypeDescriptor, bytes: seq<byte>, i: nat, n: nat)
    requires ValidDescriptor(d) && |bytes| == d.payloadSize && i < |d.fields| && n < d.fields[i].count
    ensures Inside(Layout(d.fields), |bytes|) && HasElement(d.fields[i], n, |bytes|)
    ensures OnWire(d.fields, i, n, Gather(little, Layout(d.fields), bytes))
    ensures WireNumber(d.fields, i, n, Gather(little, Layout(d.fields), bytes))
         == ElementOf(little, d.fields[i], n, bytes)
  {
    hide Gather, Layout, CellsTotal, Flip, Number, FromBE, ValidDescriptor, TotalExtent, Span, WireOffset, AllSeparate;
    LayoutOk(d);
    ElementIsThere(d, i, n);
    var cells, k, f := Layout(d.fields), CellIndex(d.fields, i, n), d.fields[i];
    CellOf(d.fields, i, n);
    OffsetOf(d.fields, i, n);
    GatherAt(little, cells, bytes, k);
    var at := f.offset + Span(f.elementSize, n);
    FlipIsNumber(little, bytes[at..at + f.elementSize]);
  }

  /** Encoding writes every element of the payload, as the number it is on its machine,
      at its place on the wire, most significant byte first; nothing else is there. */
  lemma WireIsBigEndian(little: bool, d: TypeDescriptor, v: Payload, i: nat, n: nat)
    requires EncodeValue(little, d, v).Ok? && i < |d.fields| && n < d.fields[i].count
    ensures var wire := EncodeValue(little, d, v).value;
      && HasElement(d.fields[i], n, |v.bytes|) && OnWire(d.fields, i, n, wire)
      && WireNumber(d.fields, i, n, wire) == ElementOf(little, d.fields[i], n, v.bytes)
      && |wire| == TotalExtent(d.fields)
  {
    Encoded(little, d, v);
    LayoutOk(d);
    GatheredNumber(little, d, v.bytes, i, n);
    hide Gather, Layout, CellsTotal;
  }

  /** Decoding gives every element the number that stands at its place on the wire. */
  lemma DecodedIsTheWire(little: bool, d: TypeDescriptor, wire: seq<byte>, i: nat, n: nat)
    requires DecodeValue(little, d, wire).Ok? && i < |d.fields| && n < d.fields[i].count
    ensures var got := DecodeValue(little, d, wire).value;
      && HasElement(d.fields[i], n, |got.bytes|) && OnWire(d.fields, i, n, wire)
      && ElementOf(little, d.fields[i], n, got.bytes) == WireNumber(d.fields, i, n, wire)
  {
    DecodedEncodesBack(little, d, wire);
    hide EncodeValue, DecodeValue;
    WireIsBigEndian(little, d, DecodeValue(little, d, wire).value, i, n);
  }

  /** A number sent from one machine is the same number on any other that has the type,
      whatever the layouts and byte orders. */
  lemma NumbersSurvive(
    little: bool, d: TypeDescriptor, v: Payload, little': bool, e: TypeDescriptor, i: nat, n: nat)
    requires EncodeValue(little, d, v).Ok? && WireType(e).Ok? && SameShape(d, e)
    requires i < |d.fields| && n < d.fields[i].count
    ensures var got := DecodeValue(little', e, EncodeValue(little, d, v).value);
      && got.Ok? && HasElement(d.fields[i], n, |v.bytes|) && HasElement(e.fields[i], n, |got.value.bytes|)
      && ElementOf(little', e.fields[i], n, got.value.bytes) == ElementOf(little, d.fields[i], n, v.bytes)
  {
    hide EncodeValue, DecodeValue, WireType, TotalExtent, Span, ElementOf, HasElement;
    var wire := EncodeValue(little, d, v).value;
    assert SameElements(d.fields[i], e.fields[i]);
    DecodesThere(little, d, v, little', e);
    WireIsBigEndian(little, d, v, i, n);
    DecodedIsTheWire(little', e, wire, i, n);
    SameOffset(d.fields, e.fields, i);
  }

  lemma DecodesThere(little: bool, d: TypeDescriptor, v: Payload, little': bool, e: TypeDescriptor)
    requires EncodeValue(little, d, v).Ok? && WireType(e).Ok? && SameShape(d, e)
    ensures DecodeValue(little', e, EncodeValue(little, d, v).value).Ok?
  {
    hide EncodeValue, DecodeValue, WireType, Layout, SameValue, PaddingZero;
    LayoutIndependence(little, d, v, little', e);
  }

  lemma SameOffset(fields: seq<Field>, others: seq<Field>, i: nat)
    requires |fields| == |others| && i < |fields|
    requires forall k :: 0 <= k < |fields| ==> SameElements(fields[k], others[k])
    ensures TotalExtent(fields[..i]) == TotalExtent(others[..i])
  {
    SameLayout(fields[..i], others[..i]);
  }

  // ---------------------------------------------------------------------
  // Booleans
  // ---------------------------------------------------------------------

  lemma {:induction false} BoolsMean(cells: seq<Cell>, wire: seq<byte>)
    requires |wire| == CellsTotal(cells)
    ensures BoolsOk(cells, wire) <==> forall k :: 0 <= k < |cells| ==> BoolAt(cells, k, wire)
  {
    if cells != [] {
      var last := |cells| - 1;
      var cut := |wire| - cells[last].size;
      BoolsMean(cells[..last], wire[..cut]);
      forall k | 0 <= k < last ensures BoolAt(cells[..last], k, wire[..cut]) == BoolAt(cells, k, wire) {
        assert cells[..last][..k] == cells[..k];
        Front(cells[..last], k);
      }
      assert BoolAt(cells, last, wire) == (cells[last].isBool && cells[last].size == 1 ==> wire[cut] <= 1);
    }
  }

  predicate BoolAt(cells: seq<Cell>, k: nat, wire: seq<byte>)
    requires k < |cells|
  {
    cells[k].isBool && cells[k].size == 1 && CellsTotal(cells[..k]) < |wire| ==> wire[CellsTotal(cells[..k])] <= 1
  }

  /** Every boolean of the payload is 0 or 1. */
  ghost predicate BoolsAreBools(little: bool, d: TypeDescriptor, bytes: seq<byte>)
    requires ValidDescriptor(d) && |bytes| == d.payloadSize
  {
    forall i, n :: 0 <= i < |d.fields| && 0 <= n < d.fields[i].count && d.fields[i].kind == BOOL ==>
      HasElement(d.fields[i], n, |bytes|) && ElementOf(little, d.fields[i], n, bytes) <= 1
  }

  lemma OneByte(s: seq<byte>)
    requires |s| == 1
    ensures FromBE(s) == s[0] && FromLE(s) == s[0]
  {
    assert s[..0] == [] && s[1..] == [];
  }

  lemma BoolOfElement(little: bool, d: TypeDescriptor, bytes: seq<byte>, i: nat, n: nat)
    requires ValidDescriptor(d) && |bytes| == d.payloadSize && i < |d.fields| && n < d.fields[i].count
    requires d.fields[i].kind == BOOL
    ensures Inside(Layout(d.fields), |bytes|) && HasElement(d.fields[i], n, |bytes|)
    ensures CellIndex(d.fields, i, n) < |Layout(d.fields)|
    ensures BoolAt(Layout(d.fields), CellIndex(d.fields, i, n), Gather(little, Layout(d.fields), bytes))
      <==> ElementOf(little, d.fields[i], n, bytes) <= 1
  {
    assert FieldOk(d, d.fields[i]);
    GatheredNumber(little, d, bytes, i, n);
    CellOf(d.fields, i, n);
    OffsetOf(d.fields, i, n);
    var wire, at := Gather(little, Layout(d.fields), bytes), WireOffset(d.fields, i, n);
    OneByte(wire[at..at + 1]);
    hide Gather, Layout, CellsTotal, Number, WireOffset;
  }

  /** When encoding refuses: never, for a payload of the type whose booleans are 0 or
      1; with EPROTOTYPE for another type or size; with EPROTO for another boolean. */
  lemma EncodeIs(little: bool, d: TypeDescriptor, v: Payload)
    requires WireType(d).Ok?
    ensures var r := EncodeValue(little, d, v);
      if v.typeId != d.typeId || |v.bytes| != d.payloadSize then r == Err(EPROTOTYPE)
      else if BoolsAreBools(little, d, v.bytes) then r.Ok? else r == Err(EPROTO)
  {
    LayoutOk(d);
    if |v.bytes| == d.payloadSize {
      var cells := Layout(d.fields);
      var wire := Gather(little, cells, v.bytes);
      BoolsMean(cells, wire);
      forall i, n | 0 <= i < |d.fields| && 0 <= n < d.fields[i].count && d.fields[i].kind == BOOL
        ensures HasElement(d.fields[i], n, |v.bytes|) && CellIndex(d.fields, i, n) < |cells|
          && (BoolAt(cells, CellIndex(d.fields, i, n), wire) <==> ElementOf(little, d.fields[i], n, v.bytes) <= 1)
      {
        BoolOfElement(little, d, v.bytes, i, n);
      }
      if BoolsAreBools(little, d, v.bytes) {
        forall k | 0 <= k < |cells| ensures BoolAt(cells, k, wire) { CellIsBool(little, d, v.bytes, k); }
      }
      hide Layout, Gather, BoolAt;
    }
  }

  lemma CellIsBool(little: bool, d: TypeDescriptor, bytes: seq<byte>, k: nat)
    requires ValidDescriptor(d) && |bytes| == d.payloadSize && BoolsAreBools(little, d, bytes)
    requires k < |Layout(d.fields)|
    ensures Inside(Layout(d.fields), |bytes|)
    ensures BoolAt(Layout(d.fields), k, Gather(little, Layout(d.fields), bytes))
  {
    LayoutOk(d);
    var i, n := CellIsElement(d.fields, k);
    CellOf(d.fields, i, n);
    if d.fields[i].kind == BOOL { BoolOfElement(little, d, bytes, i, n); }
  }

  /** Every boolean on the wire is 0 or 1. */
  ghost predicate WireBoolsAreBools(fields: seq<Field>, wire: seq<byte>) {
    forall i, n :: 0 <= i < |fields| && 0 <= n < fields[i].count && fields[i].kind == BOOL ==>
      OnWire(fields, i, n, wire) && WireNumber(fields, i, n, wire) <= 1
  }

  lemma BoolOnWire(d: TypeDescriptor, wire: seq<byte>, i: nat, n: nat)
    requires ValidDescriptor(d) && |wire| == TotalExtent(d.fields) && i < |d.fields| && n < d.fields[i].count
    requires d.fields[i].kind == BOOL
    ensures OnWire(d.fields, i, n, wire) && CellIndex(d.fields, i, n) < |Layout(d.fields)|
    ensures BoolAt(Layout(d.fields), CellIndex(d.fields, i, n), wire) <==> WireNumber(d.fields, i, n, wire) <= 1
  {
    hide Layout, CellsTotal, WireOffset, TotalExtent, Span, FromBE, Apart;
    assert FieldOk(d, d.fields[i]);
    CellOf(d.fields, i, n);
    OffsetOf(d.fields, i, n);
    TotalOfLayout(d.fields);
    Front(Layout(d.fields), CellIndex(d.fields, i, n));
    var at := WireOffset(d.fields, i, n);
    OneByte(wire[at..at + 1]);
  }

  /** When decoding refuses: with EMSGSIZE for another size than that of all elements,
      with EPROTO for a boolean that is neither 0 nor 1, and never otherwise. */
  lemma DecodeIs(little: bool, d: TypeDescriptor, wire: seq<byte>)
    requires WireType(d).Ok?
    ensures var r := DecodeValue(little, d, wire);
      if |wire| != TotalExtent(d.fields) then r == Err(EMSGSIZE)
      else if WireBoolsAreBools(d.fields, wire) then r.Ok? else r == Err(EPROTO)
  {
    LayoutOk(d);
    if |wire| == TotalExtent(d.fields) {
      var cells := Layout(d.fields);
      BoolsMean(cells, wire);
      forall i, n | 0 <= i < |d.fields| && 0 <= n < d.fields[i].count && d.fields[i].kind == BOOL
        ensures OnWire(d.fields, i, n, wire) && CellIndex(d.fields, i, n) < |cells|
          && (BoolAt(cells, CellIndex(d.fields, i, n), wire) <==> WireNumber(d.fields, i, n, wire) <= 1)
      {
        BoolOnWire(d, wire, i, n);
      }
      if WireBoolsAreBools(d.fields, wire) {
        forall k | 0 <= k < |cells| ensures BoolAt(cells, k, wire) { CellIsWireBool(d, wire, k); }
      }
      hide Layout, Scatter, BoolAt;
    }
  }

  lemma CellIsWireBool(d: TypeDescriptor, wire: seq<byte>, k: nat)
    requires ValidDescriptor(d) && |wire| == TotalExtent(d.fields) && WireBoolsAreBools(d.fields, wire)
    requires k < |Layout(d.fields)|
    ensures BoolAt(Layout(d.fields), k, wire)
  {
    var i, n := CellIsElement(d.fields, k);
    CellOf(d.fields, i, n);
    if d.fields[i].kind == BOOL { BoolOnWire(d, wire, i, n); }
  }
}
