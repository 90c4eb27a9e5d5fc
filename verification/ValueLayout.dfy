/** Moving values between a native byte layout and the packed big-endian wire
    form: gathering and scattering a list of byte cells. */
module ValueLayout {
  import opened Wire

  /** The bytes [at, at + size) of a payload: one primitive element. */
  datatype Cell = Cell(at: nat, size: nat, isBool: bool)

  function CellsTotal(cells: seq<Cell>): nat {
    if cells == [] then 0 else CellsTotal(cells[..|cells| - 1]) + cells[|cells| - 1].size
  }

  function Reverse(s: seq<byte>): (r: seq<byte>)
    ensures |r| == |s|
    ensures forall i :: 0 <= i < |s| ==> r[i] == s[|s| - 1 - i]
  {
    seq(|s|, i requires 0 <= i < |s| => s[|s| - 1 - i])
  }

  /** Native order to big-endian order and back: `little` is the host's order. */
  function Flip(little: bool, s: seq<byte>): (r: seq<byte>)
    ensures |r| == |s|
  {
    if little then Reverse(s) else s
  }

  lemma FlipTwice(little: bool, s: seq<byte>)
    ensures Flip(little, Flip(little, s)) == s
  {
  }

  ghost predicate Inside(cells: seq<Cell>, size: nat) {
    forall k :: 0 <= k < |cells| ==> cells[k].at + cells[k].size <= size
  }

  predicate Separate(c: Cell, d: Cell) {
    c.at + c.size <= d.at || d.at + d.size <= c.at
  }

  ghost predicate AllSeparate(cells: seq<Cell>) {
    forall j, k :: 0 <= j < k < |cells| ==> Separate(cells[j], cells[k])
  }

  /** The element in a cell, most significant byte first. */
  function Elem(little: bool, c: Cell, bytes: seq<byte>): seq<byte>
    requires c.at + c.size <= |bytes|
  {
    Flip(little, bytes[c.at..c.at + c.size])
  }

  /** All elements in order: the wire form. */
  function Gather(little: bool, cells: seq<Cell>, bytes: seq<byte>): (w: seq<byte>)
    requires Inside(cells, |bytes|)
    ensures |w| == CellsTotal(cells)
  {
    if cells == [] then [] else
    Gather(little, cells[..|cells| - 1], bytes) + Elem(little, cells[|cells| - 1], bytes)
  }

  function Place(buf: seq<byte>, at: nat, s: seq<byte>): (r: seq<byte>)
    requires at + |s| <= |buf|
    ensures |r| == |buf|
  {
    buf[..at] + s + buf[at + |s|..]
  }

  function Zeros(n: nat): (z: seq<byte>)
    ensures |z| == n && forall i :: 0 <= i < n ==> z[i] == 0
  {
    seq(n, _ => 0)
  }

  /** Writing the wire form into a buffer, cell by cell. */
  function Scatter(little: bool, cells: seq<Cell>, wire: seq<byte>, buf: seq<byte>): (r: seq<byte>)
    requires Inside(cells, |buf|) && |wire| == CellsTotal(cells)
    ensures |r| == |buf|
  {
    if cells == [] then buf else
    var last := cells[|cells| - 1];
    var cut := |wire| - last.size;
    Place(Scatter(little, cells[..|cells| - 1], wire[..cut], buf), last.at, Flip(little, wire[cut..]))
  }

  lemma {:induction false} GatherKeeps(little: bool, cells: seq<Cell>, bytes: seq<byte>, at: nat, s: seq<byte>)
    requires Inside(cells, |bytes|) && at + |s| <= |bytes|
    requires forall k :: 0 <= k < |cells| ==> cells[k].at + cells[k].size <= at || at + |s| <= cells[k].at
    ensures Gather(little, cells, Place(bytes, at, s)) == Gather(little, cells, bytes)
  {
    if cells != [] {
      GatherKeeps(little, cells[..|cells| - 1], bytes, at, s);
      var c := cells[|cells| - 1];
      assert Place(bytes, at, s)[c.at..c.at + c.size] == bytes[c.at..c.at + c.size];
    }
  }

  lemma PlaceReads(buf: seq<byte>, at: nat, s: seq<byte>)
    requires at + |s| <= |buf|
    ensures Place(buf, at, s)[at..at + |s|] == s
  {
  }

  /** Placing the last element disturbs no other. */
  lemma GatherPlaced(little: bool, cells: seq<Cell>, part: seq<byte>, s: seq<byte>)
    requires cells != [] && Inside(cells, |part|) && AllSeparate(cells) && |s| == cells[|cells| - 1].size
    ensures Gather(little, cells, Place(part, cells[|cells| - 1].at, s))
         == Gather(little, cells[..|cells| - 1], part) + Flip(little, s)
  {
    var last := cells[|cells| - 1];
    assert forall k :: 0 <= k < |cells| - 1 ==> Separate(cells[k], cells[|cells| - 1]);
    GatherKeeps(little, cells[..|cells| - 1], part, last.at, s);
    PlaceReads(part, last.at, s);
  }

  /** Scattering into separate cells loses nothing, whatever the layout. */
  lemma {:induction false} GatherOfScatter(little: bool, cells: seq<Cell>, wire: seq<byte>, buf: seq<byte>)
    requires Inside(cells, |buf|) && AllSeparate(cells) && |wire| == CellsTotal(cells)
    ensures Gather(little, cells, Scatter(little, cells, wire, buf)) == wire
  {
    if cells != [] {
      var init := cells[..|cells| - 1];
      var cut := |wire| - cells[|cells| - 1].size;
      GatherOfScatter(little, init, wire[..cut], buf);
      GatherPlaced(little, cells, Scatter(little, init, wire[..cut], buf), Flip(little, wire[cut..]));
      FlipTwice(little, wire[cut..]);
      assert wire[..cut] + wire[cut..] == wire;
    }
  }

  lemma PlaceKeeps(buf: seq<byte>, at: nat, s: seq<byte>, x: nat)
    requires at + |s| <= |buf| && x < |buf| && !(at <= x < at + |s|)
    ensures Place(buf, at, s)[x] == buf[x]
  {
  }

  /** Bytes in no cell keep what the buffer had. */
  lemma {:induction false} ScatterKeepsPadding(little: bool, cells: seq<Cell>, wire: seq<byte>, buf: seq<byte>, x: nat)
    requires Inside(cells, |buf|) && |wire| == CellsTotal(cells) && x < |buf|
    requires forall k :: 0 <= k < |cells| ==> !(cells[k].at <= x < cells[k].at + cells[k].size)
    ensures Scatter(little, cells, wire, buf)[x] == buf[x]
  {
    if cells != [] {
      var last := cells[|cells| - 1];
      var cut := |wire| - last.size;
      ScatterKeepsPadding(little, cells[..|cells| - 1], wire[..cut], buf, x);
      PlaceKeeps(Scatter(little, cells[..|cells| - 1], wire[..cut], buf), last.at, Flip(little, wire[cut..]), x);
    }
  }

  /** Equal wire forms mean equal elements, cell by cell, if the cells have the
      same sizes: neither their places nor the byte orders need agree. */
  lemma {:induction false} EqualWireEqualElements(
    little: bool, cells: seq<Cell>, bytes: seq<byte>, little': bool, cells': seq<Cell>, bytes': seq<byte>, k: nat)
    requires Inside(cells, |bytes|) && Inside(cells', |bytes'|) && |cells| == |cells'|
    requires forall i :: 0 <= i < |cells| ==> cells[i].size == cells'[i].size
    requires Gather(little, cells, bytes) == Gather(little', cells', bytes')
    requires k < |cells|
    ensures Elem(little, cells[k], bytes) == Elem(little', cells'[k], bytes')
  {
    var n := |cells| - 1;
    var w, v, w', v' := Gather(little, cells[..n], bytes), Elem(little, cells[n], bytes),
                        Gather(little', cells'[..n], bytes'), Elem(little', cells'[n], bytes');
    assert |v| == |v'|;
    assert |w| == |w'|;
    assert (w + v)[..|w|] == w && (w' + v')[..|w'|] == w';
    assert (w + v)[|w|..] == v && (w' + v')[|w'|..] == v';
    if k < n { EqualWireEqualElements(little, cells[..n], bytes, little', cells'[..n], bytes', k); }
  }

  /** No boolean element on the wire is other than 0 or 1. */
  predicate BoolsOk(cells: seq<Cell>, wire: seq<byte>)
    requires |wire| == CellsTotal(cells)
  {
    cells == [] ||
    var last := cells[|cells| - 1];
    var cut := |wire| - last.size;
    BoolsOk(cells[..|cells| - 1], wire[..cut]) && (last.isBool && last.size == 1 ==> wire[cut] <= 1)
  }

  lemma {:induction false} TotalOfPrefix(cells: seq<Cell>, k: nat)
    requires k <= |cells|
    ensures CellsTotal(cells[..k]) <= CellsTotal(cells)
  {
    if k < |cells| {
      TotalOfPrefix(cells[..|cells| - 1], k);
      assert cells[..|cells| - 1][..k] == cells[..k];
    } else {
      assert cells[..k] == cells;
    }
  }

  lemma {:induction false} BoolsOfPrefix(cells: seq<Cell>, wire: seq<byte>, k: nat)
    requires |wire| == CellsTotal(cells) && k <= |cells| && BoolsOk(cells, wire)
    ensures CellsTotal(cells[..k]) <= |wire| && BoolsOk(cells[..k], wire[..CellsTotal(cells[..k])])
  {
    if k < |cells| {
      var cut := |wire| - cells[|cells| - 1].size;
      BoolsOfPrefix(cells[..|cells| - 1], wire[..cut], k);
      assert cells[..|cells| - 1][..k] == cells[..k];
      assert wire[..cut][..CellsTotal(cells[..k])] == wire[..CellsTotal(cells[..k])];
    } else {
      assert cells[..k] == cells && wire[..|wire|] == wire;
    }
  }

  lemma {:induction false} TotalOfSizes(cells: seq<Cell>, cells': seq<Cell>)
    requires |cells| == |cells'| && forall i :: 0 <= i < |cells| ==> cells[i].size == cells'[i].size
    ensures CellsTotal(cells) == CellsTotal(cells')
  {
    if cells != [] { TotalOfSizes(cells[..|cells| - 1], cells'[..|cells| - 1]); }
  }

  /** The check depends on what the elements are, not on where they lie. */
  lemma {:induction false} BoolsOfShape(cells: seq<Cell>, cells': seq<Cell>, wire: seq<byte>)
    requires |cells| == |cells'| && |wire| == CellsTotal(cells) == CellsTotal(cells')
    requires forall i :: 0 <= i < |cells| ==> cells[i].size == cells'[i].size && cells[i].isBool == cells'[i].isBool
    ensures BoolsOk(cells, wire) == BoolsOk(cells', wire)
  {
    if cells != [] {
      BoolsOfShape(cells[..|cells| - 1], cells'[..|cells| - 1], wire[..|wire| - cells[|cells| - 1].size]);
    }
  }

  // ---------------------------------------------------------------------
  // Element by element
  // ---------------------------------------------------------------------

  lemma Front(cells: seq<Cell>, k: nat)
    requires k < |cells|
    ensures cells[..k + 1][..k] == cells[..k] && cells[..k + 1][k] == cells[k]
    ensures CellsTotal(cells[..k + 1]) == CellsTotal(cells[..k]) + cells[k].size <= CellsTotal(cells)
  {
    TotalOfPrefix(cells, k + 1);
  }

  /** Cell k holds a boolean other than 0 and 1. */
  predicate BadBool(c: Cell, first: byte) { c.isBool && c.size == 1 && first > 1 }

  predicate Refused(c: Cell, s: seq<byte>)
    requires |s| == c.size
  {
    c.size > 0 && BadBool(c, s[0])
  }

  /** The check extends one element at a time. */
  lemma BoolsNext(cells: seq<Cell>, k: nat, wire: seq<byte>, s: seq<byte>)
    requires k < |cells| && |wire| == CellsTotal(cells[..k]) && |s| == cells[k].size
    ensures CellsTotal(cells[..k + 1]) == |wire + s|
    ensures BoolsOk(cells[..k + 1], wire + s) <==> BoolsOk(cells[..k], wire) && !Refused(cells[k], s)
  {
    Front(cells, k);
    assert (wire + s)[..|wire|] == wire && (wire + s)[|wire|..] == s;
  }

  lemma {:induction false} GatherPrefix(little: bool, cells: seq<Cell>, bytes: seq<byte>, k: nat)
    requires Inside(cells, |bytes|) && k <= |cells|
    ensures CellsTotal(cells[..k]) <= CellsTotal(cells)
    ensures Gather(little, cells[..k], bytes) == Gather(little, cells, bytes)[..CellsTotal(cells[..k])]
  {
    if k == |cells| {
      assert cells[..k] == cells;
    } else {
      GatherPrefix(little, cells[..|cells| - 1], bytes, k);
      assert cells[..|cells| - 1][..k] == cells[..k];
    }
  }

  lemma GatherNext(little: bool, cells: seq<Cell>, bytes: seq<byte>, k: nat)
    requires Inside(cells, |bytes|) && k < |cells|
    ensures Gather(little, cells[..k + 1], bytes) == Gather(little, cells[..k], bytes) + Elem(little, cells[k], bytes)
  {
    Front(cells, k);
  }

  /** One bad boolean refuses the whole value. */
  lemma PrefixRefused(cells: seq<Cell>, wire: seq<byte>, k: nat)
    requires k <= |cells| && |wire| == CellsTotal(cells) && CellsTotal(cells[..k]) <= |wire|
    requires !BoolsOk(cells[..k], wire[..CellsTotal(cells[..k])])
    ensures !BoolsOk(cells, wire)
  {
    if BoolsOk(cells, wire) { BoolsOfPrefix(cells, wire, k); }
  }

  lemma EncodeRefused(little: bool, cells: seq<Cell>, bytes: seq<byte>, k: nat)
    requires Inside(cells, |bytes|) && k <= |cells| && !BoolsOk(cells[..k], Gather(little, cells[..k], bytes))
    ensures !BoolsOk(cells, Gather(little, cells, bytes))
  {
    GatherPrefix(little, cells, bytes, k);
    PrefixRefused(cells, Gather(little, cells, bytes), k);
  }

  /** A boolean takes one byte, so byte order does not matter to the check. */
  lemma FirstByte(little: bool, c: Cell, bytes: seq<byte>)
    requires c.at + c.size <= |bytes|
    ensures Refused(c, Elem(little, c, bytes)) <==> c.size > 0 && BadBool(c, bytes[c.at])
  {
    if c.size == 1 { assert Elem(little, c, bytes)[0] == bytes[c.at]; }
  }

  method EncodeElement(little: bool, bytes: seq<byte>, c: Cell, wire: seq<byte>) returns (out: seq<byte>)
    requires c.at + c.size <= |bytes|
    ensures out == wire + Elem(little, c, bytes)
  {
    out := wire;
    for j := 0 to c.size
      invariant out == wire + Elem(little, c, bytes)[..j]
    {
      out := out + [bytes[c.at + (if little then c.size - 1 - j else j)]];
    }
  }

  method EncodeCells(little: bool, cells: seq<Cell>, bytes: seq<byte>) returns (r: Result<seq<byte>>)
    requires Inside(cells, |bytes|)
    ensures r == if BoolsOk(cells, Gather(little, cells, bytes)) then Ok(Gather(little, cells, bytes)) else Err(EPROTO)
  {
    var wire: seq<byte> := [];
    for k := 0 to |cells|
      invariant wire == Gather(little, cells[..k], bytes) && BoolsOk(cells[..k], wire)
    {
      var c := cells[k];
      GatherNext(little, cells, bytes, k);
      BoolsNext(cells, k, wire, Elem(little, c, bytes));
      FirstByte(little, c, bytes);
      if c.size > 0 && BadBool(c, bytes[c.at]) {
        EncodeRefused(little, cells, bytes, k + 1);
        return Err(EPROTO);
      }
      wire := EncodeElement(little, bytes, c, wire);
    }
    assert cells[..|cells|] == cells;
    return Ok(wire);
  }

  method DecodeElement(little: bool, c: Cell, part: seq<byte>, buf: seq<byte>) returns (out: seq<byte>)
    requires c.at + c.size <= |buf| && |part| == c.size
    ensures out == Place(buf, c.at, Flip(little, part))
  {
    ghost var target := Place(buf, c.at, Flip(little, part));
    out := buf;
    for j := 0 to c.size
      invariant |out| == |target|
      invariant forall x :: 0 <= x < |out| && !Pending(little, c, j, x) ==> out[x] == target[x]
    {
      out := out[c.at + (if little then c.size - 1 - j else j) := part[j]];
    }
  }

  /** Byte x is still to be written after j bytes of the element. */
  predicate Pending(little: bool, c: Cell, j: nat, x: nat) {
    if little then c.at <= x && x + j < c.at + c.size else c.at + j <= x < c.at + c.size
  }

  lemma ScatterNext(little: bool, cells: seq<Cell>, k: nat, wire: seq<byte>, s: seq<byte>, buf: seq<byte>)
    requires Inside(cells, |buf|) && k < |cells| && |wire| == CellsTotal(cells[..k]) && |s| == cells[k].size
    ensures CellsTotal(cells[..k + 1]) == |wire + s|
    ensures Scatter(little, cells[..k + 1], wire + s, buf)
         == Place(Scatter(little, cells[..k], wire, buf), cells[k].at, Flip(little, s))
  {
    Front(cells, k);
    assert (wire + s)[..|wire|] == wire && (wire + s)[|wire|..] == s;
  }

  method DecodeCells(little: bool, cells: seq<Cell>, wire: seq<byte>, size: nat) returns (r: Result<seq<byte>>)
    requires Inside(cells, size) && |wire| == CellsTotal(cells)
    ensures r == if BoolsOk(cells, wire) then Ok(Scatter(little, cells, wire, Zeros(size))) else Err(EPROTO)
  {
    var buf, cursor := Zeros(size), 0;
    for k := 0 to |cells|
      invariant cursor == CellsTotal(cells[..k]) <= |wire|
      invariant BoolsOk(cells[..k], wire[..cursor]) && buf == Scatter(little, cells[..k], wire[..cursor], Zeros(size))
    {
      var c := cells[k];
      Front(cells, k);
      var next := wire[cursor..cursor + c.size];
      assert wire[..cursor] + next == wire[..cursor + c.size];
      BoolsNext(cells, k, wire[..cursor], next);
      if Refused(c, next) {
        PrefixRefused(cells, wire, k + 1);
        return Err(EPROTO);
      }
      ScatterNext(little, cells, k, wire[..cursor], next, Zeros(size));
      buf := DecodeElement(little, c, next, buf);
      cursor := cursor + c.size;
    }
    assert cells[..|cells|] == cells && wire[..|wire|] == wire;
    return Ok(buf);
  }
}
