/** The sliding window that filters repeated request ids of limited clients: 256
    bits that stand for the set of all ids ever admitted. */
module ReplayWindow {
  import opened Wire

  const WIDTH := 256

  /** The simple filter: every admitted id, and the largest one. */
  datatype Filter = Filter(admitted: set<u64>, high: u64)

  predicate Fresh(f: Filter, id: u64) { id !in f.admitted && f.high < id + WIDTH }

  function Step(f: Filter, id: u64): Filter {
    if Fresh(f, id) then Filter(f.admitted + {id}, if id > f.high then id else f.high) else f
  }

  function Run(f: Filter, ids: seq<u64>): Filter {
    if ids == [] then f else Step(Run(f, ids[..|ids| - 1]), ids[|ids| - 1])
  }

  /** Bit i stands for the id that is i below the largest one. */
  ghost predicate Refines(bits: seq<bool>, high: u64, f: Filter) {
    && |bits| == WIDTH && high == f.high
    && (forall id :: id in f.admitted ==> id <= high)
    && forall i :: 0 <= i < WIDTH ==> (bits[i] <==> i <= high && high - i in f.admitted)
  }

  /** Moving the window up by delta. */
  function Shift(bits: seq<bool>, delta: nat): (r: seq<bool>)
    requires |bits| == WIDTH
    ensures |r| == WIDTH && forall i :: 0 <= i < WIDTH ==> r[i] == (i >= delta && bits[i - delta])
  {
    seq(WIDTH, i requires 0 <= i < WIDTH => i >= delta && bits[i - delta])
  }

  lemma ShiftRefines(bits: seq<bool>, high: u64, f: Filter, id: u64)
    requires Refines(bits, high, f) && id > high
    ensures Refines(Shift(bits, id - high), id, f.(high := id))
  {
    var r := Shift(bits, id - high);
    forall i | 0 <= i < WIDTH ensures r[i] <==> i <= id && id - i in f.admitted {
      if i >= id - high { assert bits[i - (id - high)] <==> high - (i - (id - high)) in f.admitted; }
    }
  }

  class Window {
    var high: u64
    var bits: seq<bool>
    ghost var filter: Filter

    ghost predicate Valid()
      reads this
    {
      Refines(bits, high, filter)
    }

    constructor ()
      ensures Valid() && filter == Filter({}, 0)
    {
      high, bits, filter := 0, seq(WIDTH, _ => false), Filter({}, 0);
    }

    /** The bits decide exactly like the full set. */
    method Admit(id: u64) returns (ok: bool)
      requires Valid()
      modifies this
      ensures Valid() && ok == Fresh(old(filter), id) && filter == Step(old(filter), id)
    {
      ghost var was := filter;
      if id > high {
        var delta := id - high;
        ShiftRefines(bits, high, filter, id);
        if delta >= WIDTH { bits := seq(WIDTH, _ => false); } else { bits := Shift(bits, delta); }
        assert Refines(bits, id, filter.(high := id)) by {
          if delta >= WIDTH { assert bits == Shift(old(bits), delta); }
        }
        high := id;
        filter := filter.(high := id);
      }
      var offset := high - id;
      if offset >= WIDTH || bits[offset] { return false; }
      bits := bits[offset := true];
      filter := filter.(admitted := filter.admitted + {id});
      return true;
    }
  }

  // ---------------------------------------------------------------------
  // Runs
  // ---------------------------------------------------------------------

  lemma {:induction false} RunKeeps(f: Filter, ids: seq<u64>, k: nat)
    requires k <= |ids|
    ensures Run(f, ids[..k]).admitted <= Run(f, ids).admitted && Run(f, ids[..k]).high <= Run(f, ids).high
  {
    if k == |ids| {
      assert ids[..k] == ids;
    } else {
      RunKeeps(f, ids[..|ids| - 1], k);
      assert ids[..|ids| - 1][..k] == ids[..k];
    }
  }

  /** No id is admitted twice, in any order of arrivals. */
  lemma NeverTwice(ids: seq<u64>, i: nat, j: nat)
    requires i < j < |ids| && ids[i] == ids[j]
    ensures var start := Filter({}, 0);
      !(Fresh(Run(start, ids[..i]), ids[i]) && Fresh(Run(start, ids[..j]), ids[j]))
  {
    var start := Filter({}, 0);
    RunKeeps(start, ids[..j], i + 1);
    assert ids[..j][..i + 1] == ids[..i + 1] && ids[..i + 1][..i] == ids[..i];
  }

  /** The largest id is one that was admitted, and everything admitted arrived. */
  lemma {:induction false} RunMeans(ids: seq<u64>)
    ensures var f := Run(Filter({}, 0), ids);
      && (forall id :: id in f.admitted ==> id in ids && id <= f.high)
      && (f.high in f.admitted || f.high == 0)
  {
    if ids != [] {
      RunMeans(ids[..|ids| - 1]);
      assert forall id :: id in ids[..|ids| - 1] ==> id in ids;
    }
  }

  /** An id that arrives for the first time is refused exactly if an id at least
      256 larger was admitted before. */
  lemma FirstArrival(ids: seq<u64>, id: u64)
    requires id !in ids
    ensures var f := Run(Filter({}, 0), ids);
      !Fresh(f, id) <==> exists x :: x in f.admitted && x >= id + WIDTH
  {
    RunMeans(ids);
    var f := Run(Filter({}, 0), ids);
    if f.high >= id + WIDTH { assert f.high in f.admitted; }
  }
}
