/** Whole runs of the channel: what holds at every point of every interleaving. */
module ChannelRuns {
  import opened Wire
  import opened SharedChannel

  /** Storage as CreateImpl leaves it. */
  function Fresh(depth: nat, size: nat): Channel {
    Channel(depth, size, 0, seq(depth * 3, _ => Slot(0, 0, 0, seq(size, _ => 0))), Idle, [], [], [])
  }

  ghost predicate Next(c: Channel, c': Channel) {
    Shape(c) && exists a :: Enabled(c, a) && c' == Act(c, a)
  }

  /** Any number of threads, any interleaving, from freshly created storage. */
  ghost predicate IsRun(run: seq<Channel>) {
    && run != [] && run[0].depth > 0 && run[0] == Fresh(run[0].depth, run[0].size)
    && forall i :: 0 <= i < |run| - 1 ==> Next(run[i], run[i + 1])
  }

  lemma FreshHolds(depth: nat, size: nat)
    requires depth > 0
    ensures Inv(Fresh(depth, size))
  {
    var c := Fresh(depth, size);
    forall k | 0 <= k < |c.slots| ensures UsersOk(c, k) { assert Pinners(c.depth, c.readers, k) == {}; }
  }

  lemma {:induction false} RunKeepsInv(run: seq<Channel>, i: nat)
    requires IsRun(run) && i < |run|
    ensures Inv(run[i])
  {
    if i == 0 {
      FreshHolds(run[0].depth, run[0].size);
    } else {
      RunKeepsInv(run, i - 1);
      assert Next(run[i - 1], run[i - 1 + 1]);
      var a :| Enabled(run[i - 1], a) && run[i] == Act(run[i - 1], a);
      StepKeepsInv(run[i - 1], a);
    }
  }

  // ---------------------------------------------------------------------
  // The retained window
  // ---------------------------------------------------------------------

  /** Slot k of s's group holds the committed value s whole, and is not being written. */
  ghost predicate HoldsWhole(c: Channel, k: nat, s: nat) {
    && c.depth > 0 && k < |c.slots| && 0 < s <= |c.log|
    && Base(c.depth, s) <= k < Base(c.depth, s) + 3
    && c.slots[k].sequence == s && c.slots[k].data == c.log[s - 1]
    && !MidWrite(c, k) && c.slots[k].version % 2 == 0
  }

  ghost predicate InExactlyOneSlot(c: Channel, s: nat) {
    exists k :: HoldsWhole(c, k, s) && forall j :: 0 <= j < |c.slots| && c.slots[j].sequence == s ==> j == k
  }

  lemma RetainedIsWhole(c: Channel, s: nat)
    requires Inv(c) && 0 < s && Retains(c, s)
    ensures InExactlyOneSlot(c, s)
  {
    assert Somewhere(c, s);
    var b := Base(c.depth, s);
    var k := if c.slots[b].sequence == s then b else if c.slots[b + 1].sequence == s then b + 1 else b + 2;
    assert ContentOk(c, k);
    if MidWrite(c, k) { OnlyRetainedInGroup(c, s, k); }
    assert HoldsWhole(c, k, s);
  }

  /** No publisher step changes a byte, the number or the version of a slot that
      some reader has pinned. */
  lemma PinnedIsNeverWritten(c: Channel, p: PublishStep, k: nat)
    requires Inv(c) && CanPublish(c, p) && k < |c.slots| && Pinners(c.depth, c.readers, k) != {}
    ensures Publish(c, p).slots[k] == c.slots[k]
  {
    assert UsersOk(c, k);
  }

  /** The same content, whoever uses the slot. */
  predicate SameContent(a: Slot, b: Slot) { b.version == a.version && b.sequence == a.sequence && b.data == a.data }

  /** No step of anyone changes the content of a slot that some reader has pinned. */
  lemma PinnedKeepsContent(c: Channel, a: Action, k: nat)
    requires Inv(c) && Enabled(c, a) && k < |c.slots| && Pinners(c.depth, c.readers, k) != {}
    ensures k < |Act(c, a).slots| && SameContent(c.slots[k], Act(c, a).slots[k])
  {
    match a
    case Publisher(p) => PinnedIsNeverWritten(c, p, k);
    case _ => hide UsersOk, ContentOk;
  }

  // ---------------------------------------------------------------------
  // Subscribers
  // ---------------------------------------------------------------------

  ghost function TotalMissed(ds: seq<Delivery>): nat {
    if ds == [] then 0 else TotalMissed(ds[..|ds| - 1]) + ds[|ds| - 1].missed
  }

  lemma {:induction false} AdvanceIsCount(ds: seq<Delivery>)
    ensures Advance(ds) == |ds| + TotalMissed(ds)
  {
    if ds != [] { AdvanceIsCount(ds[..|ds| - 1]); }
  }

  lemma {:induction false} AccountedAscends(start: nat, ds: seq<Delivery>, m: nat, n: nat)
    requires Accounted(start, ds) && m < n < |ds|
    ensures ds[m].sequence < ds[n].sequence
  {
    var init := ds[..|ds| - 1];
    if n < |ds| - 1 {
      AccountedAscends(start, init, m, n);
    } else if m < |init| - 1 {
      AccountedAscends(start, init, m, |init| - 1);
    }
  }

  /** What a subscriber received and what it was told it missed add up to how far
      its cursor moved; numbers ascend, values are the committed ones, and every
      missed sequence has left the retained window. */
  ghost predicate FairAccount(c: Channel, me: Reader) {
    && me.cursor - me.start == |me.delivered| + TotalMissed(me.delivered)
    && (forall m, n :: 0 <= m < n < |me.delivered| ==> me.delivered[m].sequence < me.delivered[n].sequence)
    && (forall n :: 0 <= n < |me.delivered| ==> IsCommitted(c, me.delivered[n]))
    && (forall n :: 0 <= n < |me.snapshots| ==> IsCommitted(c, me.snapshots[n]))
    && (forall n, x: nat :: 0 <= n < |me.delivered| && MissedBy(me.delivered[n], x) ==> !Retains(c, x))
  }

  predicate IsCommitted(c: Channel, d: Delivery) {
    0 < d.sequence <= |c.log| && d.value == c.log[d.sequence - 1]
  }

  predicate MissedBy(d: Delivery, x: nat) {
    d.sequence - d.missed <= x < d.sequence
  }

  lemma ReaderAccount(c: Channel, r: nat)
    requires Inv(c) && r < |c.readers|
    ensures FairAccount(c, c.readers[r])
  {
    var me := c.readers[r];
    assert ReaderOk(c, me);
    AdvanceIsCount(me.delivered);
    forall m, n | 0 <= m < n < |me.delivered| ensures me.delivered[m].sequence < me.delivered[n].sequence {
      AccountedAscends(me.start, me.delivered, m, n);
    }
  }

  /** The cursor moves only with a delivery, forwards and to its number; a read
      that fails leaves it alone. */
  lemma CursorMovesOnlyOnDelivery(c: Channel, q: ReadStep, r: nat)
    requires Inv(c) && CanRead(c, r, q)
    ensures var (me, me') := (c.readers[r], Read(c, r, q).readers[r]);
      if me'.delivered == me.delivered then me'.cursor == me.cursor
      else |me'.delivered| == |me.delivered| + 1 && me.delivered < me'.delivered
           && me'.cursor == me'.delivered[|me.delivered|].sequence > me.cursor
  {
    assert ReaderOk(c, c.readers[r]);
  }

  /** Every interleaving of the publisher with pinning readers. */
  lemma ChannelIsSafe(run: seq<Channel>, i: nat)
    requires IsRun(run) && i < |run|
    ensures forall s: nat :: 0 < s && Retains(run[i], s) ==> InExactlyOneSlot(run[i], s)
    ensures forall r :: 0 <= r < |run[i].readers| ==> FairAccount(run[i], run[i].readers[r])
    ensures run[i].depth > 0
    ensures i + 1 < |run| ==> forall k :: 0 <= k < |run[i].slots| && Pinners(run[i].depth, run[i].readers, k) != {} ==>
      k < |run[i + 1].slots| && SameContent(run[i].slots[k], run[i + 1].slots[k])
  {
    RunKeepsInv(run, i);
    if i + 1 < |run| {
      assert Next(run[i], run[i + 1]);
      var a :| Enabled(run[i], a) && run[i + 1] == Act(run[i], a);
      hide Inv, Act, Enabled;
      forall k | 0 <= k < |run[i].slots| && Pinners(run[i].depth, run[i].readers, k) != {}
        ensures k < |run[i + 1].slots| && SameContent(run[i].slots[k], run[i + 1].slots[k])
      {
        PinnedKeepsContent(run[i], a, k);
      }
    }
    forall s: nat | 0 < s && Retains(run[i], s) ensures InExactlyOneSlot(run[i], s) { RetainedIsWhole(run[i], s); }
    forall r | 0 <= r < |run[i].readers| ensures FairAccount(run[i], run[i].readers[r]) { ReaderAccount(run[i], r); }
  }
}
