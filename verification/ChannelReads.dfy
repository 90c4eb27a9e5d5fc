/** Which value a read of the channel delivers: the latest one when the call began,
    or the next one that is still retained; and that a read alone succeeds. */
module ChannelReads {
  import opened Wire
  import opened SharedChannel
  import opened ChannelRuns

  /** A run with the action of each step. */
  ghost predicate Labelled(run: seq<Channel>, acts: seq<Action>) {
    && |run| == |acts| + 1 && run[0].depth > 0 && run[0] == Fresh(run[0].depth, run[0].size)
    && forall i :: 0 <= i < |acts| ==> Takes(run[i], acts[i], run[i + 1])
  }

  ghost predicate Takes(c: Channel, a: Action, c': Channel) { Shape(c) && Enabled(c, a) && c' == Act(c, a) }

  lemma LabelledIsRun(run: seq<Channel>, acts: seq<Action>)
    requires Labelled(run, acts)
    ensures IsRun(run)
  {
    hide Act, Enabled;
    forall i | 0 <= i < |run| - 1 ensures Next(run[i], run[i + 1]) { assert Takes(run[i], acts[i], run[i + 1]); }
  }

  // ---------------------------------------------------------------------
  // What a read is after
  // ---------------------------------------------------------------------

  predicate Begins(a: Action, r: nat) { a.Reading? && a.r == r && (a.q.BeginNext? || a.q.BeginLatest?) }

  /** ReadLatest wants the latest sequence; ReadNext the first retained one after its
      cursor, and counts those between as missed. */
  ghost predicate Wants(c: Channel, cursor: nat, a: Action, want: Want) {
    && a.Reading? && want.sequential == a.q.BeginNext?
    && (a.q.BeginLatest? ==> want.sequence == c.published && want.missed == 0)
    && (a.q.BeginNext? ==>
          && cursor < want.sequence && Retains(c, want.sequence) && want.missed == want.sequence - cursor - 1
          && forall x: nat :: cursor < x < want.sequence ==> !Retains(c, x))
  }

  /** The read that reader r is at in state n began with step i. */
  ghost predicate Since(run: seq<Channel>, acts: seq<Action>, r: nat, i: nat, n: nat) {
    && i < n < |run| == |acts| + 1 && Begins(acts[i], r) && r < |run[i].readers|
    && forall k :: i < k < n ==> !Begins(acts[k], r)
  }

  lemma BeginWants(c: Channel, a: Action, r: nat)
    requires Inv(c) && Enabled(c, a) && Begins(a, r)
    ensures r < |c.readers| && r < |Act(c, a).readers| && !Act(c, a).readers[r].pc.Resting?
    ensures Wants(c, c.readers[r].cursor, a, Act(c, a).readers[r].pc.want)
    ensures Act(c, a).readers[r].cursor == c.readers[r].cursor
  {
    hide UsersInv, ContentInv, Present, Distinct, ReadersInv;
  }

  /** Other steps leave what a reader is after, unless they end its read. */
  lemma OtherWants(c: Channel, a: Action, r: nat)
    requires Inv(c) && Enabled(c, a) && !Begins(a, r) && r < |Act(c, a).readers| && !Act(c, a).readers[r].pc.Resting?
    ensures r < |c.readers| && !c.readers[r].pc.Resting? && Act(c, a).readers[r].pc.want == c.readers[r].pc.want
    ensures Act(c, a).readers[r].cursor == c.readers[r].cursor
  {
    hide UsersInv, ContentInv, Present, Distinct, ReadersInv;
    match a
    case Publisher(p) => PublisherKeepsReaders(c, p);
    case Reading(who, q) =>
      if who == r { OwnWants(c, r, q); } else { OtherReader(c, who, q, r); }
    case Open(_) =>
  }

  lemma PublisherKeepsReaders(c: Channel, p: PublishStep)
    requires Shape(c) && CanPublish(c, p)
    ensures Publish(c, p).readers == c.readers
  {
  }

  lemma OtherReader(c: Channel, who: nat, q: ReadStep, r: nat)
    requires Shape(c) && CanRead(c, who, q) && who != r
    ensures |Read(c, who, q).readers| == |c.readers| && (r < |c.readers| ==> Read(c, who, q).readers[r] == c.readers[r])
  {
  }

  lemma OwnWants(c: Channel, r: nat, q: ReadStep)
    requires Shape(c) && CanRead(c, r, q) && !q.BeginNext? && !q.BeginLatest?
    requires !Read(c, r, q).readers[r].pc.Resting?
    ensures !c.readers[r].pc.Resting? && Read(c, r, q).readers[r].pc.want == c.readers[r].pc.want
    ensures Read(c, r, q).readers[r].cursor == c.readers[r].cursor
  {
  }

  lemma {:induction false} ReadBegan(run: seq<Channel>, acts: seq<Action>, r: nat, n: nat) returns (i: nat)
    requires Labelled(run, acts) && n < |run| && r < |run[n].readers| && !run[n].readers[r].pc.Resting?
    ensures Since(run, acts, r, i, n) && run[i].readers[r].cursor == run[n].readers[r].cursor
    ensures Wants(run[i], run[i].readers[r].cursor, acts[i], run[n].readers[r].pc.want)
  {
    hide Inv, Act, Enabled, Wants;
    assert n > 0;
    LabelledIsRun(run, acts);
    RunKeepsInv(run, n - 1);
    assert Takes(run[n - 1], acts[n - 1], run[n - 1 + 1]);
    if Begins(acts[n - 1], r) {
      i := n - 1;
      BeginWants(run[i], acts[i], r);
    } else {
      OtherWants(run[n - 1], acts[n - 1], r);
      i := ReadBegan(run, acts, r, n - 1);
    }
  }

  // ---------------------------------------------------------------------
  // What it delivers
  // ---------------------------------------------------------------------

  predicate Unpins(a: Action, r: nat) { a == Reading(r, Unpin) }

  /** The end of a read that got something. */
  predicate Ends(c: Channel, me: Reader) {
    me.pc.Leaving? && me.pc.result.Some? && 0 < me.pc.want.sequence <= |c.log|
    && me.pc.result.value == c.log[me.pc.want.sequence - 1]
  }

  predicate Delivers(me: Reader, me': Reader)
    requires me.pc.Leaving? && me.pc.result.Some?
  {
    var d := Delivery(me.pc.want.sequence, me.pc.want.missed, me.pc.result.value);
    if me.pc.want.sequential then me'.delivered == me.delivered + [d] && me'.snapshots == me.snapshots
    else me'.snapshots == me.snapshots + [d] && me'.delivered == me.delivered
  }

  predicate SameDeliveries(me: Reader, me': Reader) {
    me'.snapshots == me.snapshots && me'.delivered == me.delivered
  }

  /** A delivery comes with the end of a read, and is what that read was after. */
  lemma DeliveryStep(c: Channel, a: Action, r: nat)
    requires Inv(c) && Enabled(c, a) && r < |c.readers|
    ensures r < |Act(c, a).readers|
    ensures var me, me' := c.readers[r], Act(c, a).readers[r];
      SameDeliveries(me, me') || (Unpins(a, r) && Ends(c, me) && Delivers(me, me'))
  {
    hide UsersInv, ContentInv, Present, Distinct, ReadersInv, Ends, Delivers, Read, Publish;
    match a
    case Publisher(p) => PublisherKeepsReaders(c, p);
    case Reading(who, q) =>
      if who != r {
        OtherReader(c, who, q, r);
      } else if q.Unpin? {
        UnpinDelivers(c, r);
      } else {
        OwnKeeps(c, r, q);
      }
    case Open(_) =>
  }

  lemma OwnKeeps(c: Channel, r: nat, q: ReadStep)
    requires Shape(c) && CanRead(c, r, q) && !q.Unpin?
    ensures |Read(c, r, q).readers| == |c.readers| && SameDeliveries(c.readers[r], Read(c, r, q).readers[r])
  {
  }

  lemma UnpinDelivers(c: Channel, r: nat)
    requires Inv(c) && CanRead(c, r, Unpin)
    ensures |Read(c, r, Unpin).readers| == |c.readers|
    ensures var me, me' := c.readers[r], Read(c, r, Unpin).readers[r];
      SameDeliveries(me, me') || (Ends(c, me) && Delivers(me, me'))
  {
    hide UsersInv, ContentInv, Present, Distinct, HistoryOk;
    assert ReaderOk(c, c.readers[r]);
  }

  /** Reader r got its latest delivery in step p. */
  ghost predicate GotIn(run: seq<Channel>, acts: seq<Action>, r: nat, p: nat) {
    && p + 1 < |run| == |acts| + 1 && r < |run[p].readers| && r < |run[p + 1].readers| && Unpins(acts[p], r)
    && Ends(run[p], run[p].readers[r]) && Delivers(run[p].readers[r], run[p + 1].readers[r])
  }

  /** What a reader has got, it has got in the last step or before. */
  lemma GotWhen(run: seq<Channel>, acts: seq<Action>, r: nat, n: nat)
    requires Labelled(run, acts) && n < |run| && r < |run[n].readers|
    requires run[n].readers[r].snapshots != [] || run[n].readers[r].delivered != []
    ensures n > 0 && r < |run[n - 1].readers|
    ensures SameDeliveries(run[n - 1].readers[r], run[n].readers[r]) || GotIn(run, acts, r, n - 1)
  {
    hide Inv, Act, Enabled, Ends, Delivers;
    assert n > 0;
    LabelledIsRun(run, acts);
    RunKeepsInv(run, n - 1);
    assert Takes(run[n - 1], acts[n - 1], run[n - 1 + 1]);
    if r >= |run[n - 1].readers| { OpenedEmpty(run[n - 1], acts[n - 1], r); }
    DeliveryStep(run[n - 1], acts[n - 1], r);
  }

  lemma OpenedEmpty(c: Channel, a: Action, r: nat)
    requires Inv(c) && Enabled(c, a) && |c.readers| <= r < |Act(c, a).readers|
    ensures Act(c, a).readers[r].snapshots == [] && Act(c, a).readers[r].delivered == []
  {
    hide UsersInv, ContentInv, Present, Distinct, ReadersInv;
  }

  lemma LogGrows(c: Channel, a: Action)
    requires Inv(c) && Enabled(c, a)
    ensures c.log <= Act(c, a).log
  {
    hide UsersInv, ContentInv, Present, Distinct, ReadersInv;
  }

  lemma {:induction false} LogIsKept(run: seq<Channel>, acts: seq<Action>, i: nat, n: nat)
    requires Labelled(run, acts) && i <= n < |run|
    ensures run[i].log <= run[n].log && |run[i].log| == run[i].published
  {
    hide Inv, Act, Enabled, Fresh, Shape;
    LabelledIsRun(run, acts);
    RunKeepsInv(run, i);
    LogIsWhole(run[i]);
    if i < n {
      LogIsKept(run, acts, i, n - 1);
      RunKeepsInv(run, n - 1);
      assert Takes(run[n - 1], acts[n - 1], run[n - 1 + 1]);
      LogGrows(run[n - 1], acts[n - 1]);
    }
  }

  lemma LogIsWhole(c: Channel)
    requires Inv(c)
    ensures |c.log| == c.published
  {
  }

  /** In every run: each snapshot that a reader has got was delivered by a ReadLatest,
      ending with step j, that began with step i; its number is the latest one at that
      moment, and its value the one committed last then. */
  lemma {:induction false} SnapshotIsLatest(run: seq<Channel>, acts: seq<Action>, r: nat, n: nat, m: nat)
      returns (i: nat, j: nat)
    requires Labelled(run, acts) && n < |run| && r < |run[n].readers| && m < |run[n].readers[r].snapshots|
    ensures j < n && Since(run, acts, r, i, j) && acts[i].q.BeginLatest? && Unpins(acts[j], r)
    ensures r < |run[j].readers| && |run[j].readers[r].snapshots| == m
    ensures run[i].published > 0 && |run[i].log| == run[i].published
    ensures run[n].readers[r].snapshots[m]
         == Delivery(run[i].published, 0, run[i].log[run[i].published - 1])
  {
    hide Takes, Wants, Fresh;
    GotWhen(run, acts, r, n);
    var p := n - 1;
    if m < |run[p].readers[r].snapshots| {
      i, j := SnapshotIsLatest(run, acts, r, p, m);
    } else {
      j := p;
      i := ReadBegan(run, acts, r, p);
      LogIsKept(run, acts, i, p);
      LatestMeans(run[i], run[i].readers[r].cursor, acts[i], run[p].readers[r].pc.want);
    }
  }

  /** In every run: each delivery was made by a ReadNext, ending with step j, that began
      with step i; its number is the first after the cursor that was retained at that
      moment, it counts exactly the numbers between as missed, and its value is the one
      committed under that number. */
  lemma {:induction false} DeliveryIsNext(run: seq<Channel>, acts: seq<Action>, r: nat, n: nat, m: nat)
      returns (i: nat, j: nat)
    requires Labelled(run, acts) && n < |run| && r < |run[n].readers| && m < |run[n].readers[r].delivered|
    ensures j < n && Since(run, acts, r, i, j) && acts[i].q.BeginNext? && Unpins(acts[j], r)
    ensures r < |run[j].readers| && |run[j].readers[r].delivered| == m
    ensures var d, cursor := run[n].readers[r].delivered[m], run[i].readers[r].cursor;
      && cursor < d.sequence && Retains(run[i], d.sequence) && d.missed == d.sequence - cursor - 1
      && (forall x: nat :: cursor < x < d.sequence ==> !Retains(run[i], x))
      && d.sequence <= |run[i].log| && d.value == run[i].log[d.sequence - 1]
  {
    hide Takes, Wants, Fresh;
    GotWhen(run, acts, r, n);
    var p := n - 1;
    if m < |run[p].readers[r].delivered| {
      i, j := DeliveryIsNext(run, acts, r, p, m);
    } else {
      j := p;
      i := ReadBegan(run, acts, r, p);
      LogIsKept(run, acts, i, p);
      NextMeans(run[i], run[i].readers[r].cursor, acts[i], run[p].readers[r].pc.want);
    }
  }

  lemma NextMeans(c: Channel, cursor: nat, a: Action, want: Want)
    requires Wants(c, cursor, a, want) && want.sequential
    ensures a.Reading? && a.q.BeginNext? && cursor < want.sequence && Retains(c, want.sequence)
    ensures want.missed == want.sequence - cursor - 1
    ensures forall x: nat :: cursor < x < want.sequence ==> !Retains(c, x)
  {
  }

  lemma LatestMeans(c: Channel, cursor: nat, a: Action, want: Want)
    requires Wants(c, cursor, a, want) && Begins(a, a.r) && !want.sequential
    ensures a.q.BeginLatest? && want.sequence == c.published && want.missed == 0
  {
  }

  // ---------------------------------------------------------------------
  // A read alone
  // ---------------------------------------------------------------------

  /** What the reading thread does next when nobody else does anything. */
  ghost function AloneStep(c: Channel, r: nat): ReadStep
    requires Shape(c) && r < |c.readers| && !c.readers[r].pc.Resting?
  {
    var pc := c.readers[r].pc;
    match pc
    case Trying(want, i) =>
      if i == 3 then ReadFails
      else if c.slots[ReaderSlot(c.depth, pc)].users < WRITING - 1 then Pin
      else PinFails
    case Pinned(_, _) => LoadVersion
    case Versioned(_, _, _) => CheckSlot
    case Copying(_, _, _, copy) => if |copy| < c.size then CopyByte else Recheck
    case Leaving(_, _, _) => Unpin
  }

  /** How far a read is within one slot. */
  function Stage(pc: ReaderPc): nat {
    match pc
    case Resting => 0
    case Trying(_, _) => 5
    case Pinned(_, _) => 4
    case Versioned(_, _, _) => 3
    case Copying(_, _, _, _) => 2
    case Leaving(_, _, _) => 1
  }

  function Left(size: nat, pc: ReaderPc): nat { if pc.Copying? && |pc.copy| <= size then size - |pc.copy| else 0 }

  function Tries(pc: ReaderPc): nat { if pc.Resting? then 0 else if pc.i < 4 then 4 - pc.i else 0 }

  lemma AloneIsEnabled(c: Channel, r: nat)
    requires Inv(c) && r < |c.readers| && !c.readers[r].pc.Resting?
    ensures CanRead(c, r, AloneStep(c, r))
    ensures var c' := Read(c, r, AloneStep(c, r));
      var pc, pc' := c.readers[r].pc, c'.readers[r].pc;
      && r < |c'.readers| && c'.size == c.size
      && (Tries(pc') < Tries(pc) || (Tries(pc') == Tries(pc) && (Stage(pc') < Stage(pc)
          || (Stage(pc') == Stage(pc) && Left(c.size, pc') < Left(c.size, pc)))))
  {
    assert ReaderOk(c, c.readers[r]);
    hide UsersInv, ContentInv, Present, Distinct, ReadersInv, HistoryOk;
  }

  /** The channel when the read that reader r is at has ended. */
  ghost function ReadAlone(c: Channel, r: nat): Channel
    requires Inv(c) && r < |c.readers|
    decreases Tries(c.readers[r].pc), Stage(c.readers[r].pc), Left(c.size, c.readers[r].pc)
  {
    if c.readers[r].pc.Resting? then c else
    AloneIsEnabled(c, r);
    StepKeepsInv(c, Reading(r, AloneStep(c, r)));
    ReadAlone(Read(c, r, AloneStep(c, r)), r)
  }

  lemma AloneUnfolds(c: Channel, r: nat) returns (c': Channel)
    requires Inv(c) && r < |c.readers| && !c.readers[r].pc.Resting?
    ensures CanRead(c, r, AloneStep(c, r)) && c' == Read(c, r, AloneStep(c, r))
    ensures Inv(c') && r < |c'.readers| && ReadAlone(c, r) == ReadAlone(c', r)
  {
    hide UsersInv, ContentInv, Present, Distinct, ReadersInv, Read, AloneStep;
    AloneIsEnabled(c, r);
    StepKeepsInv(c, Reading(r, AloneStep(c, r)));
    c' := Read(c, r, AloneStep(c, r));
  }

  /** Reader r has pinned slot k and is at pc. */
  function Holding(c: Channel, r: nat, k: nat, pc: ReaderPc): Channel
    requires r < |c.readers| && k < |c.slots|
  {
    c.(slots := c.slots[k := c.slots[k].(users := c.slots[k].users + 1)],
       readers := c.readers[r := c.readers[r].(pc := pc)])
  }

  /** Reader r is about to try slot i of its group. */
  predicate AtSlot(c: Channel, r: nat, want: Want, i: nat) {
    r < |c.readers| && c.readers[r].pc == Trying(want, i) && i < 3 && want.sequence > 0
  }

  lemma SlotIsThere(c: Channel, r: nat, want: Want, i: nat)
    requires Inv(c) && AtSlot(c, r, want, i)
    ensures c.depth > 0 && Base(c.depth, want.sequence) + i < |c.slots|
    ensures c.slots[Base(c.depth, want.sequence) + i].users <= WRITING
  {
    assert UsersOk(c, Base(c.depth, want.sequence) + i);
  }

  /** Pinning, and looking at the version. */
  lemma PinAlone(c: Channel, r: nat, want: Want, i: nat) returns (k: nat, c': Channel)
    requires Inv(c) && AtSlot(c, r, want, i) && c.pc == Idle
    requires c.depth > 0 && Base(c.depth, want.sequence) + i < |c.slots|
    requires c.slots[Base(c.depth, want.sequence) + i].users < WRITING - 1
    ensures k == Base(c.depth, want.sequence) + i
    ensures c' == Holding(c, r, k, Versioned(want, i, c.slots[k].version))
    ensures Inv(c') && r < |c'.readers| && ReadAlone(c, r) == ReadAlone(c', r)
  {
    k := Base(c.depth, want.sequence) + i;
    hide UsersInv, ContentInv, Present, Distinct, ReadersInv, ReadAlone;
    var c1 := AloneUnfolds(c, r);
    assert c1 == Holding(c, r, k, Pinned(want, i));
    c' := AloneUnfolds(c1, r);
    assert c' == Holding(c, r, k, Versioned(want, i, c.slots[k].version));
  }

  /** Letting go of the slot restores it. */
  lemma UnpinAlone(c: Channel, r: nat, k: nat, h: Channel, want: Want, i: nat, result: Option<seq<byte>>)
      returns (c': Channel)
    requires Inv(c) && AtSlot(c, r, want, i) && c.depth > 0 && k == Base(c.depth, want.sequence) + i < |c.slots|
    requires c.slots[k].users < WRITING - 1
    requires Inv(h) && h == Holding(c, r, k, Leaving(want, i, result))
    ensures Inv(c') && r < |c'.readers| && ReadAlone(h, r) == ReadAlone(c', r)
    ensures var me := c.readers[r];
      c' == c.(readers := c.readers[r :=
        match result
        case None => me.(pc := Trying(want, i + 1))
        case Some(value) =>
          var d := Delivery(want.sequence, want.missed, value);
          if want.sequential then me.(delivered := me.delivered + [d], cursor := d.sequence, pc := Resting)
          else me.(snapshots := me.snapshots + [d], pc := Resting)])
  {
    hide UsersInv, ContentInv, Present, Distinct, ReadersInv, ReadAlone;
    c' := AloneUnfolds(h, r);
    assert Down(c.slots[k].users + 1) == c.slots[k].users;
    assert c'.slots == c.slots;
  }

  /** A slot that holds another sequence is passed over. */
  lemma SkipAlone(c: Channel, r: nat, want: Want, i: nat) returns (c': Channel)
    requires Inv(c) && AtSlot(c, r, want, i) && c.pc == Idle
    requires c.depth > 0 && Base(c.depth, want.sequence) + i < |c.slots|
    requires c.slots[Base(c.depth, want.sequence) + i].users < WRITING - 1
    requires c.slots[Base(c.depth, want.sequence) + i].sequence != want.sequence
    ensures c' == c.(readers := c.readers[r := c.readers[r].(pc := Trying(want, i + 1))])
    ensures Inv(c') && r < |c'.readers| && ReadAlone(c, r) == ReadAlone(c', r)
  {
    hide UsersInv, ContentInv, Present, Distinct, ReadersInv, ReadAlone;
    var k, c2 := PinAlone(c, r, want, i);
    var c3 := AloneUnfolds(c2, r);
    assert c3 == Holding(c, r, k, Leaving(want, i, None));
    c' := UnpinAlone(c, r, k, c3, want, i, None);
  }

  lemma {:induction false} CopyAlone(c: Channel, r: nat, k: nat, h: Channel, want: Want, i: nat, n: nat)
      returns (c': Channel)
    requires Inv(c) && AtSlot(c, r, want, i) && c.depth > 0 && k == Base(c.depth, want.sequence) + i < |c.slots|
    requires n <= |c.slots[k].data| == c.size && c.slots[k].version % 2 == 0
    requires Inv(h) && h == Holding(c, r, k, Copying(want, i, c.slots[k].version, c.slots[k].data[..n]))
    ensures c' == Holding(c, r, k, Leaving(want, i, Some(c.slots[k].data)))
    ensures Inv(c') && r < |c'.readers| && ReadAlone(h, r) == ReadAlone(c', r)
    decreases c.size - n
  {
    hide UsersInv, ContentInv, Present, Distinct, ReadersInv, ReadAlone;
    var h' := AloneUnfolds(h, r);
    if n < c.size {
      assert c.slots[k].data[..n] + [c.slots[k].data[n]] == c.slots[k].data[..n + 1];
      assert h' == Holding(c, r, k, Copying(want, i, c.slots[k].version, c.slots[k].data[..n + 1]));
      c' := CopyAlone(c, r, k, h', want, i, n + 1);
    } else {
      assert c.slots[k].data[..n] == c.slots[k].data;
      c' := h';
    }
  }

  lemma HeldWhole(c: Channel, k: nat)
    requires Inv(c) && c.pc == Idle && k < |c.slots| && c.slots[k].sequence > 0
    ensures c.slots[k].sequence <= |c.log| && c.slots[k].data == c.log[c.slots[k].sequence - 1]
    ensures |c.slots[k].data| == c.size && c.slots[k].version % 2 == 0
  {
    hide UsersInv, Present, Distinct, ReadersInv;
    assert ContentOk(c, k);
  }

  /** The slot that holds the wanted sequence is copied whole. */
  lemma TakeAlone(c: Channel, r: nat, want: Want, i: nat) returns (c': Channel)
    requires Inv(c) && AtSlot(c, r, want, i) && c.pc == Idle && Retains(c, want.sequence)
    requires c.depth > 0 && Base(c.depth, want.sequence) + i < |c.slots|
    requires c.slots[Base(c.depth, want.sequence) + i].users < WRITING - 1
    requires c.slots[Base(c.depth, want.sequence) + i].sequence == want.sequence
    ensures want.sequence <= |c.log| && Inv(c') && r < |c'.readers| && ReadAlone(c, r) == ReadAlone(c', r)
    ensures c' == Got(c, r, want)
  {
    hide UsersInv, ContentInv, Present, Distinct, ReadersInv, ReadAlone;
    var k, c2 := PinAlone(c, r, want, i);
    HeldWhole(c, k);
    var c3 := AloneUnfolds(c2, r);
    assert c.slots[k].data[..0] == [];
    assert c3 == Holding(c, r, k, Copying(want, i, c.slots[k].version, c.slots[k].data[..0]));
    hide Read, AloneStep, Inv;
    var c4 := CopyAlone(c, r, k, c3, want, i, 0);
    c' := UnpinAlone(c, r, k, c4, want, i, Some(c.slots[k].data));
  }

  /** Reader r has got what it wanted, and nothing else has changed. */
  function Got(c: Channel, r: nat, want: Want): Channel
    requires r < |c.readers| && 0 < want.sequence <= |c.log|
  {
    var me := c.readers[r];
    var d := Delivery(want.sequence, want.missed, c.log[want.sequence - 1]);
    c.(readers := c.readers[r :=
      if want.sequential then me.(delivered := me.delivered + [d], cursor := d.sequence, pc := Resting)
      else me.(snapshots := me.snapshots + [d], pc := Resting)])
  }

  predicate FewUsers(c: Channel) { forall k :: 0 <= k < |c.slots| ==> c.slots[k].users < WRITING - 1 }

  /** No slot of the group before i holds the wanted sequence. */
  predicate NotBefore(c: Channel, s: nat, i: nat)
    requires c.depth > 0 && s > 0
  {
    var b := Base(c.depth, s);
    && b + 3 <= |c.slots| && (i > 0 ==> c.slots[b].sequence != s)
    && (i > 1 ==> c.slots[b + 1].sequence != s) && (i > 2 ==> c.slots[b + 2].sequence != s)
  }

  lemma {:induction false} SearchAlone(c: Channel, r: nat, want: Want, i: nat)
    requires Inv(c) && r < |c.readers| && c.readers[r].pc == Trying(want, i) && i <= 3 && want.sequence > 0
    requires c.pc == Idle && FewUsers(c) && Retains(c, want.sequence) && c.depth > 0 && NotBefore(c, want.sequence, i)
    ensures want.sequence <= |c.log| && ReadAlone(c, r) == Got(c, r, want)
    decreases 3 - i
  {
    hide ReadAlone;
    assert Somewhere(c, want.sequence) && i < 3;
    hide UsersInv, ContentInv, Present, Distinct, ReadersInv;
    var k := Base(c.depth, want.sequence) + i;
    if c.slots[k].sequence == want.sequence {
      var c' := TakeAlone(c, r, want, i);
      RestsAlone(c', r);
    } else {
      var c' := SkipAlone(c, r, want, i);
      SearchAlone(c', r, want, i + 1);
    }
  }

  lemma RestsAlone(c: Channel, r: nat)
    requires Inv(c) && r < |c.readers| && c.readers[r].pc.Resting?
    ensures ReadAlone(c, r) == c
  {
    hide Inv;
  }

  /** Alone on an idle channel, ReadLatest succeeds and gets the value committed last,
      and ReadNext gets the first retained one after its cursor; the read leaves no
      other trace. */
  lemma ReadsAloneSucceed(c: Channel, r: nat, q: ReadStep)
    requires Inv(c) && c.pc == Idle && FewUsers(c) && CanRead(c, r, q) && (q.BeginLatest? || q.BeginNext?)
    ensures Inv(Read(c, r, q)) && r < |Read(c, r, q).readers| && |c.log| == c.published > 0
    ensures var me := c.readers[r];
      var d := Delivery(c.published, 0, c.log[|c.log| - 1]);
      q.BeginLatest? ==>
        ReadAlone(Read(c, r, q), r) == c.(readers := c.readers[r := me.(snapshots := me.snapshots + [d])])
    ensures var me := c.readers[r];
      var s := if me.cursor + 1 < Oldest(c) then Oldest(c) else me.cursor + 1;
      q.BeginNext? ==>
        && 0 < s <= |c.log|
        && var d := Delivery(s, s - me.cursor - 1, c.log[s - 1]);
        ReadAlone(Read(c, r, q), r) == c.(readers := c.readers[r := me.(cursor := s, delivered := me.delivered + [d])])
  {
    hide UsersInv, ContentInv, Present, Distinct, ReadersInv, ReadAlone;
    StepKeepsInv(c, Reading(r, q));
    var c' := Read(c, r, q);
    SearchAlone(c', r, c'.readers[r].pc.want, 0);
  }
}
