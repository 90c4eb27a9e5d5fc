/** The shared-memory topic channel: one publisher, any number of readers, every
    atomic access of PublishImpl, ReadNext, ReadLatest and CopyChannelSequence as
    a step of its own. Both memcpy calls go byte by byte, so a torn copy is a
    reachable state unless the pins exclude it. Atomics are sequentially
    consistent, as in the source. */
module SharedChannel {
  import opened Wire

  const WRITING: nat := 0x8000_0000
  const WORD: nat := 0x1_0000_0000

  datatype Slot = Slot(users: nat, version: nat, sequence: nat, data: seq<byte>)

  /** Where the publishing thread is; `i` numbers the slot within the group. */
  datatype PublisherPc =
    | Idle
    | Search(i: nat)             // about to try slot i, or give up at 3
    | Claimed(i: nat)            // users exchanged for WRITING
    | Writing(i: nat, done: nat) // version odd, `done` bytes copied
    | Stamped(i: nat)            // slot.sequence stored
    | Even(i: nat)               // version even again
    | Released(i: nat)           // users stored 0, publish_sequence not yet stored

  /** What a read is after, and how many sequences ReadNext skips to get there. */
  datatype Want = Want(sequence: nat, missed: nat, sequential: bool)

  datatype ReaderPc =
    | Resting
    | Trying(want: Want, i: nat)
    | Pinned(want: Want, i: nat)
    | Versioned(want: Want, i: nat, before: nat)
    | Copying(want: Want, i: nat, before: nat, copy: seq<byte>)
    | Leaving(want: Want, i: nat, result: Option<seq<byte>>)

  datatype Delivery = Delivery(sequence: nat, missed: nat, value: seq<byte>)

  datatype Reader = Reader(start: nat, cursor: nat, delivered: seq<Delivery>, snapshots: seq<Delivery>, pc: ReaderPc)

  /** `log[s - 1]` is the value committed as sequence s. */
  datatype Channel = Channel(
    depth: nat, size: nat, published: nat, slots: seq<Slot>,
    pc: PublisherPc, value: seq<byte>, readers: seq<Reader>, log: seq<seq<byte>>)

  datatype PublishStep =
    | BeginPublish(value: seq<byte>)
    | TryClaim
    | SkipRetained
    | BroadcastFails
    | BeginWrite
    | WriteByte
    | Stamp
    | EndWrite
    | Release
    | Commit
    | GiveUp

  datatype ReadStep =
    | BeginNext
    | BeginLatest
    | Pin
    | PinFails
    | LoadVersion
    | CheckSlot
    | CopyByte
    | Recheck
    | Unpin
    | ReadFails

  datatype Action = Publisher(p: PublishStep) | Reading(r: nat, q: ReadStep) | Open(next: bool)

  /** x % d by repeated subtraction: see ResidueIsModulo. */
  function Residue(x: nat, d: nat): (r: nat)
    requires d > 0
    ensures r < d
  {
    if x < d then x else Residue(x - d, d)
  }

  function Base(depth: nat, sequence: nat): (b: nat)
    requires depth > 0 && sequence > 0
    ensures b + 3 <= depth * 3
  {
    Residue(sequence - 1, depth) * 3
  }

  /** The sequence that the next publication must not overwrite, or 0. */
  function RetainedOf(depth: nat, published: nat): nat {
    if published + 1 > depth then published + 1 - depth else 0
  }

  function Retained(c: Channel): nat { RetainedOf(c.depth, c.published) }

  function OldestOf(depth: nat, published: nat): nat {
    if published >= depth then published - depth + 1 else 1
  }

  function Oldest(c: Channel): nat { OldestOf(c.depth, c.published) }

  predicate Retains(c: Channel, s: nat) {
    Oldest(c) <= s <= c.published
  }

  ghost predicate Shape(c: Channel) {
    && c.depth > 0
    && |c.slots| == c.depth * 3
    && (forall k :: 0 <= k < |c.slots| ==> |c.slots[k].data| == c.size)
    && |c.log| == c.published <= U64_MAX
    && (c.pc != Idle ==> c.published < U64_MAX && |c.value| == c.size)
    && (c.pc.Search? ==> c.pc.i <= 3)
    && (!c.pc.Idle? && !c.pc.Search? ==> c.pc.i < 3)
    && (c.pc.Writing? ==> c.pc.done <= c.size)
    && forall r :: 0 <= r < |c.readers| ==> ReaderShape(c.published, c.readers[r].pc)
  }

  predicate ReaderShape(published: nat, pc: ReaderPc) {
    pc.Resting? || (0 < pc.want.sequence <= published && if pc.Trying? then pc.i <= 3 else pc.i < 3)
  }

  /** The slot the publisher is at. */
  function Target(c: Channel): nat
    requires c.depth > 0 && !c.pc.Idle?
  {
    Base(c.depth, c.published + 1) + c.pc.i
  }

  function ReaderSlot(depth: nat, pc: ReaderPc): nat
    requires depth > 0 && !pc.Resting? && pc.want.sequence > 0
  {
    Base(depth, pc.want.sequence) + pc.i
  }

  function SetSlot(c: Channel, k: nat, s: Slot): Channel
    requires k < |c.slots|
  {
    c.(slots := c.slots[k := s])
  }

  function SetReader(c: Channel, r: nat, pc: ReaderPc): Channel
    requires r < |c.readers|
  {
    c.(readers := c.readers[r := c.readers[r].(pc := pc)])
  }

  // ---------------------------------------------------------------------
  // Steps
  // ---------------------------------------------------------------------

  predicate HoldsRetained(c: Channel)
    requires c.depth > 0 && |c.slots| == c.depth * 3 && c.pc.Claimed? && c.pc.i < 3
  {
    Retained(c) != 0 && c.slots[Target(c)].sequence == Retained(c)
  }

  ghost predicate CanPublish(c: Channel, p: PublishStep)
    requires Shape(c)
  {
    match p
    case BeginPublish(value) => c.pc == Idle && c.published < U64_MAX && |value| == c.size
    case TryClaim => c.pc.Search? && c.pc.i < 3
    case SkipRetained => c.pc.Claimed? && HoldsRetained(c)
    case BroadcastFails => c.pc.Claimed? && !HoldsRetained(c)
    case BeginWrite => c.pc.Claimed? && !HoldsRetained(c)
    case WriteByte => c.pc.Writing? && c.pc.done < c.size
    case Stamp => c.pc.Writing? && c.pc.done == c.size
    case EndWrite => c.pc.Stamped?
    case Release => c.pc.Even?
    case Commit => c.pc.Released?
    case GiveUp => c.pc.Search? && c.pc.i == 3
  }

  ghost predicate CanRead(c: Channel, r: nat, q: ReadStep)
    requires Shape(c)
  {
    r < |c.readers| &&
    var me := c.readers[r];
    match q
    case BeginNext => me.pc.Resting? && me.cursor < c.published
    case BeginLatest => me.pc.Resting? && 0 < c.published
    case Pin => me.pc.Trying? && me.pc.i < 3 && c.slots[ReaderSlot(c.depth, me.pc)].users < WRITING - 1
    case PinFails => me.pc.Trying? && me.pc.i < 3
    case LoadVersion => me.pc.Pinned?
    case CheckSlot => me.pc.Versioned?
    case CopyByte => me.pc.Copying? && |me.pc.copy| < c.size
    case Recheck => me.pc.Copying? && |me.pc.copy| == c.size
    case Unpin => me.pc.Leaving?
    case ReadFails => me.pc.Trying? && me.pc.i == 3
  }

  ghost predicate Enabled(c: Channel, a: Action)
    requires Shape(c)
  {
    match a
    case Publisher(p) => CanPublish(c, p)
    case Reading(r, q) => CanRead(c, r, q)
    case Open(_) => true
  }

  // 32-bit fetch_add(1) and fetch_sub(1)
  function Up(n: nat): nat { (n + 1) % WORD }
  function Down(n: nat): nat { (n + WORD - 1) % WORD }

  ghost function Publish(c: Channel, p: PublishStep): Channel
    requires Shape(c) && CanPublish(c, p)
  {
    match p
    case BeginPublish(value) => c.(pc := Search(0), value := value)
    case TryClaim =>
      var k := Target(c);
      if c.slots[k].users == 0
      then SetSlot(c, k, c.slots[k].(users := WRITING)).(pc := Claimed(c.pc.i))
      else c.(pc := Search(c.pc.i + 1))
    case SkipRetained =>
      var k := Target(c);
      SetSlot(c, k, c.slots[k].(users := 0)).(pc := Search(c.pc.i + 1))
    case BroadcastFails =>
      var k := Target(c);
      SetSlot(c, k, c.slots[k].(users := 0)).(pc := Idle)
    case BeginWrite =>
      var k := Target(c);
      SetSlot(c, k, c.slots[k].(version := Up(c.slots[k].version))).(pc := Writing(c.pc.i, 0))
    case WriteByte =>
      var k, n := Target(c), c.pc.done;
      SetSlot(c, k, c.slots[k].(data := c.slots[k].data[n := c.value[n]])).(pc := Writing(c.pc.i, n + 1))
    case Stamp =>
      var k := Target(c);
      SetSlot(c, k, c.slots[k].(sequence := c.published + 1)).(pc := Stamped(c.pc.i))
    case EndWrite =>
      var k := Target(c);
      SetSlot(c, k, c.slots[k].(version := Up(c.slots[k].version))).(pc := Even(c.pc.i))
    case Release =>
      var k := Target(c);
      SetSlot(c, k, c.slots[k].(users := 0)).(pc := Released(c.pc.i))
    case Commit => c.(published := c.published + 1, log := c.log + [c.value], pc := Idle)
    case GiveUp => c.(pc := Idle)
  }

  ghost function Read(c: Channel, r: nat, q: ReadStep): Channel
    requires Shape(c) && CanRead(c, r, q)
  {
    var me := c.readers[r];
    var pc := me.pc;
    match q
    case BeginNext =>
      var expected := me.cursor + 1;
      var wanted := if expected < Oldest(c) then Oldest(c) else expected;
      SetReader(c, r, Trying(Want(wanted, wanted - expected, true), 0))
    case BeginLatest => SetReader(c, r, Trying(Want(c.published, 0, false), 0))
    case Pin =>
      var k := ReaderSlot(c.depth, pc);
      SetReader(SetSlot(c, k, c.slots[k].(users := c.slots[k].users + 1)), r, Pinned(pc.want, pc.i))
    case PinFails => SetReader(c, r, Trying(pc.want, pc.i + 1))
    case LoadVersion => SetReader(c, r, Versioned(pc.want, pc.i, c.slots[ReaderSlot(c.depth, pc)].version))
    case CheckSlot =>
      var s := pc.want.sequence;
      if pc.before % 2 == 1 || c.slots[ReaderSlot(c.depth, pc)].sequence != s || s > c.published
          || c.published - s >= c.depth
      then SetReader(c, r, Leaving(pc.want, pc.i, None))
      else SetReader(c, r, Copying(pc.want, pc.i, pc.before, []))
    case CopyByte => SetReader(c, r, pc.(copy := pc.copy + [c.slots[ReaderSlot(c.depth, pc)].data[|pc.copy|]]))
    case Recheck =>
      var after := c.slots[ReaderSlot(c.depth, pc)].version;
      SetReader(c, r, Leaving(pc.want, pc.i, if pc.before == after && after % 2 == 0 then Some(pc.copy) else None))
    case Unpin =>
      var k := ReaderSlot(c.depth, pc);
      var freed := SetSlot(c, k, c.slots[k].(users := Down(c.slots[k].users)));
      if pc.result.None? then SetReader(freed, r, Trying(pc.want, pc.i + 1))
      else
        var d := Delivery(pc.want.sequence, pc.want.missed, pc.result.value);
        var me' := if pc.want.sequential
                   then me.(delivered := me.delivered + [d], cursor := d.sequence, pc := Resting)
                   else me.(snapshots := me.snapshots + [d], pc := Resting);
        freed.(readers := freed.readers[r := me'])
    case ReadFails => SetReader(c, r, Resting)
  }

  ghost function Act(c: Channel, a: Action): Channel
    requires Shape(c) && Enabled(c, a)
  {
    match a
    case Publisher(p) => Publish(c, p)
    case Reading(r, q) => Read(c, r, q)
    case Open(next) =>
      var start := if next then c.published else if c.published > c.depth then c.published - c.depth else 0;
      c.(readers := c.readers + [Reader(start, start, [], [], Resting)])
  }

  // ---------------------------------------------------------------------
  // Invariant
  // ---------------------------------------------------------------------

  predicate Pins(depth: nat, pc: ReaderPc, k: nat)
    requires depth > 0
  {
    !pc.Resting? && !pc.Trying? && pc.want.sequence > 0 && Base(depth, pc.want.sequence) + pc.i == k
  }

  ghost function Pinners(depth: nat, readers: seq<Reader>, k: nat): set<nat>
    requires depth > 0
  {
    set r: nat | r < |readers| && Pins(depth, readers[r].pc, k)
  }

  predicate AtTarget(c: Channel, k: nat) {
    c.depth > 0 && !c.pc.Idle? && Target(c) == k
  }

  predicate Owns(c: Channel, k: nat) {
    AtTarget(c, k) && (c.pc.Claimed? || c.pc.Writing? || c.pc.Stamped? || c.pc.Even?)
  }

  predicate MidWrite(c: Channel, k: nat) {
    AtTarget(c, k) && (c.pc.Writing? || c.pc.Stamped?)
  }

  /** Slot k holds the value being published, completely, under its number. */
  predicate InFlight(c: Channel, k: nat) {
    AtTarget(c, k) && (c.pc.Stamped? || c.pc.Even? || c.pc.Released?)
  }

  ghost predicate UsersOk(c: Channel, k: nat)
    requires Shape(c) && k < |c.slots|
  {
    var p := Pinners(c.depth, c.readers, k);
    if Owns(c, k) then c.slots[k].users == WRITING && p == {}
    else c.slots[k].users == |p| && c.slots[k].users < WRITING
  }

  ghost predicate ContentOk(c: Channel, k: nat)
    requires Shape(c) && k < |c.slots|
  {
    var s := c.slots[k];
    && s.version < WORD
    && s.version % 2 == (if MidWrite(c, k) then 1 else 0)
    && (if InFlight(c, k) then
          s.sequence == c.published + 1 && s.data == c.value
        else if s.sequence == 0 then
          true
        else
          && s.sequence <= c.published
          && Base(c.depth, s.sequence) <= k < Base(c.depth, s.sequence) + 3
          && (!MidWrite(c, k) ==> s.data == c.log[s.sequence - 1]))
    && (MidWrite(c, k) && c.pc.Writing? ==>
          (Retained(c) != 0 ==> s.sequence != Retained(c)) && s.data[..c.pc.done] == c.value[..c.pc.done])
  }

  predicate Somewhere(c: Channel, s: nat)
    requires c.depth > 0 && |c.slots| == c.depth * 3 && s > 0
  {
    var b := Base(c.depth, s);
    c.slots[b].sequence == s || c.slots[b + 1].sequence == s || c.slots[b + 2].sequence == s
  }

  ghost predicate Present(c: Channel)
    requires Shape(c)
  {
    forall s: nat :: 0 < s && Retains(c, s) ==> Somewhere(c, s)
  }

  ghost predicate Distinct(c: Channel) {
    forall j, k :: 0 <= j < k < |c.slots| && c.slots[j].sequence != 0 ==> c.slots[j].sequence != c.slots[k].sequence
  }

  ghost predicate ReaderOk(c: Channel, me: Reader)
    requires Shape(c) && ReaderShape(c.published, me.pc)
  {
    && HistoryOk(c.depth, c.log, me)
    && (!me.pc.Resting? ==>
          && (me.pc.want.sequential ==> me.pc.want.sequence == me.cursor + 1 + me.pc.want.missed)
          && GoneBefore(c.depth, c.published, me.pc.want.sequence, me.pc.want.missed))
    && (me.pc.Versioned? || me.pc.Copying? ==> me.pc.before == c.slots[ReaderSlot(c.depth, me.pc)].version)
    && (me.pc.Copying? ==>
          var slot := c.slots[ReaderSlot(c.depth, me.pc)];
          slot.sequence == me.pc.want.sequence && |me.pc.copy| <= |slot.data|
              && me.pc.copy == slot.data[..|me.pc.copy|])
    && (me.pc.Leaving? && me.pc.result.Some? ==> me.pc.result.value == c.log[me.pc.want.sequence - 1])
  }

  /** Sequences accounted for: each delivery and what was missed before it. */
  function Advance(ds: seq<Delivery>): nat {
    if ds == [] then 0 else Advance(ds[..|ds| - 1]) + 1 + ds[|ds| - 1].missed
  }

  /** Every delivery's number is where the accounting stands after it. */
  predicate Accounted(start: nat, ds: seq<Delivery>) {
    ds == [] || (Accounted(start, ds[..|ds| - 1]) && ds[|ds| - 1].sequence == start + Advance(ds))
  }

  ghost predicate HistoryOk(depth: nat, log: seq<seq<byte>>, me: Reader) {
    && me.cursor == me.start + Advance(me.delivered) <= |log|
    && Accounted(me.start, me.delivered)
    && (forall n :: 0 <= n < |me.delivered| ==> Genuine(depth, log, me.delivered[n]))
    && (forall n :: 0 <= n < |me.snapshots| ==> Genuine(depth, log, me.snapshots[n]))
  }

  /** A delivery carries the committed value, and each sequence counted as
      missed in front of it has left the retained window. */
  predicate Genuine(depth: nat, log: seq<seq<byte>>, d: Delivery) {
    && 0 < d.sequence <= |log|
    && d.value == log[d.sequence - 1]
    && GoneBefore(depth, |log|, d.sequence, d.missed)
  }

  /** The `missed` sequences just below s have left the retained window. */
  predicate GoneBefore(depth: nat, published: nat, s: nat, missed: nat) {
    missed < s && (missed > 0 ==> s - 1 < OldestOf(depth, published))
  }

  ghost predicate UsersInv(c: Channel)
    requires Shape(c)
  {
    forall k :: 0 <= k < |c.slots| ==> UsersOk(c, k)
  }

  ghost predicate ContentInv(c: Channel)
    requires Shape(c)
  {
    forall k :: 0 <= k < |c.slots| ==> ContentOk(c, k)
  }

  ghost predicate ReadersInv(c: Channel)
    requires Shape(c)
  {
    forall r :: 0 <= r < |c.readers| ==> ReaderOk(c, c.readers[r])
  }

  ghost predicate Inv(c: Channel) {
    Shape(c) && UsersInv(c) && ContentInv(c) && Present(c) && Distinct(c) && ReadersInv(c)
  }

  // ---------------------------------------------------------------------
  // Every step keeps the invariant
  // ---------------------------------------------------------------------

  lemma {:induction false} ResidueIsModulo(x: nat, d: nat)
    requires d > 0
    ensures Residue(x, d) == x % d
  {
    if x >= d {
      ResidueIsModulo(x - d, d);
      var q, r := (x - d) / d, (x - d) % d;
      assert x == (q + 1) * d + r;
      QuotientUnique(x, d, q + 1, r);
    }
  }

  lemma QuotientUnique(a: nat, d: nat, q: nat, r: nat)
    requires d > 0 && r < d && a == q * d + r
    ensures a / d == q && a % d == r
  {
    var k := q - a / d;
    assert k * d == a % d - r by { assert q * d == (a / d + k) * d == (a / d) * d + k * d; }
    if k >= 1 { AtLeast(k, d); } else if k <= -1 { AtLeast(-k, d); }
  }

  lemma AtLeast(k: int, d: nat)
    requires k >= 1
    ensures k * d >= d
  {
    assert k * d == (k - 1) * d + d;
  }

  lemma {:induction false} ResiduesDiffer(a: nat, b: nat, d: nat)
    requires 0 < d && a < b < a + d
    ensures Residue(a, d) != Residue(b, d)
  {
    if a >= d { ResiduesDiffer(a - d, b - d, d); }
  }

  lemma OtherGroup(depth: nat, a: nat, b: nat)
    requires depth > 0 && 0 < a < b < a + depth
    ensures Base(depth, a) != Base(depth, b)
  {
    ResiduesDiffer(a - 1, b - 1, depth);
  }

  /** In a group only the retained sequence is still within the window. */
  lemma OnlyRetainedInGroup(c: Channel, s: nat, k: nat)
    requires c.depth > 0 && 0 < s && Retains(c, s)
    requires Base(c.depth, s) <= k < Base(c.depth, s) + 3
    requires Base(c.depth, c.published + 1) <= k < Base(c.depth, c.published + 1) + 3
    ensures s == Retained(c)
  {
    assert Base(c.depth, s) == Base(c.depth, c.published + 1);
    if s != Retained(c) { OtherGroup(c.depth, s, c.published + 1); }
  }

  /** What every publisher step but Commit may change: slot t, its program
      counter and the value it is publishing. */
  function Touch(c: Channel, t: nat, s: Slot, pc: PublisherPc, value: seq<byte>): Channel
    requires t < |c.slots|
  {
    c.(slots := c.slots[t := s], pc := pc, value := value)
  }

  /** The publisher holds no slot other than t. */
  predicate OnlyAt(c: Channel, t: nat) {
    c.pc.Idle? || c.pc.Search? || AtTarget(c, t)
  }

  /** The step keeps the slot's sequence, or stamps a slot whose old sequence
      was not retained. */
  predicate StampOk(c: Channel, t: nat, s: Slot, pc: PublisherPc)
    requires t < |c.slots|
  {
    || s.sequence == c.slots[t].sequence
    || (s.sequence == c.published + 1 && (Retained(c) == 0 || c.slots[t].sequence != Retained(c))
        && AtTarget(c, t) && pc.Stamped? && pc.i < 3 && c.pc.i == pc.i)
  }

  lemma PresentKeeps(c: Channel, t: nat, s: Slot, pc: PublisherPc, value: seq<byte>)
    requires t < |c.slots| && Shape(c) && Shape(Touch(c, t, s, pc, value))
    requires Present(c) && ContentOk(c, t) && StampOk(c, t, s, pc)
    requires InFlight(c, t) ==> s.sequence == c.slots[t].sequence
    ensures Present(Touch(c, t, s, pc, value))
  {
    var c' := Touch(c, t, s, pc, value);
    forall x: nat | 0 < x && Retains(c', x) ensures Somewhere(c', x) {
      assert Retains(c, x) && Somewhere(c, x);
      if c.slots[t].sequence == x && s.sequence != x { OnlyRetainedInGroup(c, x, t); }
    }
  }

  lemma ReaderKeeps(c: Channel, t: nat, s: Slot, pc: PublisherPc, value: seq<byte>, me: Reader)
    requires t < |c.slots| && Shape(c) && Shape(Touch(c, t, s, pc, value))
    requires ReaderShape(c.published, me.pc) && ReaderOk(c, me)
    requires !Pins(c.depth, me.pc, t) || s == c.slots[t].(users := s.users)
    ensures ReaderOk(Touch(c, t, s, pc, value), me)
  {
  }

  lemma TouchKeepsUsers(c: Channel, t: nat, s: Slot, pc: PublisherPc, value: seq<byte>)
    requires t < |c.slots| && Shape(c) && UsersInv(c)
    requires var c' := Touch(c, t, s, pc, value); Shape(c') && OnlyAt(c, t) && OnlyAt(c', t) && UsersOk(c', t)
    ensures UsersInv(Touch(c, t, s, pc, value))
  {
    var c' := Touch(c, t, s, pc, value);
    forall k | 0 <= k < |c.slots| ensures UsersOk(c', k) { assert UsersOk(c, k); }
  }

  lemma TouchKeepsContent(c: Channel, t: nat, s: Slot, pc: PublisherPc, value: seq<byte>)
    requires t < |c.slots| && Shape(c) && ContentInv(c)
    requires var c' := Touch(c, t, s, pc, value); Shape(c') && OnlyAt(c, t) && OnlyAt(c', t) && ContentOk(c', t)
    ensures ContentInv(Touch(c, t, s, pc, value))
  {
    var c' := Touch(c, t, s, pc, value);
    forall k | 0 <= k < |c.slots| ensures ContentOk(c', k) { assert ContentOk(c, k); }
  }

  lemma TouchKeepsReaders(c: Channel, t: nat, s: Slot, pc: PublisherPc, value: seq<byte>)
    requires t < |c.slots| && Shape(c) && Shape(Touch(c, t, s, pc, value)) && ReadersInv(c)
    requires Pinners(c.depth, c.readers, t) == {} || s == c.slots[t].(users := s.users)
    ensures ReadersInv(Touch(c, t, s, pc, value))
  {
    var c' := Touch(c, t, s, pc, value);
    forall r | 0 <= r < |c.readers| ensures ReaderOk(c', c'.readers[r]) {
      assert Pins(c.depth, c.readers[r].pc, t) ==> r in Pinners(c.depth, c.readers, t);
      ReaderKeeps(c, t, s, pc, value, c.readers[r]);
    }
  }

  lemma PublisherKeeps(c: Channel, t: nat, s: Slot, pc: PublisherPc, value: seq<byte>)
    requires Inv(c) && t < |c.slots|
    requires var c' := Touch(c, t, s, pc, value);
      Shape(c') && OnlyAt(c, t) && OnlyAt(c', t) && UsersOk(c', t) && ContentOk(c', t)
    requires StampOk(c, t, s, pc) && (InFlight(c, t) ==> s.sequence == c.slots[t].sequence)
    requires Pinners(c.depth, c.readers, t) == {} || s == c.slots[t].(users := s.users)
    ensures Inv(Touch(c, t, s, pc, value))
  {
    TouchKeepsUsers(c, t, s, pc, value);
    TouchKeepsContent(c, t, s, pc, value);
    assert ContentOk(c, t);
    PresentKeeps(c, t, s, pc, value);
    DistinctKeeps(c, t, s, pc, value);
    TouchKeepsReaders(c, t, s, pc, value);
  }

  lemma DistinctKeeps(c: Channel, t: nat, s: Slot, pc: PublisherPc, value: seq<byte>)
    requires t < |c.slots| && Shape(c) && Distinct(c)
    requires s.sequence == c.slots[t].sequence
             || (s.sequence == c.published + 1 && OnlyAt(c, t) && forall k :: 0 <= k < |c.slots| ==> ContentOk(c, k))
    ensures Distinct(Touch(c, t, s, pc, value))
  {
    if s.sequence != c.slots[t].sequence {
      forall k | 0 <= k < |c.slots| && k != t ensures c.slots[k].sequence != s.sequence { assert ContentOk(c, k); }
    }
  }

  lemma IdleStep(c: Channel, p: PublishStep)
    requires Inv(c) && CanPublish(c, p) && (p.BeginPublish? || p.GiveUp?)
    ensures Inv(Publish(c, p))
  {
    var c' := Publish(c, p);
    assert UsersOk(c, 0) && ContentOk(c, 0);
    assert c' == Touch(c, 0, c.slots[0], c'.pc, c'.value);
    PublisherKeeps(c, 0, c.slots[0], c'.pc, c'.value);
  }

  lemma ClaimStep(c: Channel, p: PublishStep)
    requires Inv(c) && CanPublish(c, p) && p.TryClaim?
    ensures Inv(Publish(c, p))
  {
    hide ReaderOk, HistoryOk, Present, Distinct;
    var c', t := Publish(c, p), Target(c);
    assert UsersOk(c, t) && ContentOk(c, t);
    assert c' == Touch(c, t, c'.slots[t], c'.pc, c'.value);
    PublisherKeeps(c, t, c'.slots[t], c'.pc, c'.value);
  }

  lemma LetGoStep(c: Channel, p: PublishStep)
    requires Inv(c) && CanPublish(c, p) && (p.SkipRetained? || p.BroadcastFails? || p.Release?)
    ensures Inv(Publish(c, p))
  {
    hide ReaderOk, HistoryOk, Present, Distinct;
    var c', t := Publish(c, p), Target(c);
    assert UsersOk(c, t) && ContentOk(c, t);
    assert c' == Touch(c, t, c'.slots[t], c'.pc, c'.value);
    PublisherKeeps(c, t, c'.slots[t], c'.pc, c'.value);
  }

  lemma VersionStep(c: Channel, p: PublishStep)
    requires Inv(c) && CanPublish(c, p) && (p.BeginWrite? || p.EndWrite?)
    ensures Inv(Publish(c, p))
  {
    hide ReaderOk, HistoryOk, Present, Distinct;
    var c', t := Publish(c, p), Target(c);
    assert UsersOk(c, t) && ContentOk(c, t);
    assert c' == Touch(c, t, c'.slots[t], c'.pc, c'.value);
    PublisherKeeps(c, t, c'.slots[t], c'.pc, c'.value);
  }

  lemma WriteStep(c: Channel, p: PublishStep)
    requires Inv(c) && CanPublish(c, p) && (p.WriteByte? || p.Stamp?)
    ensures Inv(Publish(c, p))
  {
    hide ReaderOk, HistoryOk, Present, Distinct;
    var c', t := Publish(c, p), Target(c);
    assert UsersOk(c, t) && ContentOk(c, t);
    assert c' == Touch(c, t, c'.slots[t], c'.pc, c'.value);
    PublisherKeeps(c, t, c'.slots[t], c'.pc, c'.value);
  }

  lemma CommitStep(c: Channel)
    requires Inv(c) && CanPublish(c, Commit)
    ensures Inv(Publish(c, Commit))
  {
    CommitKeepsSlots(c);
    CommitKeepsPresent(c);
    var c' := Publish(c, Commit);
    forall r | 0 <= r < |c.readers| ensures ReaderOk(c', c'.readers[r]) {
      CommitKeepsReader(c, c.readers[r]);
    }
  }

  lemma CommitKeepsSlots(c: Channel)
    requires Shape(c) && UsersInv(c) && ContentInv(c) && CanPublish(c, Commit)
    ensures var c' := Publish(c, Commit); Shape(c') && UsersInv(c') && ContentInv(c')
  {
    var c' := Publish(c, Commit);
    forall k | 0 <= k < |c.slots| ensures UsersOk(c', k) { assert UsersOk(c, k); }
    forall k | 0 <= k < |c.slots| ensures ContentOk(c', k) { assert ContentOk(c, k); }
  }

  lemma CommitKeepsPresent(c: Channel)
    requires Shape(c) && ContentInv(c) && Present(c) && CanPublish(c, Commit) && Shape(Publish(c, Commit))
    ensures Present(Publish(c, Commit))
  {
    var c' := Publish(c, Commit);
    forall s: nat | 0 < s && Retains(c', s) ensures Somewhere(c', s) {
      if s == c'.published { assert ContentOk(c, Target(c)); } else { assert Retains(c, s) && Somewhere(c, s); }
    }
  }

  lemma CommitKeepsReader(c: Channel, me: Reader)
    requires Shape(c) && CanPublish(c, Commit) && Shape(Publish(c, Commit))
    requires ReaderShape(c.published, me.pc) && ReaderOk(c, me)
    ensures ReaderOk(Publish(c, Commit), me)
  {
  }

  lemma PublisherStep(c: Channel, p: PublishStep)
    requires Inv(c) && CanPublish(c, p)
    ensures Inv(Publish(c, p))
  {
    match p
    case BeginPublish(_) => IdleStep(c, p);
    case GiveUp => IdleStep(c, p);
    case TryClaim => ClaimStep(c, p);
    case SkipRetained => LetGoStep(c, p);
    case BroadcastFails => LetGoStep(c, p);
    case Release => LetGoStep(c, p);
    case BeginWrite => VersionStep(c, p);
    case EndWrite => VersionStep(c, p);
    case WriteByte => WriteStep(c, p);
    case Stamp => WriteStep(c, p);
    case Commit => CommitStep(c);
  }

  /** What a reader step may change: its own record and the users of slot k. */
  function Tell(c: Channel, r: nat, me: Reader, k: nat, users: nat): Channel
    requires r < |c.readers| && k < |c.slots|
  {
    c.(slots := c.slots[k := c.slots[k].(users := users)], readers := c.readers[r := me])
  }

  lemma PinnersAfter(depth: nat, readers: seq<Reader>, r: nat, me: Reader, k: nat)
    requires depth > 0 && r < |readers|
    ensures Pinners(depth, readers[r := me], k) ==
            if Pins(depth, me.pc, k) then Pinners(depth, readers, k) + {r} else Pinners(depth, readers, k) - {r}
  {
  }

  /** How many readers pin a slot, when one of them may pin or unpin it. */
  lemma PinCount(depth: nat, readers: seq<Reader>, r: nat, me: Reader, k: nat)
    requires depth > 0 && r < |readers|
    ensures var (p, p') := (Pinners(depth, readers, k), Pinners(depth, readers[r := me], k));
      && (Pins(depth, readers[r].pc, k) ==> |p| > 0)
      && |p'| == |p| + (if Pins(depth, me.pc, k) then 1 else 0) - (if Pins(depth, readers[r].pc, k) then 1 else 0)
      && (Pins(depth, readers[r].pc, k) ==> p != {})
  {
    PinnersAfter(depth, readers, r, me, k);
    var p := Pinners(depth, readers, k);
    assert r in p <==> Pins(depth, readers[r].pc, k);
    hide Pinners, Pins;
    if r in p { assert |p| == |p - {r}| + 1; }
  }

  lemma TellKeepsShape(c: Channel, r: nat, me: Reader, k: nat, users: nat)
    requires Shape(c) && r < |c.readers| && k < |c.slots| && ReaderShape(c.published, me.pc)
    ensures Shape(Tell(c, r, me, k, users))
  {
  }

  lemma TellKeepsUsers(c: Channel, r: nat, me: Reader, k: nat, users: nat)
    requires Shape(c) && UsersInv(c) && r < |c.readers| && k < |c.slots|
    requires var c' := Tell(c, r, me, k, users); Shape(c') && UsersOk(c', k)
    requires forall j :: 0 <= j < |c.slots| && j != k ==> Pins(c.depth, me.pc, j) == Pins(c.depth, c.readers[r].pc, j)
    ensures UsersInv(Tell(c, r, me, k, users))
  {
    var c' := Tell(c, r, me, k, users);
    forall j | 0 <= j < |c.slots| ensures UsersOk(c', j) {
      assert UsersOk(c, j);
      if j != k {
        PinnersAfter(c.depth, c.readers, r, me, j);
        assert Pinners(c.depth, c'.readers, j) == Pinners(c.depth, c.readers, j);
      }
    }
  }

  lemma TellKeepsContent(c: Channel, r: nat, me: Reader, k: nat, users: nat)
    requires Shape(c) && ContentInv(c) && Present(c) && r < |c.readers| && k < |c.slots|
        && Shape(Tell(c, r, me, k, users))
    ensures var c' := Tell(c, r, me, k, users); ContentInv(c') && Present(c')
  {
    var c' := Tell(c, r, me, k, users);
    forall j | 0 <= j < |c.slots| ensures ContentOk(c', j) { assert ContentOk(c, j); }
    forall s: nat | 0 < s && Retains(c', s) ensures Somewhere(c', s) { assert Retains(c, s) && Somewhere(c, s); }
  }

  lemma ReaderTells(c: Channel, r: nat, me: Reader, k: nat, users: nat)
    requires Inv(c) && r < |c.readers| && k < |c.slots|
    requires var c' := Tell(c, r, me, k, users); Shape(c') && UsersOk(c', k)
    requires forall j :: 0 <= j < |c.slots| && j != k ==> Pins(c.depth, me.pc, j) == Pins(c.depth, c.readers[r].pc, j)
    requires ReaderShape(c.published, me.pc) && ReaderOk(c, me)
    ensures Inv(Tell(c, r, me, k, users))
  {
    var c' := Tell(c, r, me, k, users);
    TellKeepsUsers(c, r, me, k, users);
    TellKeepsContent(c, r, me, k, users);
    forall q | 0 <= q < |c'.readers| ensures ReaderOk(c', c'.readers[q]) {
      TellKeepsReader(c, r, me, k, users, if q == r then me else c.readers[q]);
    }
  }

  lemma TellKeepsReader(c: Channel, r: nat, me: Reader, k: nat, users: nat, other: Reader)
    requires Shape(c) && r < |c.readers| && k < |c.slots| && Shape(Tell(c, r, me, k, users))
    requires ReaderShape(c.published, other.pc) && ReaderOk(c, other)
    ensures ReaderOk(Tell(c, r, me, k, users), other)
  {
  }

  /** A step that pins and unpins nothing. */
  lemma QuietTell(c: Channel, r: nat, me: Reader)
    requires Inv(c) && r < |c.readers|
    requires ReaderShape(c.published, me.pc) && ReaderOk(c, me)
    requires forall j: nat :: Pins(c.depth, me.pc, j) == Pins(c.depth, c.readers[r].pc, j)
    ensures Inv(c.(readers := c.readers[r := me]))
  {
    var users := c.slots[0].users;
    var c' := Tell(c, r, me, 0, users);
    assert c' == c.(readers := c.readers[r := me]);
    QuietUsers(c, r, me);
    hide ContentOk, UsersOk, Present, Distinct, ReaderOk, HistoryOk;
    ReaderTells(c, r, me, 0, users);
  }

  lemma QuietUsers(c: Channel, r: nat, me: Reader)
    requires Shape(c) && UsersInv(c) && r < |c.readers| && ReaderShape(c.published, me.pc)
    requires Pins(c.depth, me.pc, 0) == Pins(c.depth, c.readers[r].pc, 0)
    ensures var c' := Tell(c, r, me, 0, c.slots[0].users); Shape(c') && UsersOk(c', 0)
  {
    TellKeepsShape(c, r, me, 0, c.slots[0].users);
    assert UsersOk(c, 0);
    PinnersAfter(c.depth, c.readers, r, me, 0);
    assert Pinners(c.depth, c.readers[r := me], 0) == Pinners(c.depth, c.readers, 0);
    hide Shape, Pinners;
  }

  lemma BeginReadStep(c: Channel, r: nat, q: ReadStep)
    requires Inv(c) && CanRead(c, r, q) && (q.BeginNext? || q.BeginLatest? || q.PinFails? || q.ReadFails?)
    ensures Inv(Read(c, r, q))
  {
    var me := Read(c, r, q).readers[r];
    assert ReaderOk(c, c.readers[r]);
    assert ReaderOk(c, me);
    QuietTell(c, r, me);
  }

  /** A pinned slot is neither claimed by the publisher nor in flight under the
      sequence the reader wants. */
  lemma PinnedIsStable(c: Channel, r: nat)
    requires Shape(c) && UsersInv(c) && r < |c.readers|
    requires var pc := c.readers[r].pc; !pc.Resting? && !pc.Trying?
    ensures !Owns(c, ReaderSlot(c.depth, c.readers[r].pc))
  {
    var k := ReaderSlot(c.depth, c.readers[r].pc);
    assert UsersOk(c, k) && r in Pinners(c.depth, c.readers, k);
  }

  lemma PinnedReadStep(c: Channel, r: nat, q: ReadStep)
    requires Inv(c) && CanRead(c, r, q) && (q.LoadVersion? || q.CheckSlot? || q.CopyByte? || q.Recheck?)
    ensures Inv(Read(c, r, q))
  {
    var me := Read(c, r, q).readers[r];
    PinnedReadOk(c, r, q);
    QuietTell(c, r, me);
  }

  lemma PinnedReadOk(c: Channel, r: nat, q: ReadStep)
    requires Shape(c) && UsersInv(c) && ContentInv(c) && CanRead(c, r, q) && ReaderOk(c, c.readers[r])
    requires q.LoadVersion? || q.CheckSlot? || q.CopyByte? || q.Recheck?
    ensures var me := Read(c, r, q).readers[r]; ReaderShape(c.published, me.pc) && ReaderOk(c, me)
  {
    hide HistoryOk, UsersOk, Pinners;
    PinnedIsStable(c, r);
    assert ContentOk(c, ReaderSlot(c.depth, c.readers[r].pc));
    SameHistory(c.depth, c.log, c.readers[r], Read(c, r, q).readers[r]);
  }

  /** Where a reader is has no part in its history. */
  lemma SameHistory(depth: nat, log: seq<seq<byte>>, me: Reader, me': Reader)
    requires me'.start == me.start && me'.cursor == me.cursor
    requires me'.delivered == me.delivered && me'.snapshots == me.snapshots
    ensures HistoryOk(depth, log, me') == HistoryOk(depth, log, me)
  {
  }

  lemma DeliveredOk(depth: nat, log: seq<seq<byte>>, me: Reader, me': Reader, d: Delivery)
    requires HistoryOk(depth, log, me) && Genuine(depth, log, d) && d.sequence == me.cursor + 1 + d.missed <= |log|
    requires me'.start == me.start && me'.cursor == d.sequence
    requires me'.delivered == me.delivered + [d] && me'.snapshots == me.snapshots
    ensures HistoryOk(depth, log, me')
  {
    hide Genuine;
    assert me'.delivered[..|me'.delivered| - 1] == me.delivered;
  }

  lemma SnapshotOk(depth: nat, log: seq<seq<byte>>, me: Reader, me': Reader, d: Delivery)
    requires HistoryOk(depth, log, me) && Genuine(depth, log, d)
    requires me'.start == me.start && me'.cursor == me.cursor
    requires me'.delivered == me.delivered && me'.snapshots == me.snapshots + [d]
    ensures HistoryOk(depth, log, me')
  {
    hide Genuine, Accounted, Advance;
  }

  lemma PinStep(c: Channel, r: nat)
    requires Inv(c) && CanRead(c, r, Pin)
    ensures Inv(Read(c, r, Pin))
  {
    var k := ReaderSlot(c.depth, c.readers[r].pc);
    var me := Read(c, r, Pin).readers[r];
    PinnedNow(c, r);
    PinnedUsers(c, r, me, k);
    hide ContentOk, UsersOk, Present, Distinct, ReaderOk, HistoryOk;
    ReaderTells(c, r, me, k, c.slots[k].users + 1);
  }

  lemma PinnedNow(c: Channel, r: nat)
    requires Shape(c) && CanRead(c, r, Pin) && ReaderOk(c, c.readers[r])
    ensures var me := Read(c, r, Pin).readers[r]; ReaderShape(c.published, me.pc) && ReaderOk(c, me)
  {
    hide HistoryOk;
    SameHistory(c.depth, c.log, c.readers[r], Read(c, r, Pin).readers[r]);
  }

  lemma PinnedUsers(c: Channel, r: nat, me: Reader, k: nat)
    requires Shape(c) && UsersInv(c) && CanRead(c, r, Pin) && k == ReaderSlot(c.depth, c.readers[r].pc)
    requires me == Read(c, r, Pin).readers[r] && ReaderShape(c.published, me.pc)
    ensures var c' := Tell(c, r, me, k, c.slots[k].users + 1); Shape(c') && UsersOk(c', k)
  {
    TellKeepsShape(c, r, me, k, c.slots[k].users + 1);
    PinCount(c.depth, c.readers, r, me, k);
    hide Pinners, Shape, Base;
    assert UsersOk(c, k);
  }

  lemma UnpinnedOk(c: Channel, r: nat)
    requires Shape(c) && CanRead(c, r, Unpin) && ReaderOk(c, c.readers[r])
    ensures var me := Read(c, r, Unpin).readers[r]; ReaderShape(c.published, me.pc) && ReaderOk(c, me)
  {
    hide HistoryOk;
    var me, me' := c.readers[r], Read(c, r, Unpin).readers[r];
    if me.pc.result.None? {
      SameHistory(c.depth, c.log, me, me');
    } else {
      var d := Delivery(me.pc.want.sequence, me.pc.want.missed, me.pc.result.value);
      if me.pc.want.sequential {
        DeliveredOk(c.depth, c.log, me, me', d);
      } else {
        SnapshotOk(c.depth, c.log, me, me', d);
      }
    }
  }

  lemma UnpinStep(c: Channel, r: nat)
    requires Inv(c) && CanRead(c, r, Unpin)
    ensures Inv(Read(c, r, Unpin))
  {
    var k := ReaderSlot(c.depth, c.readers[r].pc);
    var me := Read(c, r, Unpin).readers[r];
    UnpinnedOk(c, r);
    UnpinnedUsers(c, r, me, k);
    hide ContentOk, UsersOk, Present, Distinct, ReaderOk, HistoryOk, Down;
    ReaderTells(c, r, me, k, Down(c.slots[k].users));
  }

  lemma UnpinnedUsers(c: Channel, r: nat, me: Reader, k: nat)
    requires Shape(c) && UsersInv(c) && CanRead(c, r, Unpin) && k == ReaderSlot(c.depth, c.readers[r].pc)
    requires (me.pc.Resting? || me.pc.Trying?) && ReaderShape(c.published, me.pc)
    ensures var c' := Tell(c, r, me, k, Down(c.slots[k].users)); Shape(c') && UsersOk(c', k)
  {
    TellKeepsShape(c, r, me, k, Down(c.slots[k].users));
    PinCount(c.depth, c.readers, r, me, k);
    hide Pinners, Shape, Base;
    assert UsersOk(c, k);
  }

  lemma OpenStep(c: Channel, next: bool)
    requires Inv(c)
    ensures Inv(Act(c, Open(next)))
  {
    var c' := Act(c, Open(next));
    OpenKeepsSlots(c, next);
    hide ContentOk, UsersOk, Present;
    forall q | 0 <= q < |c'.readers| ensures ReaderOk(c', c'.readers[q]) {
      assert q < |c.readers| ==> ReaderOk(c, c.readers[q]);
    }
  }

  lemma OpenKeepsSlots(c: Channel, next: bool)
    requires Inv(c)
    ensures var c' := Act(c, Open(next)); Shape(c') && UsersInv(c') && ContentInv(c') && Present(c')
  {
    hide HistoryOk, ReaderOk;
    var c' := Act(c, Open(next));
    forall k | 0 <= k < |c.slots| ensures UsersOk(c', k) && ContentOk(c', k) {
      assert UsersOk(c, k) && ContentOk(c, k);
      assert Pinners(c.depth, c'.readers, k) == Pinners(c.depth, c.readers, k);
    }
    forall s: nat | 0 < s && Retains(c', s) ensures Somewhere(c', s) { assert Retains(c, s) && Somewhere(c, s); }
  }

  /** Every interleaving: no step of any thread leaves the invariant. */
  lemma StepKeepsInv(c: Channel, a: Action)
    requires Inv(c) && Enabled(c, a)
    ensures Inv(Act(c, a))
  {
    match a
    case Publisher(p) => PublisherStep(c, p);
    case Open(next) => OpenStep(c, next);
    case Reading(r, q) =>
      match q {
        case BeginNext => BeginReadStep(c, r, q);
        case BeginLatest => BeginReadStep(c, r, q);
        case PinFails => BeginReadStep(c, r, q);
        case ReadFails => BeginReadStep(c, r, q);
        case Pin => PinStep(c, r);
        case Unpin => UnpinStep(c, r);
        case LoadVersion => PinnedReadStep(c, r, q);
        case CheckSlot => PinnedReadStep(c, r, q);
        case CopyByte => PinnedReadStep(c, r, q);
        case Recheck => PinnedReadStep(c, r, q);
      }
  }
}
