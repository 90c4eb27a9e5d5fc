/** Topic routes between gateways: which packets a receive route takes, what a send
    route sends and when, and why the counters balance. */
module TopicRoutes {
  import opened Wire

  /** A data packet of one route. The payload is an opaque value. */
  datatype Packet = Packet(sequence: nat, sample: nat, payload: nat)

  // ---------------------------------------------------------------------
  // Receiving
  // ---------------------------------------------------------------------

  datatype Incoming = Incoming(
    route: nat, sequence: nat, sample: nat, latest: Option<Packet>,
    received: nat, missed: nat, duplicate: nat, outOfOrder: nat, malformed: nat, dropped: nat, published: nat)

  function NewIncoming(route: nat): Incoming { Incoming(route, 0, 0, None, 0, 0, 0, 0, 0, 0, 0) }

  /** A packet of this route arrives. `passes` is the outcome of the name, type and
      peer gate, `decodes` of the payload decoder. */
  function Take(r: Incoming, p: Packet, passes: bool, decodes: bool): Incoming {
    if !passes then r.(malformed := r.malformed + 1)
    else if p.sequence == r.sequence then r.(duplicate := r.duplicate + 1)
    else if p.sequence < r.sequence || p.sample <= r.sample then r.(outOfOrder := r.outOfOrder + 1)
    else if !decodes then r.(malformed := r.malformed + 1)
    else r.(missed := r.missed + (p.sequence - r.sequence - 1), sequence := p.sequence, sample := p.sample,
            received := r.received + 1, dropped := if r.latest.Some? then r.dropped + 1
                else r.dropped, latest := Some(p))
  }

  predicate Takes(r: Incoming, p: Packet, passes: bool, decodes: bool) {
    passes && decodes && p.sequence > r.sequence && p.sample > r.sample
  }

  /** The waiting packet goes to the local topic, or is dropped. */
  function Deliver(r: Incoming, ok: bool): Incoming {
    if r.latest.None? then r
    else if ok then r.(published := r.published + 1, latest := None)
    else r.(dropped := r.dropped + 1, latest := None)
  }

  /** Every sequence number up to the last accepted one was received or missed, and
      every received packet was published, dropped, or waits. */
  predicate Balanced(r: Incoming) {
    && r.received + r.missed == r.sequence
    && r.published + r.dropped + (if r.latest.Some? then 1 else 0) == r.received
    && (r.latest.Some? ==> r.latest.value.sequence == r.sequence && r.latest.value.sample == r.sample)
  }

  lemma TakeBalances(r: Incoming, p: Packet, passes: bool, decodes: bool)
    requires Balanced(r)
    ensures Balanced(Take(r, p, passes, decodes))
    ensures Takes(r, p, passes, decodes) ==>
      Take(r, p, passes, decodes).latest == Some(p) && Take(r, p, passes, decodes).sequence == p.sequence
    ensures !Takes(r, p, passes, decodes) ==>
      var r' := Take(r, p, passes, decodes);
      r' == r.(malformed := r'.malformed, duplicate := r'.duplicate, outOfOrder := r'.outOfOrder)
      && r'.malformed + r'.duplicate + r'.outOfOrder == r.malformed + r.duplicate + r.outOfOrder + 1
  {
  }

  lemma DeliverBalances(r: Incoming, ok: bool)
    requires Balanced(r)
    ensures Balanced(Deliver(r, ok)) && Deliver(r, ok).latest.None?
  {
  }

  // ---------------------------------------------------------------------
  // The send schedule
  // ---------------------------------------------------------------------

  /** The period slot of a time, counted from the first deadline. */
  function Slot(first: nat, period: nat, t: nat): nat
    requires period > 0 && t >= first
  {
    (t - first) / period
  }

  ghost predicate OnGrid(first: nat, period: nat, t: nat) { exists n: nat :: t == Deadline(first, period, n) }

  function Deadline(first: nat, period: nat, n: nat): nat { first + n * period }

  /** The deadline that an attempt at `due` serves: missed periods are skipped. */
  function Serves(next: nat, period: nat, due: nat): nat
    requires period > 0 && next <= due
  {
    next + ((due - next) / period) * period
  }

  /** The deadline after an attempt that ended at `end`. */
  function After(deadline: nat, period: nat, end: nat): nat
    requires period > 0 && deadline <= end
  {
    deadline + ((end - deadline) / period + 1) * period
  }

  lemma Division(a: nat, period: nat)
    requires period > 0
    ensures (a / period) * period <= a < (a / period) * period + period
  {
  }

  lemma Multiples(a: nat, b: nat, period: nat)
    ensures a < b ==> (a + 1) * period <= b * period
  {
    if a < b { assert b * period == (a + 1) * period + (b - a - 1) * period; }
  }

  lemma SlotUnique(first: nat, period: nat, n: nat, t: nat)
    requires period > 0 && Deadline(first, period, n) <= t < Deadline(first, period, n) + period
    ensures Slot(first, period, t) == n
  {
    var q := Slot(first, period, t);
    Division(t - first, period);
    Multiples(q, n, period);
    Multiples(n, q, period);
    assert (q + 1) * period == q * period + period && (n + 1) * period == n * period + period;
  }

  /** The served deadline is on the grid, and the attempt falls in its slot. */
  lemma ServedSlot(first: nat, period: nat, n: nat, due: nat)
    requires period > 0 && Deadline(first, period, n) <= due
    ensures var d := Serves(Deadline(first, period, n), period, due);
      d <= due < d + period && d == Deadline(first, period, Slot(first, period, due)) && Slot(first, period, due) >= n
  {
    var next := Deadline(first, period, n);
    var k := (due - next) / period;
    Division(due - next, period);
    assert next + k * period == Deadline(first, period,
        n + k) by { assert (n + k) * period == n * period + k * period; }
    SlotUnique(first, period, n + k, due);
  }

  /** The next deadline is on the grid, strictly after the end of the attempt and at
      most one period later. */
  lemma NextDeadline(first: nat, period: nat, m: nat, end: nat)
    requires period > 0 && Deadline(first, period, m) <= end
    ensures var next := After(Deadline(first, period, m), period, end);
      end < next <= end + period && next == Deadline(first, period, Slot(first, period, end) + 1)
  {
    var d := Deadline(first, period, m);
    var k := (end - d) / period;
    Division(end - d, period);
    assert (m + k) * period == m * period + k * period;
    assert (m + k + 1) * period == (m + k) * period + period;
    assert (k + 1) * period == k * period + period;
    SlotUnique(first, period, m + k, end);
  }

  lemma SlotAscends(first: nat, period: nat, n: nat, t: nat)
    requires period > 0 && t >= Deadline(first, period, n)
    ensures t >= first && Slot(first, period, t) >= n
  {
    ServedSlot(first, period, n, t);
  }

  // ---------------------------------------------------------------------
  // Sending
  // ---------------------------------------------------------------------

  /** Which publisher a route serves, for whom, in which session of the receiver, and
      under which number of that receiver. */
  datatype Key = Key(source: nat, destination: nat, session: nat, route: nat)

  predicate SamePair(a: Key, b: Key) { a.source == b.source && a.destination == b.destination }

  /** `next` is 0 until the first attempt. */
  datatype Outgoing = Outgoing(
    key: Key, topic: nat, active: bool, next: nat, freshStart: bool, baseline: nat,
    sequence: u64, sample: nat, sent: nat, dropped: nat, skipped: nat)

  function NewOutgoing(key: Key, topic: nat, freshStart: bool, baseline: nat): Outgoing {
    Outgoing(key, topic, true, 0, freshStart, baseline, 0, 0, 0, 0, 0)
  }

  /** What one attempt meets: when it starts and ends, the latest local sample if it
      can be read, and whether encoding and sending succeed. */
  datatype Circumstance = Circumstance(due: nat, end: nat, latest: Option<(nat, nat)>, sends: bool)

  predicate Possible(c: Circumstance) { 0 < c.due <= c.end }

  predicate Due(r: Outgoing, c: Circumstance) { r.active && c.due >= r.next }

  /** The sample is one to send. */
  predicate Fresh(r: Outgoing, sample: nat) {
    && (r.freshStart ==> sample > r.baseline) && sample > r.sample && r.sequence < U64_MAX
  }

  function Scheduled(r: Outgoing, c: Circumstance, period: nat): nat
    requires period > 0 && Possible(c) && Due(r, c)
  {
    var start := if r.next == 0 then c.due else r.next;
    var deadline := Serves(start, period, c.due);
    Division(c.due - start, period);
    After(deadline, period, c.end)
  }

  function Attempt(r: Outgoing, c: Circumstance, period: nat): Outgoing
    requires period > 0 && Possible(c)
  {
    if !Due(r, c) then r else
    var s := r.(next := Scheduled(r, c, period));
    if c.latest.None? || !Fresh(r, c.latest.value.0) then s else
    var sample := c.latest.value.0;
    var t := s.(skipped := if r.sample != 0 then r.skipped + (sample - r.sample - 1) else r.skipped,
                sample := sample, sequence := r.sequence + 1);
    if c.sends then t.(sent := r.sent + 1) else t.(dropped := r.dropped + 1)
  }

  /** The packet an attempt puts on the wire, if any. */
  function Emits(r: Outgoing, c: Circumstance): Option<Packet> {
    if Due(r, c) && c.latest.Some? && Fresh(r, c.latest.value.0) && c.sends
    then Some(Packet(r.sequence + 1, c.latest.value.0, c.latest.value.1)) else None
  }

  predicate SendBalanced(r: Outgoing) {
    r.sent + r.dropped == r.sequence && (r.freshStart && r.sample != 0 ==> r.sample > r.baseline)
  }

  lemma AttemptBalances(r: Outgoing, c: Circumstance, period: nat)
    requires period > 0 && Possible(c) && SendBalanced(r)
    ensures var r' := Attempt(r, c, period);
      && SendBalanced(r') && r'.sequence >= r.sequence && r'.sample >= r.sample
      && r'.freshStart == r.freshStart && r'.baseline == r.baseline
      && (r'.sequence > r.sequence ==> r'.sequence == r.sequence + 1 && r'.sample > r.sample)
      && (r'.sequence > r.sequence && r.sample != 0 ==> r'.sample - r.sample == r'.skipped - r.skipped + 1)
      && (r'.sequence == r.sequence ==> r'.sample == r.sample && r'.skipped == r.skipped)
      && r'.sent == r.sent + (if Emits(r, c).Some? then 1 else 0)
      && (Emits(r, c).Some? ==> Emits(r, c).value.sequence == r'.sequence && Emits(r, c).value.sample == r'.sample
                                && r'.sequence > r.sequence && (r.freshStart ==> r'.sample > r.baseline))
  {
  }

  // ---------------------------------------------------------------------
  // Schedules over whole runs
  // ---------------------------------------------------------------------

  /** The schedule of a route whose first attempt was at `first`: the next deadline
      is on the grid, in the slot after the last attempt's end. */
  ghost predicate OnSchedule(r: Outgoing, first: nat, period: nat) {
    r.next > first && OnGrid(first, period, r.next)
  }

  lemma FirstAttempt(r: Outgoing, c: Circumstance, period: nat)
    requires period > 0 && Possible(c) && Due(r, c) && r.next == 0
    ensures var r' := Attempt(r, c, period);
      OnSchedule(r', c.due, period) && c.end < r'.next <= c.end + period
  {
    assert Deadline(c.due, period, 0) == c.due by { assert 0 * period == 0; }
    ServedSlot(c.due, period, 0, c.due);
    var m := Slot(c.due, period, c.due);
    NextDeadline(c.due, period, m, c.end);
  }

  /** Every later attempt keeps the phase, whatever the delays; the next deadline is
      strictly after its end and at most one period later; and it falls in a later
      slot than any attempt before that deadline was set. */
  lemma LaterAttempt(r: Outgoing, c: Circumstance, period: nat, first: nat)
    requires period > 0 && Possible(c) && Due(r, c) && OnSchedule(r, first, period)
    ensures var r' := Attempt(r, c, period);
      && OnSchedule(r', first, period) && c.end < r'.next <= c.end + period
      && c.due >= first && r'.next >= first && Slot(first, period, c.due) >= Slot(first, period, r.next)
      && Slot(first, period, r'.next) > Slot(first, period, c.due)
  {
    var n: nat :| r.next == Deadline(first, period, n);
    ServedSlot(first, period, n, c.due);
    var m := Slot(first, period, c.due);
    NextDeadline(first, period, m, c.end);
    var k := Slot(first, period, c.end);
    var next := Deadline(first, period, k + 1);
    SlotUnique(first, period, n, r.next);
    SlotUnique(first, period, k + 1, next);
    SlotAscends(first, period, m, c.end);
  }

  /** The route before attempt k. */
  function At(r: Outgoing, cs: seq<Circumstance>, period: nat, k: nat): Outgoing
    requires period > 0 && k <= |cs| && forall i :: 0 <= i < |cs| ==> Possible(cs[i])
  {
    if k == 0 then r else Attempt(At(r, cs, period, k - 1), cs[k - 1], period)
  }

  /** After attempt f, the first one of a new route, all deadlines stay in phase and
      every attempt made so far lies in an earlier slot than the next deadline. */
  lemma FirstInPhase(r: Outgoing, c: Circumstance, period: nat)
    requires period > 0 && Possible(c) && Due(r, c) && r.next == 0
    ensures var r' := Attempt(r, c, period);
      OnSchedule(r', c.due, period) && Slot(c.due, period, c.due) < Slot(c.due, period, r'.next)
  {
    FirstAttempt(r, c, period);
    hide Attempt, Due;
    var next := Attempt(r, c, period).next;
    var n: nat :| next == Deadline(c.due, period, n);
    SlotUnique(c.due, period, n, next);
    assert Deadline(c.due, period, 0) == c.due by { assert 0 * period == 0; }
    SlotUnique(c.due, period, 0, c.due);
  }

  lemma StepInPhase(r: Outgoing, c: Circumstance, period: nat, first: nat)
    requires period > 0 && Possible(c) && OnSchedule(r, first, period)
    ensures var r' := Attempt(r, c, period);
      && OnSchedule(r', first, period) && r.next >= first && r'.next >= first
      && Slot(first, period, r.next) <= Slot(first, period, r'.next)
      && (Due(r, c) ==> c.due >= first && Slot(first, period, c.due) < Slot(first, period, r'.next))
  {
    if Due(r, c) { LaterAttempt(r, c, period, first); }
  }

  lemma {:induction false} InPhase(r: Outgoing, cs: seq<Circumstance>, period: nat, f: nat, k: nat)
    requires period > 0 && f < k <= |cs| && forall i :: 0 <= i < |cs| ==> Possible(cs[i])
    requires At(r, cs, period, f).next == 0 && Due(At(r, cs, period, f), cs[f])
    ensures OnSchedule(At(r, cs, period, k), cs[f].due, period)
    ensures forall i :: f <= i < k && Due(At(r, cs, period, i), cs[i]) ==>
      cs[i].due >= cs[f].due && Slot(cs[f].due, period, cs[i].due) < Slot(cs[f].due, period, At(r, cs, period, k).next)
  {
    var first := cs[f].due;
    var before := At(r, cs, period, k - 1);
    if k == f + 1 {
      FirstInPhase(before, cs[f], period);
    } else {
      InPhase(r, cs, period, f, k - 1);
      StepInPhase(before, cs[k - 1], period, first);
      hide Attempt, Due, OnSchedule, Slot;
    }
  }

  /** At most one attempt falls in each period slot, for any delays: no catch-up. */
  lemma OneAttemptPerSlot(r: Outgoing, cs: seq<Circumstance>, period: nat, f: nat, i: nat, j: nat)
    requires period > 0 && f <= i < j < |cs| && forall k :: 0 <= k < |cs| ==> Possible(cs[k])
    requires At(r, cs, period, f).next == 0 && Due(At(r, cs, period, f), cs[f])
    requires Due(At(r, cs, period, i), cs[i]) && Due(At(r, cs, period, j), cs[j])
    ensures cs[i].due >= cs[f].due && cs[j].due >= cs[f].due
    ensures Slot(cs[f].due, period, cs[i].due) < Slot(cs[f].due, period, cs[j].due)
  {
    InPhase(r, cs, period, f, j);
    LaterAttempt(At(r, cs, period, j), cs[j], period, cs[f].due);
  }

  // ---------------------------------------------------------------------
  // End to end
  // ---------------------------------------------------------------------

  /** A send route, the packets it put on the network, and a receive route, with
      what it accepted and what it published locally. */
  datatype Path = Path(sender: Outgoing, sent: seq<Packet>, receiver: Incoming, accepted: seq<Packet>,
      output: seq<Packet>)

  datatype Move =
    | Sends(c: Circumstance)
    | Arrives(k: nat, passes: bool, decodes: bool)   // any packet sent so far, any number of times
    | Delivers(ok: bool)

  predicate Enabled(p: Path, m: Move) {
    match m
    case Sends(c) => Possible(c)
    case Arrives(k, _, _) => k < |p.sent|
    case Delivers(_) => true
  }

  function Act(p: Path, m: Move, period: nat): Path
    requires period > 0 && Enabled(p, m)
  {
    match m
    case Sends(c) =>
      p.(sender := Attempt(p.sender, c, period),
         sent := if Emits(p.sender, c).Some? then p.sent + [Emits(p.sender, c).value] else p.sent)
    case Arrives(k, passes, decodes) =>
      p.(receiver := Take(p.receiver, p.sent[k], passes, decodes),
         accepted := if Takes(p.receiver, p.sent[k], passes, decodes) then p.accepted + [p.sent[k]] else p.accepted)
    case Delivers(ok) =>
      p.(receiver := Deliver(p.receiver, ok),
         output := if p.receiver.latest.Some? && ok then p.output + [p.receiver.latest.value] else p.output)
  }

  /** Ascending in packet and sample number, up to the given ones. */
  predicate Ascends(packets: seq<Packet>, sequence: nat, sample: nat) {
    packets == [] ||
    var last := packets[|packets| - 1];
    0 < last.sequence <= sequence && 0 < last.sample <= sample
        && Ascends(packets[..|packets| - 1], last.sequence - 1, last.sample - 1)
  }

  /** The receive route remembers the last packet that it accepted. */
  predicate LastAccepted(p: Path) {
    if p.accepted == [] then p.receiver.sequence == 0 && p.receiver.sample == 0 else
    var last := p.accepted[|p.accepted| - 1];
    last.sequence == p.receiver.sequence && last.sample == p.receiver.sample
  }

  ghost predicate Inv(p: Path) {
    && SendBalanced(p.sender) && |p.sent| == p.sender.sent && Ascends(p.sent, p.sender.sequence, p.sender.sample)
    && (p.sender.freshStart ==> forall i :: 0 <= i < |p.sent| ==> p.sent[i].sample > p.sender.baseline)
    && Balanced(p.receiver) && Ascends(p.accepted, p.receiver.sequence, p.receiver.sample)
      && |p.accepted| == p.receiver.received && LastAccepted(p)
    && (forall i :: 0 <= i < |p.accepted| ==> p.accepted[i] in p.sent)
    && (p.receiver.latest.Some? ==> p.accepted != [] && p.receiver.latest.value == p.accepted[|p.accepted| - 1])
    && (if p.receiver.latest.Some? then Ascends(p.output, p.receiver.sequence - 1, p.receiver.sample - 1)
        else Ascends(p.output, p.receiver.sequence, p.receiver.sample))
    && |p.output| == p.receiver.published && (forall i :: 0 <= i < |p.output| ==> p.output[i] in p.accepted)
    && (p.receiver.latest.Some? ==> p.receiver.sequence > 0 && p.receiver.sample > 0)
  }

  lemma {:induction false} AscendsFurther(packets: seq<Packet>, sequence: nat, sample: nat, sequence': nat,
      sample': nat)
    requires Ascends(packets, sequence, sample) && sequence <= sequence' && sample <= sample'
    ensures Ascends(packets, sequence', sample')
  {
  }

  lemma OneMore(packets: seq<Packet>, sequence: nat, sample: nat, p: Packet)
    requires Ascends(packets, sequence, sample) && p.sequence > sequence && p.sample > sample
    ensures Ascends(packets + [p], p.sequence, p.sample)
  {
    assert (packets + [p])[..|packets|] == packets;
    AscendsFurther(packets, sequence, sample, p.sequence - 1, p.sample - 1);
  }

  lemma SendsKeeps(p: Path, c: Circumstance, period: nat)
    requires period > 0 && Inv(p) && Possible(c)
    ensures Inv(Act(p, Sends(c), period))
  {
    hide Attempt, Scheduled, Ascends;
    AttemptBalances(p.sender, c, period);
    var s' := Attempt(p.sender, c, period);
    if Emits(p.sender, c).Some? {
      OneMore(p.sent, p.sender.sequence, p.sender.sample, Emits(p.sender, c).value);
    } else {
      AscendsFurther(p.sent, p.sender.sequence, p.sender.sample, s'.sequence, s'.sample);
    }
  }

  lemma ArrivesKeeps(p: Path, k: nat, passes: bool, decodes: bool, period: nat)
    requires period > 0 && Inv(p) && k < |p.sent|
    ensures Inv(Act(p, Arrives(k, passes, decodes), period))
  {
    var x := p.sent[k];
    TakeBalances(p.receiver, x, passes, decodes);
    if Takes(p.receiver, x, passes, decodes) {
      OneMore(p.accepted, p.receiver.sequence, p.receiver.sample, x);
      if p.receiver.latest.Some? {
        AscendsFurther(p.output, p.receiver.sequence - 1, p.receiver.sample - 1, x.sequence - 1, x.sample - 1);
      } else {
        AscendsFurther(p.output, p.receiver.sequence, p.receiver.sample, x.sequence - 1, x.sample - 1);
      }
    }
    hide Ascends;
  }

  lemma DeliversKeeps(p: Path, ok: bool, period: nat)
    requires period > 0 && Inv(p)
    ensures Inv(Act(p, Delivers(ok), period))
  {
    DeliverBalances(p.receiver, ok);
    if p.receiver.latest.Some? {
      var x := p.receiver.latest.value;
      OneMore(p.output, x.sequence - 1, x.sample - 1, x);
      AscendsFurther(p.output, x.sequence - 1, x.sample - 1, x.sequence, x.sample);
    }
    hide Ascends;
  }

  ghost predicate IsRun(run: seq<Path>, moves: seq<Move>, period: nat)
    requires period > 0
  {
    && |run| == |moves| + 1
    && (exists key, topic, anew, baseline ::
          run[0] == Path(NewOutgoing(key, topic, anew, baseline), [], NewIncoming(0), [], []))
    && forall i :: 0 <= i < |moves| ==> Enabled(run[i], moves[i]) && run[i + 1] == Act(run[i], moves[i], period)
  }

  lemma {:induction false} RunKeepsInv(run: seq<Path>, moves: seq<Move>, period: nat, i: nat)
    requires period > 0 && IsRun(run, moves, period) && i < |run|
    ensures Inv(run[i])
  {
    if i > 0 {
      RunKeepsInv(run, moves, period, i - 1);
      assert run[i - 1 + 1] == Act(run[i - 1], moves[i - 1], period);
      match moves[i - 1]
      case Sends(c) => SendsKeeps(run[i - 1], c, period);
      case Arrives(k, passes, decodes) => ArrivesKeeps(run[i - 1], k, passes, decodes, period);
      case Delivers(ok) => DeliversKeeps(run[i - 1], ok, period);
      hide Inv, Act;
    }
  }

  lemma {:induction false} AscendsMeans(packets: seq<Packet>, sequence: nat, sample: nat, i: nat, j: nat)
    requires Ascends(packets, sequence, sample) && i < j < |packets|
    ensures packets[i].sequence < packets[j].sequence && packets[i].sample < packets[j].sample
    decreases |packets|
  {
    var n := |packets| - 1;
    if j < n {
      AscendsMeans(packets[..n], packets[n].sequence - 1, packets[n].sample - 1, i, j);
    } else {
      AtMost(packets[..n], packets[n].sequence - 1, packets[n].sample - 1, i);
    }
  }

  lemma {:induction false} AtMost(packets: seq<Packet>, sequence: nat, sample: nat, i: nat)
    requires Ascends(packets, sequence, sample) && i < |packets|
    ensures packets[i].sequence <= sequence && packets[i].sample <= sample
    decreases |packets|
  {
    var n := |packets| - 1;
    if i < n { AtMost(packets[..n], packets[n].sequence - 1, packets[n].sample - 1, i); }
  }

  /** In every run over a network that loses, repeats and reorders packets: what is
      published locally are packets that were sent, each at most once and in order;
      the counters balance at both ends; and a fresh start sends nothing old. */
  lemma PathIsSound(run: seq<Path>, moves: seq<Move>, period: nat, n: nat)
    requires period > 0 && IsRun(run, moves, period) && n < |run|
    ensures var p := run[n];
      && p.receiver.received + p.receiver.missed == p.receiver.sequence
      && p.receiver.published + p.receiver.dropped + (if p.receiver.latest.Some? then 1 else 0) == p.receiver.received
      && p.sender.sent + p.sender.dropped == p.sender.sequence && |p.sent| == p.sender.sent
      && |p.output| == p.receiver.published && |p.accepted| == p.receiver.received
      && (forall i :: 0 <= i < |p.output| ==> p.output[i] in p.sent)
      && (p.sender.freshStart ==> forall i :: 0 <= i < |p.sent| ==> p.sent[i].sample > p.sender.baseline)
    ensures forall i, j :: 0 <= i < j < |run[n].output| ==>
      run[n].output[i].sequence < run[n].output[j].sequence && run[n].output[i].sample < run[n].output[j].sample
    ensures forall i, j :: 0 <= i < j < |run[n].accepted| ==>
      run[n].accepted[i].sequence < run[n].accepted[j].sequence && run[n].accepted[i].sample < run[n].accepted[j].sample
  {
    RunKeepsInv(run, moves, period, n);
    var p := run[n];
    forall i, j | 0 <= i < j < |p.accepted|
      ensures p.accepted[i].sequence < p.accepted[j].sequence && p.accepted[i].sample < p.accepted[j].sample
    {
      AscendsMeans(p.accepted, p.receiver.sequence, p.receiver.sample, i, j);
    }
    forall i, j | 0 <= i < j < |p.output|
      ensures p.output[i].sequence < p.output[j].sequence && p.output[i].sample < p.output[j].sample
    {
      if p.receiver.latest.Some? {
        AscendsMeans(p.output, p.receiver.sequence - 1, p.receiver.sample - 1, i, j);
      } else {
        AscendsMeans(p.output, p.receiver.sequence, p.receiver.sample, i, j);
      }
    }
    hide Ascends;
    forall i | 0 <= i < |p.output| ensures p.output[i] in p.sent {
      assert p.output[i] in p.accepted;
    }
  }

  // ---------------------------------------------------------------------
  // The worker's passes
  // ---------------------------------------------------------------------

  /** A publisher serves a consumer by one route at a time. */
  ghost predicate OnePerPair(routes: seq<Outgoing>) {
    forall i, j :: 0 <= i < j < |routes| ==> !SamePair(routes[i].key, routes[j].key)
  }

  function FirstKey(routes: seq<Outgoing>, key: Key): (i: nat)
    ensures i <= |routes| && (i < |routes| ==> routes[i].key == key) && forall k :: 0 <= k < i ==> routes[k].key != key
  {
    if routes == [] || routes[0].key == key then 0 else 1 + FirstKey(routes[1..], key)
  }

  function PairAt(routes: seq<Outgoing>, key: Key): (i: nat)
    ensures i <= |routes| && (i < |routes| ==> SamePair(routes[i].key, key))
    ensures forall k :: 0 <= k < i ==> !SamePair(routes[k].key, key)
  {
    if routes == [] || SamePair(routes[0].key, key) then 0 else 1 + PairAt(routes[1..], key)
  }

  lemma PairIs(routes: seq<Outgoing>, key: Key, i: nat)
    requires OnePerPair(routes) && i < |routes| && SamePair(routes[i].key, key)
    ensures PairAt(routes, key) == i
  {
    var k := PairAt(routes, key);
    assert k < i ==> !SamePair(routes[k].key, routes[i].key);
  }

  function Removed(routes: seq<Outgoing>, i: nat): seq<Outgoing>
    requires i < |routes|
  {
    routes[..i] + routes[i + 1..]
  }

  predicate AllBalanced(routes: seq<Outgoing>) { forall i :: 0 <= i < |routes| ==> SendBalanced(routes[i]) }

  /** The routes without the one of this pair. */
  function Others(routes: seq<Outgoing>, key: Key): seq<Outgoing> {
    var i := PairAt(routes, key);
    if i < |routes| then Removed(routes, i) else routes
  }

  lemma OthersAre(routes: seq<Outgoing>, key: Key)
    requires OnePerPair(routes) && AllBalanced(routes)
    ensures OnePerPair(Others(routes, key)) && AllBalanced(Others(routes, key))
    ensures forall k :: 0 <= k < |Others(routes, key)| ==> !SamePair(Others(routes, key)[k].key, key)
  {
    hide SendBalanced;
    var i, less := PairAt(routes, key), Others(routes, key);
    if i < |routes| {
      assert forall k :: 0 <= k < |less| ==> less[k] == routes[if k < i then k else k + 1];
      forall k | 0 <= k < |less| ensures !SamePair(less[k].key, key) {
        assert k >= i ==> !SamePair(routes[i].key, routes[k + 1].key);
      }
    }
  }

  lemma OneMoreRoute(routes: seq<Outgoing>, r: Outgoing)
    requires OnePerPair(routes) && AllBalanced(routes) && SendBalanced(r)
    requires forall k :: 0 <= k < |routes| ==> !SamePair(routes[k].key, r.key)
    ensures OnePerPair(routes + [r]) && AllBalanced(routes + [r])
  {
    hide SendBalanced;
  }

  lemma Activated(routes: seq<Outgoing>, i: nat)
    requires OnePerPair(routes) && AllBalanced(routes) && i < |routes|
    ensures var more := routes[i := routes[i].(active := true)]; OnePerPair(more) && AllBalanced(more)
  {
  }

  /** The route of this pair, if there is one. */
  function Displaced(routes: seq<Outgoing>, key: Key): seq<Outgoing> {
    var i := PairAt(routes, key);
    if i < |routes| then [routes[i]] else []
  }

  datatype Judgement = Known(i: nat) | Late | Anew

  function Judge(routes: seq<Outgoing>, key: Key, bound: bool): (j: Judgement)
    ensures j.Known? ==> j.i < |routes|
  {
    var same, pair := FirstKey(routes, key), PairAt(routes, key);
    if same < |routes| then Known(same)
    else if pair < |routes| && routes[pair].key.session == key.session && (bound || routes[pair].key.route >= key.route)
    then Late
    else Anew
  }

  /** An interest that passed its checks: whether it comes from another port than the
      known route's (`moved`), whether it is from a receive-only peer (`bound`), whether
      there is room for one more route once a replaced one is gone, and the new route if
      its reader opens. */
  datatype Ask = Ask(key: Key, moved: bool, bound: bool, room: bool, created: Option<Outgoing>)

  predicate ProperAsk(a: Ask) { a.created.Some? ==> a.created.value.key == a.key && SendBalanced(a.created.value) }

  /** The send routes after an interest. */
  function Asked(routes: seq<Outgoing>, a: Ask): seq<Outgoing> {
    match Judge(routes, a.key, a.bound)
    case Known(i) => if a.moved then routes else routes[i := routes[i].(active := true)]
    case Late => routes
    case Anew => Others(routes, a.key) + if a.room && a.created.Some? then [a.created.value] else []
  }

  function TotalSequence(routes: seq<Outgoing>): nat {
    if routes == [] then 0 else TotalSequence(routes[..|routes| - 1]) + routes[|routes| - 1].sequence
  }

  lemma {:induction false} TotalOfBoth(a: seq<Outgoing>, b: seq<Outgoing>)
    ensures TotalSequence(a + b) == TotalSequence(a) + TotalSequence(b)
  {
    if b == [] {
      assert a + b == a;
    } else {
      TotalOfBoth(a, b[..|b| - 1]);
      assert (a + b)[..|a + b| - 1] == a + b[..|b| - 1];
    }
  }

  /** Replacing a route moves its counts to the archive and loses none. */
  lemma ReplacementConserves(routes: seq<Outgoing>, archived: seq<Outgoing>, key: Key)
    ensures TotalSequence(Others(routes, key)) + TotalSequence(archived + Displaced(routes, key))
         == TotalSequence(routes) + TotalSequence(archived)
  {
    var i := PairAt(routes, key);
    if i < |routes| { RemovalConserves(routes, archived, i); } else { assert archived + [] == archived; }
  }

  lemma RemovalConserves(routes: seq<Outgoing>, archived: seq<Outgoing>, i: nat)
    requires i < |routes|
    ensures TotalSequence(Removed(routes, i)) + TotalSequence(archived + [routes[i]])
         == TotalSequence(routes) + TotalSequence(archived)
  {
    assert routes == routes[..i] + ([routes[i]] + routes[i + 1..]);
    TotalOfBoth(routes[..i], [routes[i]] + routes[i + 1..]);
    TotalOfBoth([routes[i]], routes[i + 1..]);
    TotalOfBoth(routes[..i], routes[i + 1..]);
    TotalOfBoth(archived, [routes[i]]);
  }

  class DataPlane {
    var incoming: seq<Incoming>
    var outgoing: seq<Outgoing>
    var archived: seq<Outgoing>
    var stale: nat
    var refused: nat

    ghost predicate Valid()
      reads this
    {
      && (forall i :: 0 <= i < |incoming| ==> Balanced(incoming[i]))
      && AllBalanced(outgoing) && AllBalanced(archived) && OnePerPair(outgoing)
    }

    constructor ()
      ensures Valid() && incoming == [] && outgoing == [] && archived == []
    {
      incoming, outgoing, archived, stale, refused := [], [], [], 0, 0;
    }

    /** A data packet goes to the first route it belongs to. */
    method Data(route: nat, p: Packet, passes: bool, decodes: bool)
      requires Valid()
      modifies this
      ensures Valid() && outgoing == old(outgoing) && |incoming| == |old(incoming)|
      ensures (exists i :: 0 <= i < |incoming| && old(incoming)[i].route == route
                 && (forall k :: 0 <= k < i ==> old(incoming)[k].route != route)
                 && incoming == old(incoming)[i := Take(old(incoming)[i], p, passes, decodes)])
              || (incoming == old(incoming) && stale == old(stale) + 1 && forall k :: 0 <= k < |incoming| ==>
                incoming[k].route != route)
    {
      for i := 0 to |incoming|
        invariant incoming == old(incoming) && outgoing == old(outgoing) && stale == old(stale)
        invariant forall k :: 0 <= k < i ==> incoming[k].route != route
      {
        if incoming[i].route == route {
          TakeBalances(incoming[i], p, passes, decodes);
          incoming := incoming[i := Take(incoming[i], p, passes, decodes)];
          return;
        }
      }
      stale := stale + 1;
    }

    /** All waiting packets are handed over. */
    method DeliverAll(ok: nat -> bool)
      requires Valid()
      modifies this`incoming
      ensures Valid() && |incoming| == |old(incoming)|
      ensures forall i :: 0 <= i < |incoming| ==>
          incoming[i] == Deliver(old(incoming)[i], ok(i)) && incoming[i].latest.None?
    {
      for i := 0 to |incoming|
        invariant |incoming| == |old(incoming)| && Valid()
        invariant forall k :: 0 <= k < i ==> incoming[k] == Deliver(old(incoming)[k], ok(k)) && incoming[k].latest.None?
        invariant forall k :: i <= k < |incoming| ==> incoming[k] == old(incoming)[k]
      {
        DeliverBalances(incoming[i], ok(i));
        incoming := incoming[i := Deliver(incoming[i], ok(i))];
      }
    }

    /** One pass over the send routes. Each topic has its own period. */
    method Transmit(meets: nat -> Circumstance, period: nat -> nat)
      requires Valid() && (forall i: nat :: Possible(meets(i))) && forall topic: nat :: period(topic) > 0
      modifies this`outgoing
      ensures Valid() && |outgoing| == |old(outgoing)|
      ensures forall i :: 0 <= i < |outgoing| ==>
        outgoing[i] == Attempt(old(outgoing)[i], meets(i), period(old(outgoing)[i].topic))
    {
      for i := 0 to |outgoing|
        invariant |outgoing| == |old(outgoing)| && Valid()
        invariant forall k :: 0 <= k < i ==>
          outgoing[k] == Attempt(old(outgoing)[k], meets(k), period(old(outgoing)[k].topic))
        invariant forall k :: i <= k < |outgoing| ==> outgoing[k] == old(outgoing)[k]
      {
        var r := outgoing[i];
        AttemptBalances(r, meets(i), period(r.topic));
        outgoing := outgoing[i := Attempt(r, meets(i), period(r.topic))];
      }
    }

    /** A known interest keeps its route, if it comes from the same port. One for a
        served pair replaces the route, unless it is older in the same session, or from
        a receive-only peer. `created` is the new route, if its reader opens. */
    method Interest(key: Key, moved: bool, bound: bool, most: nat, created: Option<Outgoing>)
      requires Valid() && (created.Some? ==> created.value.key == key && SendBalanced(created.value))
      modifies this`outgoing, this`archived, this`stale, this`refused
      ensures Valid()
      ensures var room := |incoming| + |Others(old(outgoing), key)| < most;
        outgoing == Asked(old(outgoing), Ask(key, moved, bound, room, created))
      ensures match Judge(old(outgoing), key, bound)
        case Known(_) => archived == old(archived) && stale == old(stale) + if moved then 1 else 0
        case Late => archived == old(archived) && stale == old(stale) + 1
        case Anew => archived == old(archived) + Displaced(old(outgoing), key)
    {
      var i := FindKey(key);
      if i < |outgoing| {
        if moved {
          stale := stale + 1;
          return;
        }
        Activated(outgoing, i);
        hide OnePerPair, AllBalanced;
        outgoing := outgoing[i := outgoing[i].(active := true)];
        return;
      }
      i := FindPair(key);
      if i < |outgoing| && outgoing[i].key.session == key.session && (bound || outgoing[i].key.route >= key.route) {
        stale := stale + 1;
        return;
      }
      hide OnePerPair, AllBalanced, Others, Displaced;
      Replace(i, key, most, created);
    }

    method Replace(i: nat, key: Key, most: nat, created: Option<Outgoing>)
      requires Valid() && i == PairAt(outgoing, key)
      requires created.Some? ==> created.value.key == key && SendBalanced(created.value)
      modifies this`outgoing, this`archived, this`refused
      ensures Valid() && archived == old(archived) + Displaced(old(outgoing), key)
      ensures outgoing == Others(old(outgoing), key)
         + (if |incoming| + |Others(old(outgoing), key)| < most && created.Some? then [created.value] else [])
    {
      OthersAre(outgoing, key);
      if i < |outgoing| {
        archived := archived + [outgoing[i]];
        outgoing := Removed(outgoing, i);
      }
      if |incoming| + |outgoing| >= most {
        refused := refused + 1;
        return;
      }
      if created.Some? {
        OneMoreRoute(outgoing, created.value);
        outgoing := outgoing + [created.value];
      }
    }

    method FindKey(key: Key) returns (i: nat)
      ensures i == FirstKey(outgoing, key)
    {
      i := 0;
      while i < |outgoing| && outgoing[i].key != key
        invariant i <= |outgoing| && FirstKey(outgoing, key) == i + FirstKey(outgoing[i..], key)
      {
        assert outgoing[i..][1..] == outgoing[i + 1..];
        i := i + 1;
      }
      if i < |outgoing| { assert outgoing[i..][0] == outgoing[i]; }
    }

    /** The reverse loop over the routes of a pair; there is at most one. */
    method FindPair(key: Key) returns (i: nat)
      requires OnePerPair(outgoing)
      ensures i == PairAt(outgoing, key)
    {
      var n := |outgoing|;
      while n > 0
        invariant 0 <= n <= |outgoing| && forall k :: n <= k < |outgoing| ==> !SamePair(outgoing[k].key, key)
      {
        n := n - 1;
        if SamePair(outgoing[n].key, key) {
          PairIs(outgoing, key, n);
          return n;
        }
      }
      return |outgoing|;
    }
  }
}
