/** Outgoing requests: a submission selects endpoints, each gets its own request,
    and the caller's future completes when the last of them is answered. */
module RequestBatches {
  import opened Wire

  const MAX_PENDING := 256
  const MAX_SUBMISSIONS := 64

  type BatchId = nat
  type HostId = nat

  /** The answer of one selected endpoint. */
  datatype Slot = Waiting | Answered(error: Option<Errno>)

  /** An endpoint, `key` among those of its host. */
  datatype Target = Target(host: HostId, key: nat)

  /** One slot per endpoint in `targets`. `promised` counts how often the caller's
      future was completed. */
  datatype Batch = Batch(
    isGoal: bool, left: nat, targets: seq<Target>, slots: seq<Slot>, promised: nat, error: Option<Errno>)

  /** `goal` is 0 unless the request starts a goal. */
  datatype Pending = Pending(
    batch: BatchId, index: nat, id: u64, goal: u64, target: Target, sent: bool, connection: nat)

  /** A request handed to a connection. */
  datatype Sent = Sent(host: HostId, id: u64, goal: u64)

  /** `queue` holds the submissions taken over by the pass that is admitting them.
      `wire` is everything ever sent, `selected` what was selected for each batch
      that came to admission, and `ended` says that the IO thread is gone. */
  datatype State = State(
    batches: map<BatchId, Batch>, submissions: seq<BatchId>, queue: seq<BatchId>, pending: seq<Pending>,
    nextRequest: u64, nextGoal: u64, running: bool, ended: bool,
    wire: seq<Sent>, selected: map<BatchId, seq<Target>>)

  const EMPTY_STATE := State(map[], [], [], [], 0, 0, true, false, [], map[])

  // ---------------------------------------------------------------------
  // Counting
  // ---------------------------------------------------------------------

  function CountOf(pending: seq<Pending>, b: BatchId): nat {
    if pending == [] then 0
    else CountOf(pending[..|pending| - 1], b) + if pending[|pending| - 1].batch == b then 1 else 0
  }

  function WaitingIn(slots: seq<Slot>): nat {
    if slots == [] then 0 else WaitingIn(slots[..|slots| - 1]) + if slots[|slots| - 1].Waiting? then 1 else 0
  }

  function Without(pending: seq<Pending>, i: nat): seq<Pending>
    requires i < |pending|
  {
    pending[..i] + pending[i + 1..]
  }

  lemma {:induction false} CountWithout(pending: seq<Pending>, i: nat, b: BatchId)
    requires i < |pending|
    ensures CountOf(Without(pending, i), b) == CountOf(pending, b) - if pending[i].batch == b then 1 else 0
    ensures CountOf(pending, b) >= if pending[i].batch == b then 1 else 0
  {
    var n := |pending| - 1;
    if i < n {
      CountWithout(pending[..n], i, b);
      assert Without(pending, i)[..n - 1] == Without(pending[..n], i);
      assert Without(pending, i)[n - 1] == pending[n];
    } else {
      assert Without(pending, i) == pending[..n];
    }
  }

  lemma {:induction false} WaitingAfter(slots: seq<Slot>, i: nat, s: Slot)
    requires i < |slots| && slots[i].Waiting? && s.Answered?
    ensures WaitingIn(slots[i := s]) == WaitingIn(slots) - 1
  {
    var n := |slots| - 1;
    if i < n {
      WaitingAfter(slots[..n], i, s);
      assert slots[i := s][..n] == slots[..n][i := s];
    } else {
      assert slots[i := s][..n] == slots[..n];
    }
  }

  lemma {:induction false} NoneWaiting(slots: seq<Slot>, i: nat)
    requires WaitingIn(slots) == 0 && i < |slots|
    ensures slots[i].Answered?
  {
    if i < |slots| - 1 { NoneWaiting(slots[..|slots| - 1], i); }
  }

  // ---------------------------------------------------------------------
  // What always holds
  // ---------------------------------------------------------------------

  ghost predicate Distinct(s: seq<BatchId>) { forall i, j :: 0 <= i < j < |s| ==> s[i] != s[j] }

  /** Not yet admitted: nothing selected, nothing promised. */
  predicate Untouched(b: Batch) {
    b.left == 0 && b.targets == [] && b.slots == [] && b.promised == 0 && b.error.None?
  }

  /** Admitted or refused: one slot per endpoint, `left` counts the pending requests
      and the open slots, and the future is completed exactly when none is left. */
  predicate Counted(b: Batch, count: nat) {
    && |b.slots| == |b.targets| && (b.error.Some? ==> b.targets == [])
    && b.left == count == WaitingIn(b.slots) && b.promised == if count == 0 then 1 else 0
  }

  predicate QueuedAre(batches: map<BatchId, Batch>, queued: seq<BatchId>) {
    forall b :: b in queued ==> b in batches
  }

  ghost predicate BatchesAre(batches: map<BatchId, Batch>, queued: seq<BatchId>, pending: seq<Pending>) {
    forall b :: b in batches ==>
      if b in queued then Untouched(batches[b]) && CountOf(pending, b) == 0
      else Counted(batches[b], CountOf(pending, b))
  }

  /** A batch that was not refused has exactly the endpoints selected for it. */
  ghost predicate SelectedAre(batches: map<BatchId, Batch>, queued: seq<BatchId>, selected: map<BatchId, seq<Target>>) {
    && (forall b :: b in selected ==> b in batches && b !in queued)
    && (forall b :: b in batches && b !in queued && batches[b].error.None? ==>
          b in selected && batches[b].targets == selected[b])
  }

  predicate SlotOf(batches: map<BatchId, Batch>, p: Pending) {
    && p.batch in batches
    && var b := batches[p.batch];
    && p.index < |b.slots| == |b.targets| && b.slots[p.index].Waiting? && b.targets[p.index] == p.target
    && (p.goal != 0 <==> b.isGoal)
  }

  ghost predicate PendingAre(batches: map<BatchId, Batch>, pending: seq<Pending>) {
    && |pending| <= MAX_PENDING
    && (forall i :: 0 <= i < |pending| ==> SlotOf(batches, pending[i]))
    && (forall i, j :: 0 <= i < j < |pending| ==>
          pending[i].batch != pending[j].batch || pending[i].index != pending[j].index)
  }

  ghost predicate BatchesOk(s: State) { BatchesAre(s.batches, s.submissions + s.queue, s.pending) }

  ghost predicate SelectedOk(s: State) { SelectedAre(s.batches, s.submissions + s.queue, s.selected) }

  ghost predicate PendingOk(s: State) { PendingAre(s.batches, s.pending) }

  /** Request ids ascend in the table, and so do the goals among them. */
  ghost predicate NumbersOk(pending: seq<Pending>, nextRequest: nat, nextGoal: nat) {
    && (forall i :: 0 <= i < |pending| ==> 0 < pending[i].id <= nextRequest && pending[i].goal <= nextGoal)
    && (forall i, j :: 0 <= i < j < |pending| ==> pending[i].id < pending[j].id)
    && (forall i, j :: 0 <= i < j < |pending| && pending[i].goal != 0 && pending[j].goal != 0 ==>
          pending[i].goal < pending[j].goal)
  }

  /** Request p may follow what was sent to its host. */
  predicate Follows(e: Sent, id: nat, goal: nat) { e.id < id && (goal == 0 || e.goal < goal) }

  predicate ToSend(p: Pending, h: HostId) { !p.sent && p.target.host == h }

  /** To each host ids and goals ascend, and what is still to be sent is larger. */
  ghost predicate WireOk(wire: seq<Sent>, pending: seq<Pending>, nextRequest: nat, nextGoal: nat) {
    && (forall i :: 0 <= i < |wire| ==> wire[i].id <= nextRequest && wire[i].goal <= nextGoal)
    && (forall i, j :: 0 <= i < j < |wire| && wire[i].host == wire[j].host ==>
      Follows(wire[i], wire[j].id, wire[j].goal))
    && (forall i, k :: 0 <= i < |wire| && 0 <= k < |pending| && ToSend(pending[k], wire[i].host) ==>
          Follows(wire[i], pending[k].id, pending[k].goal))
  }

  ghost predicate Inv(s: State) {
    && QueuedAre(s.batches, s.submissions + s.queue) && Distinct(s.submissions + s.queue)
    && BatchesOk(s) && SelectedOk(s) && PendingOk(s) && NumbersOk(s.pending, s.nextRequest, s.nextGoal)
    && WireOk(s.wire, s.pending, s.nextRequest, s.nextGoal)
    && (s.ended ==> Idle(s))
  }

  predicate Idle(s: State) { !s.running && s.pending == [] && s.submissions == [] && s.queue == [] }

  // ---------------------------------------------------------------------
  // One request ends
  // ---------------------------------------------------------------------

  function Answer(b: Batch, index: nat, error: Option<Errno>): Batch
    requires b.left > 0 && index < |b.slots|
  {
    b.(slots := b.slots[index := Answered(error)], left := b.left - 1,
       promised := if b.left == 1 then b.promised + 1 else b.promised)
  }

  lemma AnswerIsThere(b: Batch, index: nat, error: Option<Errno>)
    requires b.left > 0 && index < |b.slots|
    ensures Answer(b, index, error).slots == b.slots[index := Answered(error)]
  {
  }

  /** A pending request belongs to a batch that still counts it. */
  lemma StillCounted(s: State, i: nat)
    requires Inv(s) && i < |s.pending|
    ensures var p := s.pending[i];
        SlotOf(s.batches, p) && s.batches[p.batch].left > 0 && p.batch !in s.submissions + s.queue
  {
    CountWithout(s.pending, i, s.pending[i].batch);
  }

  function Finish(s: State, i: nat, error: Option<Errno>): State
    requires i < |s.pending| && SlotOf(s.batches, s.pending[i]) && s.batches[s.pending[i].batch].left > 0
  {
    var p := s.pending[i];
    s.(pending := Without(s.pending, i), batches := s.batches[p.batch := Answer(s.batches[p.batch], p.index, error)])
  }

  lemma FinishKeepsBatches(s: State, i: nat, error: Option<Errno>)
    requires Inv(s) && i < |s.pending| && SlotOf(s.batches, s.pending[i]) && s.batches[s.pending[i].batch].left > 0
    ensures BatchesOk(Finish(s, i, error))
  {
    var p, s' := s.pending[i], Finish(s, i, error);
    StillCounted(s, i);
    forall b | b in s'.batches
      ensures if b in s'.submissions + s'.queue then Untouched(s'.batches[b]) && CountOf(s'.pending, b) == 0
              else Counted(s'.batches[b], CountOf(s'.pending, b))
    {
      CountWithout(s.pending, i, b);
      if b == p.batch { WaitingAfter(s.batches[b].slots, p.index, Answered(error)); }
    }
  }

  lemma WithoutIs(pending: seq<Pending>, i: nat)
    requires i < |pending|
    ensures var w := Without(pending, i);
      |w| == |pending| - 1 && forall k :: 0 <= k < |w| ==> w[k] == pending[if k < i then k else k + 1]
  {
  }

  /** Finishing one request leaves the slot of every other open. */
  lemma OthersWait(s: State, i: nat, error: Option<Errno>, q: Pending)
    requires i < |s.pending| && SlotOf(s.batches, s.pending[i]) && s.batches[s.pending[i].batch].left > 0
    requires SlotOf(s.batches, q) && (q.batch != s.pending[i].batch || q.index != s.pending[i].index)
    ensures SlotOf(Finish(s, i, error).batches, q)
  {
  }

  lemma FinishKeepsPending(s: State, i: nat, error: Option<Errno>)
    requires PendingOk(s) && i < |s.pending| && SlotOf(s.batches, s.pending[i])
        && s.batches[s.pending[i].batch].left > 0
    ensures PendingOk(Finish(s, i, error))
  {
    var s' := Finish(s, i, error);
    WithoutIs(s.pending, i);
    forall k | 0 <= k < |s'.pending| ensures SlotOf(s'.batches, s'.pending[k]) {
      OthersWait(s, i, error, s.pending[if k < i then k else k + 1]);
    }
    hide SlotOf, Without;
  }

  lemma FinishKeeps(s: State, i: nat, error: Option<Errno>)
    requires Inv(s) && i < |s.pending| && SlotOf(s.batches, s.pending[i]) && s.batches[s.pending[i].batch].left > 0
    ensures Inv(Finish(s, i, error))
  {
    FinishKeepsBatches(s, i, error);
    FinishKeepsPending(s, i, error);
    FinishKeepsNumbers(s, i);
    FinishKeepsSelected(s, i, error);
    hide BatchesAre, SelectedAre, PendingAre, NumbersOk, WireOk, Distinct, Without;
  }

  lemma FinishKeepsSelected(s: State, i: nat, error: Option<Errno>)
    requires Inv(s) && i < |s.pending| && SlotOf(s.batches, s.pending[i]) && s.batches[s.pending[i].batch].left > 0
    ensures SelectedOk(Finish(s, i, error))
    ensures QueuedAre(Finish(s, i, error).batches, s.submissions + s.queue)
  {
    StillCounted(s, i);
    hide BatchesAre, PendingAre, NumbersOk, WireOk, Distinct, Without, Answer;
    AnswerKeeps(s.batches[s.pending[i].batch], s.pending[i].index, error);
  }

  lemma AnswerKeeps(b: Batch, index: nat, error: Option<Errno>)
    requires b.left > 0 && index < |b.slots|
    ensures Answer(b, index, error).targets == b.targets && Answer(b, index, error).error == b.error
    ensures Answer(b, index, error).isGoal == b.isGoal
  {
  }

  lemma FinishKeepsNumbers(s: State, i: nat)
    requires Inv(s) && i < |s.pending|
    ensures NumbersOk(Without(s.pending, i), s.nextRequest, s.nextGoal)
    ensures WireOk(s.wire, Without(s.pending, i), s.nextRequest, s.nextGoal)
  {
    WithoutIs(s.pending, i);
    hide BatchesAre, SelectedAre, PendingAre, Without, Distinct, Follows;
  }

  // ---------------------------------------------------------------------
  // Admission
  // ---------------------------------------------------------------------

  /** The future is completed with an error and no results. */
  function Refused(b: Batch, error: Errno): Batch { b.(error := Some(error), promised := b.promised + 1) }

  function Reject(s: State, b: BatchId, error: Errno): State
    requires b in s.batches
  {
    s.(batches := s.batches[b := Refused(s.batches[b], error)])
  }

  /** Consecutive numbers after `next`, or none. */
  function GoalAfter(isGoal: bool, next: nat, k: nat): nat { if isGoal then next + k + 1 else 0 }

  /** The requests for the first n selected endpoints. */
  function Requests(b: BatchId, targets: seq<Target>, next: nat, isGoal: bool, nextGoal: nat, n: nat): (r: seq<Pending>)
    requires n <= |targets| && next + |targets| <= U64_MAX && (isGoal ==> nextGoal + |targets| <= U64_MAX)
    ensures |r| == n
    ensures forall k :: 0 <= k < n ==>
        r[k] == Pending(b, k, next + k + 1, GoalAfter(isGoal, nextGoal, k), targets[k], false, 0)
  {
    if n == 0 then [] else
    Requests(b, targets, next, isGoal, nextGoal, n - 1)
    + [Pending(b, n - 1, next + n, GoalAfter(isGoal, nextGoal, n - 1), targets[n - 1], false, 0)]
  }

  function Opened(b: Batch, targets: seq<Target>): Batch {
    b.(left := |targets|, targets := targets, slots := seq(|targets|, _ => Waiting))
  }

  function Open(s: State, b: BatchId, targets: seq<Target>): State
    requires b in s.batches && !Overflows(s, b, |targets|)
  {
    var n, g := |targets|, s.batches[b].isGoal;
    s.(batches := s.batches[b := Opened(s.batches[b], targets)],
        pending := s.pending + Requests(b, targets, s.nextRequest, g, s.nextGoal, n),
       nextRequest := s.nextRequest + n, nextGoal := if g then s.nextGoal + n else s.nextGoal)
  }

  predicate Overflows(s: State, b: BatchId, n: nat)
    requires b in s.batches
  {
    s.nextRequest + n > U64_MAX || (s.batches[b].isGoal && s.nextGoal + n > U64_MAX)
  }

  predicate TooMany(s: State, b: BatchId, n: nat, outgoing: nat)
    requires b in s.batches
  {
    n + |s.pending| > MAX_PENDING || (s.batches[b].isGoal && n + |s.pending| + outgoing > MAX_PENDING)
  }

  /** The head of the queue leaves it. */
  function TakeHead(s: State, targets: seq<Target>): State
    requires s.queue != []
  {
    s.(queue := s.queue[1..], selected := s.selected[s.queue[0] := targets])
  }

  /** Why a batch cannot be admitted. */
  function Objection(s: State, b: BatchId, n: nat, none: Errno, outgoing: nat): Option<Errno>
    requires b in s.batches
  {
    if n == 0 then Some(none)
    else if Overflows(s, b, n) then Some(EOVERFLOW)
    else if TooMany(s, b, n, outgoing) then Some(EAGAIN)
    else None
  }

  /** The batch at the head of the queue, once its endpoints are selected. */
  function AdmitHead(s: State, targets: seq<Target>, none: Errno, outgoing: nat): State
    requires s.queue != [] && s.queue[0] in s.batches
  {
    match Objection(s, s.queue[0], |targets|, none, outgoing)
    case Some(error) => Reject(TakeHead(s, targets), s.queue[0], error)
    case None => Open(TakeHead(s, targets), s.queue[0], targets)
  }

  lemma {:induction false} CountOfNew(pending: seq<Pending>, more: seq<Pending>, b: BatchId, x: BatchId)
    requires forall k :: 0 <= k < |more| ==> more[k].batch == b
    ensures CountOf(pending + more, x) == CountOf(pending, x) + if x == b then |more| else 0
  {
    if more == [] {
      assert pending + more == pending;
    } else {
      var n := |more| - 1;
      CountOfNew(pending, more[..n], b, x);
      assert (pending + more)[..|pending + more| - 1] == pending + more[..n];
    }
  }

  lemma {:induction false} AllWaiting(n: nat)
    ensures WaitingIn(seq(n, _ => Waiting)) == n
  {
    if n > 0 {
      AllWaiting(n - 1);
      assert seq(n, _ => Waiting)[..n - 1] == seq(n - 1, _ => Waiting);
    }
  }

  lemma HeadLeaves(s: State, x: BatchId)
    requires s.queue != [] && Distinct(s.submissions + s.queue)
    ensures x in s.submissions + s.queue[1..] <==> x in s.submissions + s.queue && x != s.queue[0]
    ensures Distinct(s.submissions + s.queue[1..])
  {
    var all, less, k := s.submissions + s.queue, s.submissions + s.queue[1..], |s.submissions|;
    assert all[k] == s.queue[0];
    assert forall i :: 0 <= i < |less| ==> less[i] == all[if i < k then i else i + 1];
    assert forall i :: 0 <= i < |all| && i != k ==> all[i] == less[if i < k then i else i - 1];
  }

  lemma QueueShrinks(s: State)
    requires s.queue != [] && Distinct(s.submissions + s.queue)
    ensures s.queue[0] in s.submissions + s.queue && Distinct(s.submissions + s.queue[1..])
    ensures forall x :: x in s.submissions + s.queue[1..] <==> x in s.submissions + s.queue && x != s.queue[0]
  {
    forall x ensures x in s.submissions + s.queue[1..] <==> x in s.submissions + s.queue && x != s.queue[0] {
      HeadLeaves(s, x);
    }
    HeadLeaves(s, s.queue[0]);
    assert (s.submissions + s.queue)[|s.submissions|] == s.queue[0];
  }

  /** A queued batch leaves the queue with an error. */
  lemma RefuseQueued(s: State, queued: seq<BatchId>, selected: map<BatchId, seq<Target>>, b: BatchId, error: Errno)
    requires BatchesOk(s) && SelectedOk(s) && b in s.batches && b in s.submissions + s.queue
    requires forall x :: x in queued <==> x in s.submissions + s.queue && x != b
    requires forall x :: x in s.selected ==> x in selected && selected[x] == s.selected[x]
    requires forall x :: x in selected ==> x in s.selected || x == b
    ensures BatchesAre(s.batches[b := Refused(s.batches[b], error)], queued, s.pending)
    ensures SelectedAre(s.batches[b := Refused(s.batches[b], error)], queued, selected)
  {
    hide CountOf;
    assert BatchesAre(s.batches[b := Refused(s.batches[b], error)], queued, s.pending) by { hide SelectedAre; }
    assert SelectedAre(s.batches[b := Refused(s.batches[b], error)], queued, selected) by { hide BatchesAre; }
  }

  lemma RefuseKeepsSlots(s: State, b: BatchId, error: Errno)
    requires PendingOk(s) && b in s.batches
    ensures PendingAre(s.batches[b := Refused(s.batches[b], error)], s.pending)
  {
    var batches := s.batches[b := Refused(s.batches[b], error)];
    forall i | 0 <= i < |s.pending| ensures SlotOf(batches, s.pending[i]) { assert SlotOf(s.batches, s.pending[i]); }
    hide SlotOf;
  }

  lemma RejectHeadKeeps(s: State, targets: seq<Target>, error: Errno)
    requires Inv(s) && s.queue != []
    ensures s.queue[0] in s.batches && Inv(Reject(TakeHead(s, targets), s.queue[0], error))
  {
    QueueShrinks(s);
    hide Distinct, NumbersOk, WireOk, PendingAre, BatchesAre, SelectedAre;
    RefuseQueued(s, s.submissions + s.queue[1..], s.selected[s.queue[0] := targets], s.queue[0], error) by {
      HeadNotSelected(s);
    }
    RefuseKeepsSlots(s, s.queue[0], error);
  }

  lemma HeadNotSelected(s: State)
    requires SelectedOk(s) && s.queue != []
    ensures s.queue[0] !in s.selected
  {
    assert (s.submissions + s.queue)[|s.submissions|] == s.queue[0];
  }

  /** A queued batch leaves the queue with n requests. */
  lemma OpenQueued(s: State, queued: seq<BatchId>, more: seq<Pending>, b: BatchId, batch: Batch)
    requires BatchesOk(s) && b in s.batches
    requires forall x :: x in queued <==> x in s.submissions + s.queue && x != b
    requires forall k :: 0 <= k < |more| ==> more[k].batch == b
    requires CountOf(s.pending, b) == 0 && Counted(batch, |more|)
    ensures BatchesAre(s.batches[b := batch], queued, s.pending + more)
  {
    forall x | x in s.batches ensures CountOf(s.pending + more, x) == CountOf(s.pending, x) + if x == b then |more|
        else 0 {
      CountOfNew(s.pending, more, b, x);
    }
    hide CountOf, Counted, Untouched;
  }

  lemma OpenKeepsBatches(s: State, targets: seq<Target>)
    requires Inv(s) && s.queue != [] && targets != [] && s.queue[0] in s.batches && !Overflows(s, s.queue[0], |targets|)
    ensures BatchesOk(Open(TakeHead(s, targets), s.queue[0], targets))
  {
    var h, n := s.queue[0], |targets|;
    var s' := Open(TakeHead(s, targets), h, targets);
    var more := Requests(h, targets, s.nextRequest, s.batches[h].isGoal, s.nextGoal, n);
    QueueShrinks(s);
    HeadIsUntouched(s);
    AllWaiting(n);
    hide Distinct, NumbersOk, WireOk, PendingAre, SelectedAre, BatchesAre, CountOf;
    OpenQueued(s, s.submissions + s.queue[1..], more, h, s'.batches[h]);
  }

  lemma HeadIsUntouched(s: State)
    requires Inv(s) && s.queue != []
    ensures s.queue[0] in s.batches && Untouched(s.batches[s.queue[0]]) && CountOf(s.pending, s.queue[0]) == 0
  {
    assert (s.submissions + s.queue)[|s.submissions|] == s.queue[0];
    hide SelectedAre, PendingAre, NumbersOk, WireOk, Distinct, CountOf;
  }

  lemma OpenKeepsSelected(s: State, targets: seq<Target>)
    requires Inv(s) && s.queue != [] && targets != [] && s.queue[0] in s.batches && !Overflows(s, s.queue[0], |targets|)
    ensures SelectedOk(Open(TakeHead(s, targets), s.queue[0], targets))
  {
    QueueShrinks(s);
    hide Distinct, NumbersOk, WireOk, PendingAre, BatchesAre, Requests;
  }

  lemma {:induction false} NotPending(pending: seq<Pending>, b: BatchId, i: nat)
    requires CountOf(pending, b) == 0 && i < |pending|
    ensures pending[i].batch != b
  {
    if i < |pending| - 1 { NotPending(pending[..|pending| - 1], b, i); }
  }

  lemma OpenKeepsSlots(s: State, targets: seq<Target>)
    requires Inv(s) && s.queue != [] && targets != [] && s.queue[0] in s.batches && !Overflows(s, s.queue[0], |targets|)
    ensures var s' := Open(TakeHead(s, targets), s.queue[0], targets);
      forall i :: 0 <= i < |s'.pending| ==> SlotOf(s'.batches, s'.pending[i])
    ensures forall i :: 0 <= i < |s.pending| ==> s.pending[i].batch != s.queue[0]
  {
    var h := s.queue[0];
    HeadIsUntouched(s);
    forall i | 0 <= i < |s.pending| ensures s.pending[i].batch != h { NotPending(s.pending, h, i); }
    hide BatchesAre, SelectedAre, CountOf, NumbersOk, WireOk, QueuedAre, Distinct;
    var s' := Open(TakeHead(s, targets), h, targets);
    forall i | 0 <= i < |s'.pending| ensures SlotOf(s'.batches, s'.pending[i]) {
      if i < |s.pending| {
        assert SlotOf(s.batches, s.pending[i]);
        OtherSlot(s.batches, h, Opened(s.batches[h], targets), s.pending[i]);
      } else {
        NewSlot(s, targets, i - |s.pending|);
      }
    }
  }

  lemma OtherSlot(batches: map<BatchId, Batch>, b: BatchId, batch: Batch, p: Pending)
    requires SlotOf(batches, p) && p.batch != b
    ensures SlotOf(batches[b := batch], p)
  {
  }

  lemma NewSlot(s: State, targets: seq<Target>, k: nat)
    requires s.queue != [] && s.queue[0] in s.batches && !Overflows(s, s.queue[0], |targets|) && k < |targets|
    ensures var s' := Open(TakeHead(s, targets), s.queue[0], targets);
      |s'.pending| == |s.pending| + |targets| && SlotOf(s'.batches, s'.pending[|s.pending| + k])
  {
  }

  lemma OpenKeepsPending(s: State, targets: seq<Target>)
    requires Inv(s) && s.queue != [] && targets != [] && s.queue[0] in s.batches && !Overflows(s, s.queue[0], |targets|)
    requires |targets| + |s.pending| <= MAX_PENDING
    ensures PendingOk(Open(TakeHead(s, targets), s.queue[0], targets))
  {
    OpenKeepsSlots(s, targets);
    hide BatchesAre, SelectedAre, CountOf, SlotOf, Distinct, NumbersOk, WireOk;
  }

  lemma OpenKeepsNumbers(s: State, targets: seq<Target>)
    requires NumbersOk(s.pending, s.nextRequest, s.nextGoal) && WireOk(s.wire, s.pending, s.nextRequest, s.nextGoal)
    requires s.queue != [] && s.queue[0] in s.batches && !Overflows(s, s.queue[0], |targets|)
    ensures var s' := Open(TakeHead(s, targets), s.queue[0], targets);
      NumbersOk(s'.pending, s'.nextRequest, s'.nextGoal) && WireOk(s'.wire, s'.pending, s'.nextRequest, s'.nextGoal)
  {
  }

  lemma AdmitHeadKeeps(s: State, targets: seq<Target>, none: Errno, outgoing: nat)
    requires Inv(s) && s.queue != []
    ensures s.queue[0] in s.batches && Inv(AdmitHead(s, targets, none, outgoing))
  {
    QueueShrinks(s);
    hide BatchesAre, SelectedAre, PendingAre, NumbersOk, WireOk, Distinct, Reject, Open;
    match Objection(s, s.queue[0], |targets|, none, outgoing)
    case Some(error) => RejectHeadKeeps(s, targets, error);
    case None =>
      OpenKeepsBatches(s, targets);
      OpenKeepsSelected(s, targets);
      OpenKeepsPending(s, targets);
      OpenKeepsNumbers(s, targets);
      OpenedQueue(s, targets);
  }

  lemma OpenedQueue(s: State, targets: seq<Target>)
    requires s.queue != [] && s.queue[0] in s.batches && !Overflows(s, s.queue[0], |targets|)
    ensures var s' := Open(TakeHead(s, targets), s.queue[0], targets);
      s'.submissions == s.submissions && s'.queue == s.queue[1..] && s'.batches.Keys == s.batches.Keys
          && s'.ended == s.ended
  {
  }

  // ---------------------------------------------------------------------
  // Sending
  // ---------------------------------------------------------------------

  function Transmit(s: State, i: nat, connection: nat): State
    requires i < |s.pending|
  {
    var p := s.pending[i];
    s.(pending := s.pending[i := p.(sent := true, connection := connection)],
       wire := s.wire + [Sent(p.target.host, p.id, p.goal)])
  }

  /** No earlier request to the same host is waiting to be sent. */
  predicate FirstToHost(s: State, i: nat)
    requires i < |s.pending|
  {
    forall k :: 0 <= k < i ==> s.pending[k].sent || s.pending[k].target.host != s.pending[i].target.host
  }

  lemma {:induction false} CountTransmitted(pending: seq<Pending>, i: nat, p: Pending, b: BatchId)
    requires i < |pending| && p.batch == pending[i].batch
    ensures CountOf(pending[i := p], b) == CountOf(pending, b)
  {
    var n := |pending| - 1;
    if i < n {
      CountTransmitted(pending[..n], i, p, b);
      assert pending[i := p][..n] == pending[..n][i := p];
    } else {
      assert pending[i := p][..n] == pending[..n];
    }
  }

  lemma TransmitKeeps(s: State, i: nat, connection: nat)
    requires Inv(s) && i < |s.pending| && !s.pending[i].sent && FirstToHost(s, i)
    ensures Inv(Transmit(s, i, connection))
  {
    WireGrows(s, i, connection);
    TransmitKeepsBatches(s, i, connection);
    TransmitKeepsPending(s, i, connection);
    TransmitKeepsNumbers(s, i, connection);
    hide BatchesAre, SelectedAre, PendingAre, NumbersOk, WireOk, Distinct, FirstToHost;
  }

  lemma TransmitKeepsNumbers(s: State, i: nat, connection: nat)
    requires NumbersOk(s.pending, s.nextRequest, s.nextGoal) && i < |s.pending|
    ensures NumbersOk(Transmit(s, i, connection).pending, s.nextRequest, s.nextGoal)
  {
  }

  lemma TransmitKeepsBatches(s: State, i: nat, connection: nat)
    requires BatchesOk(s) && i < |s.pending|
    ensures BatchesOk(Transmit(s, i, connection))
  {
    var s' := Transmit(s, i, connection);
    forall b ensures CountOf(s'.pending, b) == CountOf(s.pending,
        b) { CountTransmitted(s.pending, i, s'.pending[i], b); }
    hide CountOf;
  }

  lemma TransmitKeepsPending(s: State, i: nat, connection: nat)
    requires PendingOk(s) && i < |s.pending|
    ensures PendingOk(Transmit(s, i, connection))
  {
    var s' := Transmit(s, i, connection);
    forall k | 0 <= k < |s'.pending| ensures SlotOf(s'.batches,
        s'.pending[k]) { assert SlotOf(s.batches, s.pending[k]); }
    hide SlotOf;
  }

  lemma WireGrows(s: State, i: nat, connection: nat)
    requires NumbersOk(s.pending, s.nextRequest, s.nextGoal) && WireOk(s.wire, s.pending, s.nextRequest, s.nextGoal)
    requires i < |s.pending| && !s.pending[i].sent && FirstToHost(s, i)
    ensures var s' := Transmit(s, i, connection); WireOk(s'.wire, s'.pending, s.nextRequest, s.nextGoal)
  {
    var s' := Transmit(s, i, connection);
    forall j, k | 0 <= j < |s'.wire| && 0 <= k < |s'.pending| && ToSend(s'.pending[k], s'.wire[j].host)
      ensures Follows(s'.wire[j], s'.pending[k].id, s'.pending[k].goal)
    {
      assert k != i && s'.pending[k] == s.pending[k];
      if j == |s.wire| { assert k > i; }
    }
  }

  // ---------------------------------------------------------------------
  // Submissions and the end
  // ---------------------------------------------------------------------

  function Refusal(s: State, invalid: bool): Option<Errno> {
    if invalid then Some(EINVAL) else if !s.running then Some(ENOTCONN)
    else if |s.submissions| >= MAX_SUBMISSIONS then Some(EAGAIN) else None
  }

  /** A batch enters the queue, or is completed at once with an error. */
  function Submitted(s: State, b: BatchId, isGoal: bool, error: Option<Errno>): State {
    s.(batches := s.batches[b := NewBatch(isGoal, error)],
       submissions := if error.Some? then s.submissions else s.submissions + [b])
  }

  function NewBatch(isGoal: bool, error: Option<Errno>): Batch {
    Batch(isGoal, 0, [], [], if error.Some? then 1 else 0, error)
  }

  lemma {:induction false} NotCounted(s: State, b: BatchId, n: nat)
    requires PendingOk(s) && b !in s.batches && n <= |s.pending|
    ensures CountOf(s.pending[..n], b) == 0
  {
    if n > 0 {
      NotCounted(s, b, n - 1);
      assert s.pending[..n][..n - 1] == s.pending[..n - 1];
      assert SlotOf(s.batches, s.pending[n - 1]);
    }
  }

  lemma InsertDistinct(a: seq<BatchId>, c: seq<BatchId>, b: BatchId)
    requires Distinct(a + c) && b !in a + c
    ensures Distinct((a + [b]) + c) && forall x :: x in (a + [b]) + c <==> x in a + c || x == b
  {
    var all, was, k := (a + [b]) + c, a + c, |a|;
    assert forall i :: 0 <= i < |all| ==> all[i] == if i < k then was[i] else if i == k then b else was[i - 1];
    assert forall i :: 0 <= i < |was| ==> was[i] == all[if i < k then i else i + 1];
    forall i, j | 0 <= i < j < |all| ensures all[i] != all[j] {
      var i', j' := if i < k then i else i - 1, if j < k then j else j - 1;
      if i != k && j != k { assert was[i'] != was[j']; }
    }
    assert all[k] == b;
  }

  /** A batch of which nothing was known, queued or completed with an error. */
  lemma AddBatch(s: State, queued: seq<BatchId>, b: BatchId, batch: Batch)
    requires BatchesOk(s) && SelectedOk(s) && b !in s.batches && CountOf(s.pending, b) == 0
    requires forall x :: x in queued <==> x in s.submissions + s.queue || (x == b && b in queued)
    requires if b in queued then Untouched(batch) else batch.error.Some? && Counted(batch, 0)
    ensures BatchesAre(s.batches[b := batch], queued, s.pending)
        && SelectedAre(s.batches[b := batch], queued, s.selected)
  {
    hide CountOf, WaitingIn, Counted, Untouched;
    assert BatchesAre(s.batches[b := batch], queued, s.pending) by { hide SelectedAre; }
    assert SelectedAre(s.batches[b := batch], queued, s.selected) by { hide BatchesAre; }
  }

  lemma SubmitKeepsBatches(s: State, b: BatchId, isGoal: bool, error: Option<Errno>)
    requires Inv(s) && b !in s.batches
    ensures BatchesOk(Submitted(s, b, isGoal, error))
    ensures SelectedOk(Submitted(s, b, isGoal, error))
    ensures var s' := Submitted(s, b, isGoal, error);
      Distinct(s'.submissions + s'.queue) && forall x :: x in s'.submissions + s'.queue ==> x in s'.batches
  {
    NotCounted(s, b, |s.pending|);
    assert s.pending[..|s.pending|] == s.pending;
    InsertDistinct(s.submissions, s.queue, b);
    hide Distinct, PendingAre, NumbersOk, WireOk, CountOf, BatchesAre, SelectedAre;
    var s' := Submitted(s, b, isGoal, error);
    AddBatch(s, s'.submissions + s'.queue, b, s'.batches[b]);
  }

  lemma SubmitKeeps(s: State, b: BatchId, isGoal: bool, invalid: bool)
    requires Inv(s) && b !in s.batches
    ensures Inv(Submitted(s, b, isGoal, Refusal(s, invalid)))
  {
    SubmitKeepsBatches(s, b, isGoal, Refusal(s, invalid));
    AddKeepsSlots(s, b, NewBatch(isGoal, Refusal(s, invalid)));
    hide BatchesAre, SelectedAre, PendingAre, Distinct, NumbersOk, WireOk;
  }

  lemma AddKeepsSlots(s: State, b: BatchId, batch: Batch)
    requires PendingOk(s) && b !in s.batches
    ensures PendingAre(s.batches[b := batch], s.pending)
  {
    var batches := s.batches[b := batch];
    forall i | 0 <= i < |s.pending| ensures SlotOf(batches, s.pending[i]) { assert SlotOf(s.batches, s.pending[i]); }
    hide SlotOf;
  }

  function TakeQueue(s: State): State { s.(queue := s.submissions, submissions := []) }

  lemma TakeQueueKeeps(s: State)
    requires Inv(s) && s.queue == []
    ensures Inv(TakeQueue(s))
  {
    hide BatchesAre, SelectedAre, PendingAre, NumbersOk, WireOk, Distinct;
    assert TakeQueue(s).submissions + TakeQueue(s).queue == s.submissions + s.queue;
  }

  /** A submission that is still queued at the end. */
  function CancelHead(s: State): State
    requires s.queue != [] && s.queue[0] in s.batches
  {
    Reject(s.(queue := s.queue[1..]), s.queue[0], ECANCELED)
  }

  lemma CancelHeadKeeps(s: State)
    requires Inv(s) && s.queue != []
    ensures s.queue[0] in s.batches && Inv(CancelHead(s))
  {
    QueueShrinks(s);
    hide Distinct, NumbersOk, WireOk, PendingAre, BatchesAre, SelectedAre;
    RefuseQueued(s, s.submissions + s.queue[1..], s.selected, s.queue[0], ECANCELED);
    RefuseKeepsSlots(s, s.queue[0], ECANCELED);
  }

  // ---------------------------------------------------------------------
  // Runs
  // ---------------------------------------------------------------------

  /** Submitting is done by any thread; everything else by the IO thread. */
  datatype Move =
    | Submitting(batch: BatchId, isGoal: bool, invalid: bool)
    | Taking
    | Admitting(targets: seq<Target>, none: Errno, outgoing: nat)
    | Transmitting(i: nat, connection: nat)
    | Finishing(i: nat, error: Option<Errno>)
    | Stopping
    | Cancelling
    | Ending

  predicate Enabled(s: State, m: Move) {
    match m
    case Submitting(b, _, _) => b !in s.batches
    case Taking => s.queue == []
    case Admitting(_, _, _) => s.queue != [] && s.queue[0] in s.batches
    case Transmitting(i, _) => i < |s.pending| && !s.pending[i].sent && FirstToHost(s, i)
    case Finishing(i, _) => i < |s.pending| && SlotOf(s.batches, s.pending[i]) && s.batches[s.pending[i].batch].left > 0
    case Stopping => true
    case Cancelling => !s.running && s.queue != [] && s.queue[0] in s.batches
    case Ending => Idle(s)
  }

  function Act(s: State, m: Move): State
    requires Enabled(s, m)
  {
    match m
    case Submitting(b, isGoal, invalid) => Submitted(s, b, isGoal, Refusal(s, invalid))
    case Taking => TakeQueue(s)
    case Admitting(targets, none, outgoing) => AdmitHead(s, targets, none, outgoing)
    case Transmitting(i, connection) => Transmit(s, i, connection)
    case Finishing(i, error) => Finish(s, i, error)
    case Stopping => s.(running := false)
    case Cancelling => CancelHead(s)
    case Ending => s.(ended := true)
  }

  lemma FlagsKeep(s: State, running: bool, ended: bool)
    requires Inv(s) && (ended ==> Idle(s.(running := running)))
    ensures Inv(s.(running := running, ended := ended))
  {
    hide BatchesAre, SelectedAre, PendingAre, NumbersOk, WireOk, Distinct;
  }

  lemma ActKeeps(s: State, m: Move)
    requires Inv(s) && Enabled(s, m)
    ensures Inv(Act(s, m))
  {
    match m
    case Submitting(b, isGoal, invalid) => SubmitKeeps(s, b, isGoal, invalid);
    case Taking => TakeQueueKeeps(s);
    case Admitting(targets, none, outgoing) => AdmitHeadKeeps(s, targets, none, outgoing);
    case Transmitting(i, connection) => TransmitKeeps(s, i, connection);
    case Finishing(i, error) => FinishKeeps(s, i, error);
    case Stopping => FlagsKeep(s, false, s.ended);
    case Cancelling => CancelHeadKeeps(s);
    case Ending => FlagsKeep(s, s.running, true);
  }

  /** A state, and the move that led to it. */
  datatype Moment = Moment(move: Move, state: State)

  predicate Step(before: Moment, after: Moment) {
    Enabled(before.state, after.move) && after.state == Act(before.state, after.move)
  }

  /** The first moment has no move of its own. */
  ghost predicate IsRun(run: seq<Moment>) {
    |run| > 0 && run[0].state == EMPTY_STATE && forall i :: 0 < i < |run| ==> Step(run[i - 1], run[i])
  }

  lemma {:induction false} RunKeepsInv(run: seq<Moment>, i: nat)
    requires IsRun(run) && i < |run|
    ensures Inv(run[i].state)
  {
    hide Enabled, Act;
    if i > 0 {
      RunKeepsInv(run, i - 1);
      assert Step(run[i - 1], run[i]);
      hide Inv;
      ActKeeps(run[i - 1].state, run[i].move);
    }
  }

  /** A batch has its results: one answer for every endpoint selected for it, or an
      error and none. */
  ghost predicate HasResults(s: State, b: BatchId)
    requires b in s.batches
  {
    var batch := s.batches[b];
    && |batch.slots| == |batch.targets|
    && (forall i :: 0 <= i < |batch.slots| ==> batch.slots[i].Answered?)
    && (if batch.error.Some? then batch.slots == [] else b in s.selected && batch.targets == s.selected[b])
  }

  /** At any time: no future is completed twice; it is completed as soon as its
      batch is neither queued nor has a request pending, and then with its results. */
  lemma PromiseIsExact(s: State, b: BatchId)
    requires Inv(s) && b in s.batches
    ensures s.batches[b].promised <= 1 && s.batches[b].left == CountOf(s.pending, b)
    ensures s.batches[b].promised == 1 <==> b !in s.submissions + s.queue && CountOf(s.pending, b) == 0
    ensures s.batches[b].promised == 1 ==> HasResults(s, b)
    ensures s.pending == [] && s.submissions == [] && s.queue == [] ==> s.batches[b].promised == 1
  {
    hide PendingAre, NumbersOk, WireOk, Distinct;
    if s.submissions == [] && s.queue == [] { assert s.submissions + s.queue == []; }
    if s.batches[b].promised == 1 {
      var slots := s.batches[b].slots;
      forall i | 0 <= i < |slots| ensures slots[i].Answered? { NoneWaiting(slots, i); }
    }
  }

  /** In every run of submitters and the IO thread, at every moment, for every
      submission made so far. Once the IO thread has ended, every one of them has been
      completed, exactly once. */
  lemma FuturesAreExact(run: seq<Moment>, i: nat, b: BatchId)
    requires IsRun(run) && i < |run| && b in run[i].state.batches
    ensures var s := run[i].state;
      && s.batches[b].promised <= 1 && s.batches[b].left == CountOf(s.pending, b) && |s.pending| <= MAX_PENDING
      && (s.batches[b].promised == 1 <==> b !in s.submissions + s.queue && CountOf(s.pending, b) == 0)
      && (s.batches[b].promised == 1 ==> HasResults(s, b))
      && (s.ended ==> s.batches[b].promised == 1)
  {
    RunKeepsInv(run, i);
    PromiseIsExact(run[i].state, b);
    hide BatchesAre, SelectedAre, NumbersOk, WireOk, Distinct, Step;
  }

  /** A completed batch is not touched any more, nor is an answered slot. */
  predicate Keeps(x: Batch, y: Batch) {
    && (x.promised == 1 ==> y == x)
    && forall k :: 0 <= k < |x.slots| && x.slots[k].Answered? ==> k < |y.slots| && y.slots[k] == x.slots[k]
  }

  lemma FinishKeepsResults(s: State, i: nat, error: Option<Errno>, b: BatchId)
    requires Inv(s) && Enabled(s, Finishing(i, error)) && b in s.batches
    ensures b in Finish(s, i, error).batches && Keeps(s.batches[b], Finish(s, i, error).batches[b])
  {
    PromiseIsExact(s, b);
    hide BatchesAre, SelectedAre, PendingAre, NumbersOk, WireOk, Distinct;
  }

  lemma AdmitKeepsResults(s: State, targets: seq<Target>, none: Errno, outgoing: nat, b: BatchId)
    requires Inv(s) && s.queue != [] && s.queue[0] in s.batches && b in s.batches
    ensures var t := AdmitHead(s, targets, none, outgoing); b in t.batches && Keeps(s.batches[b], t.batches[b])
  {
    HeadIsUntouched(s);
    hide Inv, Requests, CountOf, Objection;
    AdmittedBatches(s, targets, none, outgoing);
    hide AdmitHead;
  }

  lemma AdmittedBatches(s: State, targets: seq<Target>, none: Errno, outgoing: nat)
    requires s.queue != [] && s.queue[0] in s.batches
    ensures var h, o := s.queue[0], Objection(s, s.queue[0], |targets|, none, outgoing);
      AdmitHead(s, targets, none, outgoing).batches
        == s.batches[h := if o.Some? then Refused(s.batches[h], o.value) else Opened(s.batches[h], targets)]
  {
    hide Requests, Refused, Opened;
  }

  lemma StepKeepsResults(s: State, m: Move, b: BatchId)
    requires Inv(s) && Enabled(s, m) && b in s.batches
    ensures b in Act(s, m).batches && Keeps(s.batches[b], Act(s, m).batches[b])
  {
    hide Inv;
    match m
    case Finishing(i, error) => FinishKeepsResults(s, i, error, b);
    case Admitting(targets, none, outgoing) => AdmitKeepsResults(s, targets, none, outgoing, b);
    case Cancelling => HeadIsUntouched(s);
    case _ =>
  }

  /** In every run: a completed future keeps its results, and an answer once given
      is never replaced. */
  lemma {:induction false} ResultsStay(run: seq<Moment>, i: nat, j: nat, b: BatchId)
    requires IsRun(run) && i <= j < |run| && b in run[i].state.batches
    ensures b in run[j].state.batches && Keeps(run[i].state.batches[b], run[j].state.batches[b])
  {
    hide Inv, Enabled, Act;
    if i < j {
      ResultsStay(run, i, j - 1, b);
      RunKeepsInv(run, j - 1);
      assert Step(run[j - 1], run[j]);
      StepKeepsResults(run[j - 1].state, run[j].move, b);
    }
  }

  /** Slot k of batch b holds an answer. */
  predicate Answers(s: State, b: BatchId, k: nat) {
    b in s.batches && k < |s.batches[b].slots| && s.batches[b].slots[k].Answered?
  }

  /** The move ends the request that slot k of batch b waits for. */
  predicate Ends(s: State, m: Move, b: BatchId, k: nat) {
    m.Finishing? && m.i < |s.pending| && s.pending[m.i].batch == b && s.pending[m.i].index == k
  }

  /** A move answers a slot only by ending its request, and with that error. */
  lemma StepAnswers(s: State, m: Move, b: BatchId, k: nat)
    requires Inv(s) && Enabled(s, m) && Answers(Act(s, m), b, k)
    ensures if Ends(s, m, b, k) then Act(s, m).batches[b].slots[k] == Answered(m.error)
            else Answers(s, b, k) && Act(s, m).batches[b].slots[k] == s.batches[b].slots[k]
  {
    hide Inv;
    match m
    case Admitting(targets, none, outgoing) =>
      HeadIsUntouched(s);
      hide Requests, Objection;
      AdmittedBatches(s, targets, none, outgoing);
      hide AdmitHead;
    case _ =>
  }

  /** In every run: each answer was given by ending that slot's own request, in step n,
      and is the error, or the success, that it ended with. */
  lemma {:induction false} AnswersAreTheirs(run: seq<Moment>, j: nat, b: BatchId, k: nat) returns (n: nat)
    requires IsRun(run) && j < |run| && Answers(run[j].state, b, k)
    ensures 0 < n <= j && Ends(run[n - 1].state, run[n].move, b, k)
    ensures run[j].state.batches[b].slots[k] == Answered(run[n].move.error)
  {
    hide Inv, Enabled, Act;
    assert j > 0;
    RunKeepsInv(run, j - 1);
    assert Step(run[j - 1], run[j]);
    StepAnswers(run[j - 1].state, run[j].move, b, k);
    if Ends(run[j - 1].state, run[j].move, b, k) { n := j; } else { n := AnswersAreTheirs(run, j - 1, b, k); }
  }

  /** The move refuses batch b with this error: at submission, at admission, or at the
      end. */
  predicate Refuses(s: State, m: Move, b: BatchId, error: Errno) {
    match m
    case Submitting(x, _, invalid) =>
      && x == b && (error == EINVAL <==> invalid) && (error == EINVAL || error == ENOTCONN || error == EAGAIN)
      && (error == ENOTCONN ==> !s.running) && (error == EAGAIN ==> |s.submissions| >= MAX_SUBMISSIONS)
    case Admitting(targets, none, outgoing) =>
      && s.queue != [] && s.queue[0] == b && b in s.batches
      && (if targets == [] then error == none
          else if error == EOVERFLOW then Overflows(s, b, |targets|)
          else error == EAGAIN && TooMany(s, b, |targets|, outgoing))
    case Cancelling => s.queue != [] && s.queue[0] == b && error == ECANCELED
    case _ => false
  }

  lemma StepRefuses(s: State, m: Move, b: BatchId)
    requires Inv(s) && Enabled(s, m) && b in Act(s, m).batches && Act(s, m).batches[b].error.Some?
    ensures Refuses(s, m, b, Act(s, m).batches[b].error.value)
      || (b in s.batches && s.batches[b].error == Act(s, m).batches[b].error)
  {
    hide Inv;
    match m
    case Admitting(targets, none, outgoing) =>
      HeadIsUntouched(s);
      hide Requests, Overflows, TooMany;
      AdmittedBatches(s, targets, none, outgoing);
      hide AdmitHead;
    case _ =>
  }

  /** In every run: a batch that is completed with an error was refused with it in
      step n, for the reason that the error names. */
  lemma {:induction false} RefusalsAreTheirs(run: seq<Moment>, j: nat, b: BatchId) returns (n: nat)
    requires IsRun(run) && j < |run| && b in run[j].state.batches && run[j].state.batches[b].error.Some?
    ensures 0 < n <= j && Refuses(run[n - 1].state, run[n].move, b, run[j].state.batches[b].error.value)
  {
    hide Inv, Enabled, Act, Refuses;
    assert j > 0;
    RunKeepsInv(run, j - 1);
    assert Step(run[j - 1], run[j]);
    StepRefuses(run[j - 1].state, run[j].move, b);
    if Refuses(run[j - 1].state, run[j].move, b, run[j].state.batches[b].error.value) {
      n := j;
    } else {
      n := RefusalsAreTheirs(run, j - 1, b);
    }
  }

  /** In every run: to each host request ids ascend, and so do the goals. */
  lemma SentAscends(run: seq<Moment>, n: nat, i: nat, j: nat)
    requires IsRun(run) && n < |run| && i < j < |run[n].state.wire|
    requires run[n].state.wire[i].host == run[n].state.wire[j].host
    ensures run[n].state.wire[i].id < run[n].state.wire[j].id
    ensures run[n].state.wire[j].goal != 0 ==> run[n].state.wire[i].goal < run[n].state.wire[j].goal
  {
    RunKeepsInv(run, n);
    hide BatchesAre, SelectedAre, PendingAre, NumbersOk, Distinct, Step;
  }

  /** What one table has answered and completed, a later one still has. */
  ghost predicate KeepsAll(was: map<BatchId, Batch>, now: map<BatchId, Batch>) {
    forall b :: b in was ==> b in now && Keeps(was[b], now[b])
  }

  lemma LongerRunKeeps(was: seq<Moment>, now: seq<Moment>)
    requires IsRun(was) && was <= now && IsRun(now)
    ensures KeepsAll(was[|was| - 1].state.batches, now[|now| - 1].state.batches)
  {
    hide Keeps, Step;
    var first, last := was[|was| - 1].state.batches, now[|now| - 1].state.batches;
    forall b | b in first ensures b in last && Keeps(first[b], last[b]) {
      ResultsStay(now, |was| - 1, |now| - 1, b);
    }
  }

  /** The slot of this request holds this answer. */
  predicate Settled(batches: map<BatchId, Batch>, p: Pending, error: Option<Errno>) {
    p.batch in batches && p.index < |batches[p.batch].slots| && batches[p.batch].slots[p.index] == Answered(error)
  }

  /** This batch ended without a request, with ECANCELED. */
  predicate Cancelled(batches: map<BatchId, Batch>, b: BatchId) {
    b in batches && batches[b].promised == 1 && batches[b].error == Some(ECANCELED)
  }

  lemma CancelledStays(was: map<BatchId, Batch>, now: map<BatchId, Batch>, b: BatchId)
    requires KeepsAll(was, now) && Cancelled(was, b)
    ensures Cancelled(now, b)
  {
    assert Keeps(was[b], now[b]);
  }

  lemma SettledStays(was: map<BatchId, Batch>, now: map<BatchId, Batch>, p: Pending, error: Option<Errno>)
    requires KeepsAll(was, now) && Settled(was, p, error)
    ensures Settled(now, p, error)
  {
    assert Keeps(was[p.batch], now[p.batch]);
  }

  // ---------------------------------------------------------------------
  // The IO thread's passes, and Submit
  // ---------------------------------------------------------------------

  predicate Below(s: State, n: nat) { forall b :: b in s.batches ==> b < n }

  /** Every state that the methods bring about is one of a run, and `run` is it. */
  class RequestTable {
    var batches: map<BatchId, Batch>
    var submissions: seq<BatchId>
    var queue: seq<BatchId>
    var pending: seq<Pending>
    var nextRequest: u64
    var nextGoal: u64
    var running: bool
    var nextBatch: nat
    ghost var ended: bool
    ghost var wire: seq<Sent>
    ghost var selected: map<BatchId, seq<Target>>
    ghost var run: seq<Moment>

    ghost function Now(): State
      reads this
    {
      State(batches, submissions, queue, pending, nextRequest, nextGoal, running, ended, wire, selected)
    }

    ghost predicate Valid()
      reads this
    {
      && IsRun(run) && run[|run| - 1].state == Now() && Inv(Now())
      && Below(Now(), nextBatch)
    }

    constructor ()
      ensures Valid() && Now() == EMPTY_STATE
    {
      batches, submissions, queue, pending := map[], [], [], [];
      nextRequest, nextGoal, running, nextBatch := 0, 0, true, 0;
      ended, wire, selected, run := false, [], map[], [Moment(Taking, EMPTY_STATE)];
    }

    /** The move that leads from the last state of the run to the current one. */
    ghost method Note(m: Move)
      requires IsRun(run) && Inv(run[|run| - 1].state) && Enabled(run[|run| - 1].state, m)
      requires Now() == Act(run[|run| - 1].state, m) && Below(Now(), nextBatch)
      modifies this`run
      ensures Valid() && run == old(run) + [Moment(m, Now())]
    {
      hide Enabled, Act, Inv, Below;
      ActKeeps(run[|run| - 1].state, m);
      assert Step(run[|run| - 1], Moment(m, Now()));
      run := run + [Moment(m, Now())];
    }

    /** Called by any thread, under the mutex. `invalid` is the outcome of the
        argument checks. */
    method Submit(isGoal: bool, invalid: bool) returns (b: BatchId)
      requires Valid()
      modifies this
      ensures Valid() && old(run) <= run && b !in old(batches)
      ensures Now() == Submitted(old(Now()), b, isGoal, Refusal(old(Now()), invalid))
    {
      hide Inv, IsRun;
      b := nextBatch;
      nextBatch := nextBatch + 1;
      var error := if invalid then Some(EINVAL) else if !running then Some(ENOTCONN)
                   else if |submissions| >= MAX_SUBMISSIONS then Some(EAGAIN) else None;
      batches := batches[b := Batch(isGoal, 0, [], [], if error.Some? then 1 else 0, error)];
      if error.None? { submissions := submissions + [b]; }
      Note(Submitting(b, isGoal, invalid));
    }

    /** Other threads submit whenever the IO thread does not hold the mutex. */
    method OthersSubmit()
      requires Valid()
      modifies this
      ensures Valid() && old(run) <= run && pending == old(pending) && queue == old(queue) && running == old(running)
      ensures !running ==> submissions == old(submissions)
      ensures ended == old(ended)
    {
      var n: nat :| true;
      for i := 0 to n
        invariant Valid() && old(run) <= run && pending == old(pending) && queue == old(queue)
            && running == old(running)
        invariant (!running ==> submissions == old(submissions)) && ended == old(ended)
      {
        hide Inv, IsRun;
        var isGoal: bool, invalid: bool := *, *;
        var b := Submit(isGoal, invalid);
      }
    }

    /** Request i ends: its own slot gets the answer, and the last one completes the
        future. */
    method FinishAt(i: nat, error: Option<Errno>)
      requires Valid() && i < |pending|
      modifies this`batches, this`pending, this`run
      ensures Valid() && old(run) <= run
      ensures SlotOf(old(batches), old(pending[i])) && old(batches[pending[i].batch].left > 0)
      ensures Now() == Finish(old(Now()), i, error) && Settled(batches, old(pending)[i], error)
    {
      hide Inv, IsRun, Answer, Act, Enabled, Without;
      StillCounted(Now(), i);
      FinishingActs(Now(), i, error);
      var p := pending[i];
      pending := Without(pending, i);
      var b := Answering(batches[p.batch], p.index, error);
      batches := batches[p.batch := b];
      Note(Finishing(i, error));
      AnswerIsThere(old(batches)[p.batch], p.index, error);
    }

    static method Answering(batch: Batch, index: nat, error: Option<Errno>) returns (b: Batch)
      requires batch.left > 0 && index < |batch.slots|
      ensures b == Answer(batch, index, error)
    {
      b := batch.(slots := batch.slots[index := Answered(error)], left := batch.left - 1);
      if b.left == 0 { b := b.(promised := b.promised + 1); }
    }

    /** Take over all submissions and admit them in order. `selects` gives the
        endpoints that each batch selects, and the error if there are none. */
    method Admit(selects: BatchId -> (seq<Target>, Errno), outgoing: nat)
      requires Valid() && queue == []
      modifies this
      ensures Valid() && old(run) <= run && queue == [] && submissions == []
      ensures Now() == AdmitAll(TakeQueue(old(Now())), selects, outgoing)
    {
      hide Inv, IsRun, AdmitHead;
      queue, submissions := submissions, [];
      Note(Taking);
      ghost var taken := Now();
      while queue != []
        invariant Valid() && old(run) <= run && submissions == []
        invariant AdmitAll(Now(), selects, outgoing) == AdmitAll(taken, selects, outgoing)
        decreases |queue|
      {
        var (targets, none) := selects(queue[0]);
        AdmitNext(targets, none, outgoing);
      }
    }

    method AdmitNext(targets: seq<Target>, none: Errno, outgoing: nat)
      requires Valid() && queue != []
      modifies this`batches, this`queue, this`pending, this`nextRequest, this`nextGoal, this`selected, this`run
      ensures Valid() && old(run) <= run && old(queue[0] in batches) && |queue| < |old(queue)|
      ensures Now() == AdmitHead(old(Now()), targets, none, outgoing)
    {
      hide Inv, IsRun, AdmitHead, Act, Enabled, Below;
      HeadIsBatch(Now());
      AdmittingActs(Now(), targets, none, outgoing);
      AdmitKeepsBelow(Now(), targets, none, outgoing, nextBatch);
      hide Now;
      AdmitFirst(targets, none, outgoing);
      Note(Admitting(targets, none, outgoing));
    }

    method AdmitFirst(targets: seq<Target>, none: Errno, outgoing: nat)
      requires queue != [] && queue[0] in batches
      modifies this`batches, this`queue, this`pending, this`nextRequest, this`nextGoal, this`selected
      ensures Now() == AdmitHead(old(Now()), targets, none, outgoing)
      ensures |queue| < |old(queue)|
    {
      var b := queue[0];
      var objection := CheckRoom(b, |targets|, none, outgoing);
      hide Objection, Reject, Open, TakeHead, Overflows;
      if objection.Some? {
        RefuseHead(targets, objection.value);
      } else {
        OpenHead(targets);
      }
    }

    method RefuseHead(targets: seq<Target>, error: Errno)
      requires queue != [] && queue[0] in batches
      modifies this`batches, this`queue, this`selected
      ensures Now() == Reject(TakeHead(old(Now()), targets), old(queue)[0], error) && |queue| < |old(queue)|
    {
      hide Refused;
      var b := queue[0];
      queue := queue[1..];
      selected := selected[b := targets];
      batches := batches[b := Refused(batches[b], error)];
    }

    method OpenHead(targets: seq<Target>)
      requires queue != [] && queue[0] in batches && !Overflows(Now(), queue[0], |targets|)
      modifies this`batches, this`queue, this`pending, this`nextRequest, this`nextGoal, this`selected
      ensures Now() == Open(TakeHead(old(Now()), targets), old(queue)[0], targets) && |queue| < |old(queue)|
    {
      hide Opened, Requests;
      var b := queue[0];
      var isGoal := batches[b].isGoal;
      queue := queue[1..];
      selected := selected[b := targets];
      batches := batches[b := Opened(batches[b], targets)];
      PushRequests(b, targets, isGoal);
    }

    method CheckRoom(b: BatchId, n: nat, none: Errno, outgoing: nat) returns (objection: Option<Errno>)
      requires b in batches
      ensures objection == Objection(Now(), b, n, none, outgoing)
      ensures objection.None? ==> !Overflows(Now(), b, n)
    {
      if n == 0 { return Some(none); }
      var overflow := nextRequest > U64_MAX - n || (batches[b].isGoal && nextGoal > U64_MAX - n);
      if overflow || n + |pending| > MAX_PENDING || (batches[b].isGoal && n + |pending| + outgoing > MAX_PENDING) {
        return Some(if overflow then EOVERFLOW else EAGAIN);
      }
      return None;
    }

    method PushRequests(b: BatchId, targets: seq<Target>, isGoal: bool)
      requires nextRequest + |targets| <= U64_MAX && (isGoal ==> nextGoal + |targets| <= U64_MAX)
      modifies this`pending, this`nextRequest, this`nextGoal
      ensures pending == old(pending) + Requests(b, targets, old(nextRequest), isGoal, old(nextGoal), |targets|)
      ensures nextRequest == old(nextRequest) + |targets| && nextGoal == old(nextGoal) + if isGoal then |targets| else 0
    {
      ghost var first, firstGoal := nextRequest, nextGoal;
      for i := 0 to |targets|
        invariant nextRequest == first + i && nextGoal == firstGoal + if isGoal then i else 0
        invariant pending == old(pending) + Requests(b, targets, first, isGoal, firstGoal, i)
      {
        nextRequest := nextRequest + 1;
        if isGoal { nextGoal := nextGoal + 1; }
        pending := pending + [Pending(b, i, nextRequest, if isGoal then nextGoal else 0, targets[i], false, 0)];
      }
    }

    /** Requests that expired, or whose peer or route is gone, end here. */
    method Expire(verdict: Pending -> Option<Errno>)
      requires Valid()
      modifies this`batches, this`pending, this`run
      ensures Valid() && old(run) <= run
      ensures pending == Remaining(old(pending), verdict)
      ensures forall k :: 0 <= k < |old(pending)| && verdict(old(pending)[k]).Some? ==>
        Settled(batches, old(pending)[k], verdict(old(pending)[k]))
    {
      hide Inv, IsRun, Remaining, Settled, Keeps;
      var i := |pending|;
      NothingRemains(pending, verdict);
      while i > 0
        invariant Valid() && old(run) <= run && 0 <= i <= |pending| && i <= |old(pending)|
        invariant pending == old(pending)[..i] + Remaining(old(pending)[i..], verdict)
        invariant forall k :: i <= k < |old(pending)| && verdict(old(pending)[k]).Some? ==>
          Settled(batches, old(pending)[k], verdict(old(pending)[k]))
      {
        i := i - 1;
        ExpireStep(old(pending), pending, i, verdict);
        var error := verdict(pending[i]);
        if error.Some? {
          ghost var was := batches;
          FinishOne(i, error);
          forall k | i < k < |old(pending)| && verdict(old(pending)[k]).Some?
            ensures Settled(batches, old(pending)[k], verdict(old(pending)[k]))
          {
            SettledStays(was, batches, old(pending)[k], verdict(old(pending)[k]));
          }
        }
      }
      assert old(pending)[0..] == old(pending);
    }

    /** FinishAt, as seen by a caller that watches the entries. */
    method FinishOne(i: nat, error: Option<Errno>)
      requires Valid() && i < |pending|
      modifies this`batches, this`pending, this`run
      ensures Valid() && old(run) <= run && pending == Without(old(pending), i)
      ensures Settled(batches, old(pending)[i], error) && KeepsAll(old(batches), batches)
    {
      hide Inv, IsRun, Settled, Keeps, KeepsAll, Answer, SlotOf, Below, Without;
      FinishAt(i, error);
      LongerRunKeeps(old(run), run);
    }

    /** A connection goes away: what was sent on it ends with ECONNRESET. */
    method Drop(connection: nat)
      requires Valid()
      modifies this`batches, this`pending, this`run
      ensures Valid() && old(run) <= run
      ensures pending == Remaining(old(pending), ResetOn(connection))
      ensures forall k :: 0 <= k < |old(pending)| ==>
        old(pending)[k].sent && old(pending)[k].connection == connection ==>
          Settled(batches, old(pending)[k], Some(ECONNRESET))
    {
      Expire(ResetOn(connection));
    }

    /** A response arrives on a connection. It ends the request of that id that was
        sent on that connection, and no other; without one it is ignored. `matches`
        compares the rest of the frame, `late` looks at the batch's deadline. */
    method Respond(connection: nat, id: u64, matches: Pending -> bool, late: Pending -> bool, status: Option<Errno>)
      returns (ok: bool)
      requires Valid()
      modifies this`batches, this`pending, this`run
      ensures Valid() && old(run) <= run && KeepsAll(old(batches), batches)
      ensures forall k :: 0 <= k < |old(pending)| && IsFor(old(pending)[k], connection, id) ==>
        var p := old(pending)[k];
        if matches(p)
        then ok && pending == Without(old(pending), k)
          && Settled(batches, p, if late(p) then Some(ETIMEDOUT) else status)
        else !ok && unchanged(`batches) && pending == old(pending)
      ensures (forall k :: 0 <= k < |old(pending)| ==> !IsFor(old(pending)[k], connection, id)) ==>
        ok && unchanged(`batches) && pending == old(pending)
    {
      IdsDiffer(Now());
      hide Inv, IsRun, Settled, Keeps, Without;
      LongerRunKeeps(run, run);
      for i := 0 to |pending|
        invariant Valid() && unchanged(`run) && unchanged(`batches) && pending == old(pending)
        invariant forall k :: 0 <= k < i ==> !IsFor(pending[k], connection, id)
      {
        var p := pending[i];
        if IsFor(p, connection, id) {
          if !matches(p) { return false; }
          FinishOne(i, if late(p) then Some(ETIMEDOUT) else status);
          return true;
        }
      }
      return true;
    }

    /** Queue what can be sent, in order. `ready` gives the connection to a host, if
        one is ready; `fits` says whether its queue has room. */
    method SendPass(ready: HostId -> Option<nat>, fits: Pending -> bool)
      requires Valid()
      modifies this`batches, this`pending, this`wire, this`run
      ensures Valid() && old(run) <= run
      ensures pending == Passed(old(pending), ready, fits) && wire == old(wire) + Departed(old(pending), ready, fits)
      ensures forall k :: 0 <= k < |old(pending)| && Overfull(old(pending)[k], ready, fits) ==>
        Settled(batches, old(pending)[k], Some(EAGAIN))
    {
      hide Inv, IsRun, Settled, Keeps, Passed, Departed, Overfull, PassOne, DepartOne, KeepsAll;
      NothingPassed(pending, ready, fits);
      var i := 0;
      ghost var n := 0;
      while i < |pending|
        invariant Valid() && old(run) <= run && n <= |old(pending)|
        invariant pending == Passed(old(pending)[..n], ready, fits) + old(pending)[n..]
        invariant i == |Passed(old(pending)[..n], ready, fits)|
        invariant wire == old(wire) + Departed(old(pending)[..n], ready, fits)
        invariant forall k :: 0 <= k < n && Overfull(old(pending)[k], ready, fits) ==>
          Settled(batches, old(pending)[k], Some(EAGAIN))
        decreases |pending| - i
      {
        ghost var was := batches;
        PassedStep(old(pending), n, ready, fits);
        FrontPasses(old(pending), pending, n, i, ready, fits);
        i := SendOne(i, ready, fits);
        forall k | 0 <= k < n && Overfull(old(pending)[k], ready, fits)
          ensures Settled(batches, old(pending)[k], Some(EAGAIN))
        {
          SettledStays(was, batches, old(pending)[k], Some(EAGAIN));
        }
        n := n + 1;
      }
      assert old(pending)[..n] == old(pending);
    }

    method SendOne(i: nat, ready: HostId -> Option<nat>, fits: Pending -> bool) returns (next: nat)
      requires Valid() && i < |pending|
      requires forall k :: 0 <= k < i ==> pending[k].sent || ready(pending[k].target.host).None?
      modifies this`batches, this`pending, this`wire, this`run
      ensures Valid() && old(run) <= run && KeepsAll(old(batches), batches)
      ensures var p := old(pending)[i];
        && next == i + |PassOne(p, ready, fits)| && wire == old(wire) + DepartOne(p, ready, fits)
        && pending == old(pending)[..i] + PassOne(p, ready, fits) + old(pending)[i + 1..]
        && (Overfull(p, ready, fits) ==> Settled(batches, p, Some(EAGAIN)))
    {
      hide Inv, IsRun, Settled, Keeps, KeepsAll;
      LongerRunKeeps(run, run);
      var p := pending[i];
      var connection := ready(p.target.host);
      if !p.sent && connection.Some? {
        if !fits(p) {
          FinishOne(i, Some(EAGAIN));
          return i;
        }
        SendAt(i, connection.value);
      }
      return i + 1;
    }

    method SendAt(i: nat, connection: nat)
      requires Valid() && i < |pending| && !pending[i].sent && FirstToHost(Now(), i)
      modifies this`pending, this`wire, this`run
      ensures Valid() && old(run) <= run
      ensures var p := old(pending)[i];
        && pending == old(pending)[i := p.(sent := true, connection := connection)]
        && wire == old(wire) + [Sent(p.target.host, p.id, p.goal)]
    {
      hide Inv, IsRun;
      var p := pending[i];
      pending := pending[i := p.(sent := true, connection := connection)];
      wire := wire + [Sent(p.target.host, p.id, p.goal)];
      Note(Transmitting(i, connection));
    }

    /** The end of the IO thread, with other threads submitting all the while:
        nothing is left uncompleted, and later submissions are refused. */
    method Shutdown()
      requires Valid() && queue == []
      modifies this
      ensures Valid() && old(run) <= run && ended
      ensures forall b :: b in batches ==> batches[b].promised == 1 && HasResults(Now(), b)
      ensures forall k :: 0 <= k < |old(pending)| ==> Settled(batches, old(pending)[k], Some(ECANCELED))
      ensures forall k :: 0 <= k < |old(submissions)| ==> Cancelled(batches, old(submissions)[k])
    {
      hide Inv, IsRun, Settled, Cancelled, Keeps, HasResults;
      running := false;
      Note(Stopping);
      OthersSubmit();
      FinishAll();
      ghost var was, before := batches, run;
      CancelAll();
      End();
      ghost var ending := batches;
      ghost var cancelled := run;
      OthersSubmit();
      LongerRunKeeps(before, run);
      LongerRunKeeps(cancelled, run);
      forall k | 0 <= k < |old(pending)| ensures Settled(batches, old(pending)[k], Some(ECANCELED)) {
        SettledStays(was, batches, old(pending)[k], Some(ECANCELED));
      }
      forall k | 0 <= k < |old(submissions)| ensures Cancelled(batches, old(submissions)[k]) {
        CancelledStays(ending, batches, old(submissions)[k]);
      }
      EndedMeans(Now());
    }

    ghost method End()
      requires Valid() && Idle(Now())
      modifies this`ended, this`run
      ensures Valid() && old(run) <= run && ended
    {
      hide Inv, IsRun;
      ended := true;
      Note(Ending);
    }

    method FinishAll()
      requires Valid() && queue == [] && !running
      modifies this
      ensures Valid() && old(run) <= run && queue == [] && pending == [] && !running
      ensures submissions == old(submissions)
      ensures forall k :: 0 <= k < |old(pending)| ==> Settled(batches, old(pending)[k], Some(ECANCELED))
    {
      hide Inv, IsRun, Settled, Keeps;
      while pending != []
        invariant Valid() && old(run) <= run && queue == [] && !running && submissions == old(submissions)
        invariant pending <= old(pending)
        invariant forall k :: |pending| <= k < |old(pending)| ==> Settled(batches, old(pending)[k], Some(ECANCELED))
        decreases |pending|
      {
        ghost var was := batches;
        FinishLast();
        forall k | |pending| < k < |old(pending)| ensures Settled(batches, old(pending)[k], Some(ECANCELED)) {
          SettledStays(was, batches, old(pending)[k], Some(ECANCELED));
        }
      }
    }

    /** The last request is ended; the mutex is free afterwards. */
    method FinishLast()
      requires Valid() && pending != [] && !running
      modifies this
      ensures Valid() && old(run) <= run && pending == old(pending)[..|old(pending)| - 1]
      ensures queue == old(queue) && submissions == old(submissions) && !running
      ensures Settled(batches, old(pending)[|old(pending)| - 1], Some(ECANCELED)) && KeepsAll(old(batches), batches)
    {
      hide Inv, IsRun, Settled, Keeps;
      FinishOne(|pending| - 1, Some(ECANCELED));
      ghost var was, before := batches, run;
      OthersSubmit();
      LongerRunKeeps(before, run);
      LongerRunKeeps(old(run), run);
      SettledStays(was, batches, old(pending)[|old(pending)| - 1], Some(ECANCELED));
    }

    /** Under the mutex, so that nobody submits meanwhile. */
    method CancelAll()
      requires Valid() && queue == [] && pending == [] && !running
      modifies this
      ensures Valid() && old(run) <= run && queue == [] && submissions == [] && pending == [] && !running
      ensures forall k :: 0 <= k < |old(submissions)| ==> Cancelled(batches, old(submissions)[k])
    {
      hide Inv, IsRun, Cancelled, Keeps;
      queue, submissions := submissions, [];
      Note(Taking);
      ghost var n := 0;
      while queue != []
        invariant Valid() && old(run) <= run && submissions == [] && pending == [] && !running
        invariant n <= |old(submissions)| && queue == old(submissions)[n..]
        invariant forall k :: 0 <= k < n ==> Cancelled(batches, old(submissions)[k])
        decreases |queue|
      {
        ghost var was := batches;
        CancelNext();
        forall k | 0 <= k < n ensures Cancelled(batches, old(submissions)[k]) {
          CancelledStays(was, batches, old(submissions)[k]);
        }
        n := n + 1;
      }
    }

    method CancelNext()
      requires Valid() && queue != [] && !running
      modifies this`queue, this`batches, this`run
      ensures Valid() && old(run) <= run && queue == old(queue)[1..]
      ensures Cancelled(batches, old(queue)[0]) && KeepsAll(old(batches), batches)
    {
      hide Inv, IsRun, Keeps, KeepsAll, Answer, SlotOf;
      HeadIsUntouched(Now());
      var b := queue[0];
      queue := queue[1..];
      batches := batches[b := Refused(batches[b], ECANCELED)];
      Note(Cancelling);
      LongerRunKeeps(old(run), run);
    }
  }

  /** The requests without a verdict, in their order. */
  function Remaining(pending: seq<Pending>, verdict: Pending -> Option<Errno>): seq<Pending> {
    if pending == [] then [] else
    (if verdict(pending[0]).None? then [pending[0]] else []) + Remaining(pending[1..], verdict)
  }

  /** What is left has no verdict, and everything without one is left. */
  lemma {:induction false} RemainingIs(pending: seq<Pending>, verdict: Pending -> Option<Errno>, p: Pending)
    ensures p in Remaining(pending, verdict) <==> p in pending && verdict(p).None?
  {
    if pending != [] { RemainingIs(pending[1..], verdict, p); }
  }

  lemma NothingRemains(pending: seq<Pending>, verdict: Pending -> Option<Errno>)
    ensures pending == pending[..|pending|] + Remaining(pending[|pending|..], verdict)
  {
  }

  /** One turn of the reverse loop, before and after entry i is looked at. */
  lemma ExpireStep(was: seq<Pending>, now: seq<Pending>, i: nat, verdict: Pending -> Option<Errno>)
    requires i < |was| && now == was[..i + 1] + Remaining(was[i + 1..], verdict)
    ensures i < |now| && now[i] == was[i]
    ensures (if verdict(was[i]).None? then now else now[..i] + now[i + 1..]) == was[..i] + Remaining(was[i..], verdict)
  {
    assert was[i..][1..] == was[i + 1..] && was[..i + 1] == was[..i] + [was[i]];
    var rest := Remaining(was[i + 1..], verdict);
    assert Remaining(was[i..], verdict) == (if verdict(was[i]).None? then [was[i]] else []) + rest;
  }

  /** What a pass makes of one request: it stays if it was sent before or no
      connection is ready, it is sent on the ready connection if it fits, and it is
      ended otherwise. */
  predicate Overfull(p: Pending, ready: HostId -> Option<nat>, fits: Pending -> bool) {
    !p.sent && ready(p.target.host).Some? && !fits(p)
  }

  function PassOne(p: Pending, ready: HostId -> Option<nat>, fits: Pending -> bool): seq<Pending> {
    if p.sent || ready(p.target.host).None? then [p] else
    if fits(p) then [p.(sent := true, connection := ready(p.target.host).value)] else []
  }

  function DepartOne(p: Pending, ready: HostId -> Option<nat>, fits: Pending -> bool): seq<Sent> {
    if !p.sent && ready(p.target.host).Some? && fits(p) then [Sent(p.target.host, p.id, p.goal)] else []
  }

  function Passed(pending: seq<Pending>, ready: HostId -> Option<nat>, fits: Pending -> bool): (r: seq<Pending>)
    ensures forall k :: 0 <= k < |r| ==> r[k].sent || ready(r[k].target.host).None?
  {
    if pending == [] then [] else
    Passed(pending[..|pending| - 1], ready, fits) + PassOne(pending[|pending| - 1], ready, fits)
  }

  function Departed(pending: seq<Pending>, ready: HostId -> Option<nat>, fits: Pending -> bool): seq<Sent> {
    if pending == [] then [] else
    Departed(pending[..|pending| - 1], ready, fits) + DepartOne(pending[|pending| - 1], ready, fits)
  }

  lemma NothingPassed(pending: seq<Pending>, ready: HostId -> Option<nat>, fits: Pending -> bool)
    ensures Passed(pending[..0], ready, fits) == [] && Departed(pending[..0], ready, fits) == []
  {
  }

  lemma PassedStep(pending: seq<Pending>, n: nat, ready: HostId -> Option<nat>, fits: Pending -> bool)
    ensures n < |pending| ==>
      && Passed(pending[..n + 1], ready, fits) == Passed(pending[..n], ready, fits) + PassOne(pending[n], ready, fits)
      && Departed(pending[..n + 1], ready, fits)
        == Departed(pending[..n], ready, fits) + DepartOne(pending[n], ready, fits)
  {
    if n < |pending| { assert pending[..n + 1][..n] == pending[..n]; }
  }

  /** One turn of the loop, at entry n of the old list, which is entry i of the new. */
  lemma FrontPasses(was: seq<Pending>, now: seq<Pending>, n: nat, i: nat, ready: HostId -> Option<nat>,
                    fits: Pending -> bool)
    requires n <= |was| && i < |now| && i == |Passed(was[..n], ready, fits)|
    requires now == Passed(was[..n], ready, fits) + was[n..]
    ensures n < |was| && now[i] == was[n]
    ensures forall k :: 0 <= k < i ==> now[k].sent || ready(now[k].target.host).None?
    ensures now[..i] + PassOne(was[n], ready, fits) + now[i + 1..] == Passed(was[..n + 1], ready, fits) + was[n + 1..]
  {
    hide PassOne;
    PassedStep(was, n, ready, fits);
    hide Passed;
    assert now[..i] == Passed(was[..n], ready, fits) && now[i + 1..] == was[n + 1..];
  }

  /** Losing a connection ends what was sent on it. */
  function ResetOn(connection: nat): Pending -> Option<Errno> {
    (p: Pending) => if p.sent && p.connection == connection then Some(ECONNRESET) else None
  }

  predicate IsFor(p: Pending, connection: nat, id: u64) { p.sent && p.connection == connection && p.id == id }

  lemma IdsDiffer(s: State)
    requires Inv(s)
    ensures forall i, j :: 0 <= i < j < |s.pending| ==> s.pending[i].id != s.pending[j].id
  {
  }

  lemma FinishingActs(s: State, i: nat, error: Option<Errno>)
    requires i < |s.pending| && SlotOf(s.batches, s.pending[i]) && s.batches[s.pending[i].batch].left > 0
    ensures Enabled(s, Finishing(i, error)) && Act(s, Finishing(i, error)) == Finish(s, i, error)
  {
  }

  lemma AdmittingActs(s: State, targets: seq<Target>, none: Errno, outgoing: nat)
    requires s.queue != [] && s.queue[0] in s.batches
    ensures var m := Admitting(targets, none, outgoing);
      Enabled(s, m) && Act(s, m) == AdmitHead(s, targets, none, outgoing)
  {
  }

  lemma AdmitKeepsBelow(s: State, targets: seq<Target>, none: Errno, outgoing: nat, n: nat)
    requires s.queue != [] && s.queue[0] in s.batches && Below(s, n)
    ensures Below(AdmitHead(s, targets, none, outgoing), n)
  {
    AdmittedBatches(s, targets, none, outgoing);
    hide AdmitHead;
  }

  lemma HeadIsBatch(s: State)
    requires Inv(s) && s.queue != []
    ensures s.queue[0] in s.batches
  {
    assert (s.submissions + s.queue)[|s.submissions|] == s.queue[0];
  }

  lemma EndedMeans(s: State)
    requires Inv(s)
    ensures s.ended ==> forall b :: b in s.batches ==> s.batches[b].promised == 1 && HasResults(s, b)
  {
    if s.ended {
      forall b | b in s.batches ensures s.batches[b].promised == 1 && HasResults(s, b) { PromiseIsExact(s, b); }
    }
  }

  /** The queue admitted from head to tail. */
  function AdmitAll(s: State, selects: BatchId -> (seq<Target>, Errno), outgoing: nat): State
    decreases |s.queue|
  {
    if s.queue == [] || s.queue[0] !in s.batches then s else
    AdmitAll(AdmitHead(s, selects(s.queue[0]).0, selects(s.queue[0]).1, outgoing), selects, outgoing)
  }
}
