/** The action server: the life of a goal, and the status publisher that drains
    the latest state while any number of threads change it. */
module ActionServer {
  import opened Wire

  datatype GoalState = IDLE | ACCEPTED | RUNNING | SUCCEEDED | FAILED | CANCELED

  predicate Terminal(s: GoalState) { s == SUCCEEDED || s == FAILED || s == CANCELED }
  predicate Active(s: GoalState) { s == ACCEPTED || s == RUNNING }

  datatype Header = Header(goalId: u64, state: GoalState, cancelRequested: bool, feedbackSequence: u64)

  /** What the mutex protects, apart from the publisher's own fields. Feedback and
      result values are opaque numbers; 0 is a default feedback. */
  datatype Goal = Goal(
    header: Header, feedback: nat, result: Option<nat>, previousId: u64, decisionId: u64, decision: Option<Errno>)

  const NO_GOAL := Goal(Header(0, IDLE, false, 0), 0, None, 0, 0, None)

  // ---------------------------------------------------------------------
  // Operations under the mutex
  // ---------------------------------------------------------------------

  datatype Verdict = Refuse(error: Errno) | AlreadyAccepted | Repeat(decision: Option<Errno>) | Ask

  /** The first half of a goal request: what is answered without asking the
      application. */
  function Check(g: Goal, id: u64): Verdict {
    if id == 0 then Refuse(EINVAL)
    else if id == g.header.goalId || id == g.previousId then AlreadyAccepted
    else if id == g.decisionId then Repeat(g.decision)
    else if Active(g.header.state) then Refuse(EBUSY)
    else Ask
  }

  /** The second half, with the application's decision. */
  function Decide(g: Goal, id: u64, error: Option<Errno>): Goal {
    if error.Some? then g.(decisionId := id, decision := error)
    else Goal(Header(id, ACCEPTED, false, 0), 0, None, g.header.goalId, id, None)
  }

  datatype Op =
    | Cancel(id: u64)
    | Start(id: u64)
    | Feedback(id: u64, value: nat)
    | Finish(id: u64, value: nat, state: GoalState)

  /** The outcome of an operation; `changed` asks for a flush. */
  datatype Outcome = Outcome(goal: Goal, error: Option<Errno>, changed: bool)

  function Apply(g: Goal, op: Op): Outcome
    requires op.Finish? ==> Terminal(op.state)
  {
    var h := g.header;
    if op.id == 0 || op.id != h.goalId then Outcome(g, Some(ENOENT), false) else
    match op
    case Cancel(_) =>
      if h.cancelRequested then Outcome(g, None, false)
      else if !Active(h.state) then Outcome(g, Some(EINVAL), false)
      else Outcome(g.(header := h.(cancelRequested := true)), None, true)
    case Start(_) =>
      if h.state != ACCEPTED || h.cancelRequested then Outcome(g, Some(EINVAL), false)
      else Outcome(g.(header := h.(state := RUNNING)), None, true)
    case Feedback(_, value) =>
      if h.state != RUNNING then Outcome(g, Some(EINVAL), false)
      else if h.feedbackSequence == U64_MAX then Outcome(g, Some(EOVERFLOW), false)
      else Outcome(g.(header := h.(feedbackSequence := h.feedbackSequence + 1), feedback := value), None, true)
    case Finish(_, value, state) =>
      if (if state == CANCELED then !h.cancelRequested || !Active(h.state) else h.state != RUNNING)
      then Outcome(g, Some(EINVAL), false)
      else Outcome(g.(header := h.(state := state), result := Some(value)), None, true)
  }

  datatype ResultAnswer = NoSuchGoal | InProgress(state: GoalState) | Ready(state: GoalState, value: nat)

  function GetResult(g: Goal, id: u64): ResultAnswer {
    if id == 0 || id != g.header.goalId then NoSuchGoal
    else if g.result.None? then InProgress(g.header.state)
    else Ready(g.header.state, g.result.value)
  }

  // ---------------------------------------------------------------------
  // The life of a goal
  // ---------------------------------------------------------------------

  predicate GoalOk(g: Goal) {
    && (g.header.goalId == 0 <==> g.header.state == IDLE)
    && (g.result.Some? <==> Terminal(g.header.state))
    && (g.header.state == CANCELED ==> g.header.cancelRequested)
    && (g.header.goalId != 0 ==> g.header.goalId != g.previousId)
  }

  function Rank(s: GoalState): nat {
    if s == IDLE then 0 else if s == ACCEPTED then 1 else if s == RUNNING then 2 else 3
  }

  /** Within one goal the state only advances, feedback only grows, a requested
      cancellation stays, and a terminal state with its result is final. */
  ghost predicate Advances(g: Goal, g': Goal) {
    && g'.header.goalId == g.header.goalId && g'.previousId == g.previousId
    && Rank(g.header.state) <= Rank(g'.header.state)
    && g.header.feedbackSequence <= g'.header.feedbackSequence
    && (g.header.cancelRequested ==> g'.header.cancelRequested)
    && (Terminal(g.header.state) ==>
      g'.header.state == g.header.state && g'.result == g.result && g'.feedback == g.feedback)
  }

  lemma ApplyAdvances(g: Goal, op: Op)
    requires GoalOk(g) && (op.Finish? ==> Terminal(op.state))
    ensures var o := Apply(g, op);
      && GoalOk(o.goal) && Advances(g, o.goal)
      && (o.error.Some? || !o.changed ==> o.goal == g)
      && (o.changed ==> o.goal.header != g.header)
  {
  }

  /** The result is ready exactly for a current goal that reached a terminal state. */
  lemma ReadyIff(g: Goal, id: u64)
    requires GoalOk(g)
    ensures GetResult(g, id).Ready? <==> id != 0 && id == g.header.goalId && Terminal(g.header.state)
  {
  }

  // ---------------------------------------------------------------------
  // Threads
  // ---------------------------------------------------------------------

  type ThreadId = nat

  /** Where a thread is: with nothing to do, between its update and its flush,
      publishing a copy outside the lock, or back from the publisher. */
  datatype Phase = Idle | Owes | Publishing(copy: Snapshot) | Returned(copy: Snapshot, ok: bool)

  datatype Snapshot = Snapshot(revision: nat, header: Header, feedback: nat)

  /** `deciding` is the goal request that the service thread has put to the
      application. `published` are the successful publications, `last` the outcome
      of the latest attempt. */
  datatype Server = Server(
    goal: Goal, revision: nat, publishing: bool, threads: map<ThreadId, Phase>, deciding: Option<u64>,
    published: seq<Snapshot>, last: Option<bool>)

  function Copy(s: Server): Snapshot { Snapshot(s.revision, s.goal.header, s.goal.feedback) }

  function PhaseOf(s: Server, t: ThreadId): Phase { if t in s.threads then s.threads[t] else Idle }

  function Goto(s: Server, t: ThreadId, p: Phase): Server { s.(threads := s.threads[t := p]) }

  datatype Move =
    | RequestGoal(id: u64)
    | DecideGoal(t: ThreadId, error: Option<Errno>)
    | Operate(t: ThreadId, op: Op)
    | AskFlush(t: ThreadId)             // the flush at creation
    | EnterFlush(t: ThreadId)
    | PublishEnds(t: ThreadId, ok: bool)
    | LockAgain(t: ThreadId)

  predicate Enabled(s: Server, m: Move) {
    match m
    case RequestGoal(id) => s.deciding.None?
    case DecideGoal(t, e) => s.deciding.Some? && PhaseOf(s, t).Idle?
    case Operate(t, op) => PhaseOf(s, t).Idle? && (op.Finish? ==> Terminal(op.state))
    case AskFlush(t) => PhaseOf(s, t).Idle?
    case EnterFlush(t) => PhaseOf(s, t).Owes?
    case PublishEnds(t, ok) => PhaseOf(s, t).Publishing?
    case LockAgain(t) => PhaseOf(s, t).Returned?
  }

  function Act(s: Server, m: Move): Server
    requires Enabled(s, m)
  {
    match m
    case RequestGoal(id) => if Check(s.goal, id).Ask? then s.(deciding := Some(id)) else s
    case DecideGoal(t, e) =>
      var decided := s.(goal := Decide(s.goal, s.deciding.value, e), deciding := None);
      if e.Some? then decided else Goto(decided.(revision := s.revision + 1), t, Owes)
    case Operate(t, op) =>
      var o := Apply(s.goal, op);
      if o.changed then Goto(s.(goal := o.goal, revision := s.revision + 1), t, Owes) else s
    case AskFlush(t) => Goto(s, t, Owes)
    case EnterFlush(t) =>
      if s.publishing then Goto(s, t, Idle) else Goto(s.(publishing := true), t, Publishing(Copy(s)))
    case PublishEnds(t, ok) =>
      var c := PhaseOf(s, t).copy;
      Goto(s.(published := if ok then s.published + [c] else s.published, last := Some(ok)), t, Returned(c, ok))
    case LockAgain(t) =>
      var p := PhaseOf(s, t);
      if !p.ok || p.copy.revision == s.revision then Goto(s.(publishing := false), t, Idle)
      else Goto(s, t, Publishing(Copy(s)))
  }

  // ---------------------------------------------------------------------
  // Invariant
  // ---------------------------------------------------------------------

  predicate InFlush(p: Phase) { p.Publishing? || p.Returned? }

  /** At most one thread is inside the flush loop, exactly while `publishing`. */
  ghost predicate OnePublisher(s: Server) {
    && (forall t, u :: InFlush(PhaseOf(s, t)) && InFlush(PhaseOf(s, u)) ==> t == u)
    && (s.publishing <==> exists t :: InFlush(PhaseOf(s, t)))
  }

  /** Published revisions never go backwards, and none is from the future. */
  ghost predicate InOrder(s: Server) {
    && (forall i, j :: 0 <= i < j < |s.published| ==> s.published[i].revision <= s.published[j].revision)
    && (forall i :: 0 <= i < |s.published| ==> s.published[i].revision <= s.revision)
    && (forall i :: 0 <= i < |s.published| && s.published[i].revision == s.revision ==> s.published[i] == Copy(s))
    && forall t :: InFlush(PhaseOf(s, t)) ==>
         && PhaseOf(s, t).copy.revision <= s.revision
         && (PhaseOf(s, t).copy.revision == s.revision ==> PhaseOf(s, t).copy == Copy(s))
         && forall i :: 0 <= i < |s.published| ==> s.published[i].revision <= PhaseOf(s, t).copy.revision
  }

  ghost predicate UpToDate(s: Server) { s.published != [] && s.published[|s.published| - 1] == Copy(s) }

  /** A stale publication is someone's business: whoever is in the loop, or a
      thread that has still to call it. */
  ghost predicate Tended(s: Server) {
    && (!s.publishing && s.last == Some(true) ==> UpToDate(s) || exists t :: PhaseOf(s, t).Owes?)
    && (forall t :: PhaseOf(s, t).Returned? ==> s.last == Some(PhaseOf(s, t).ok))
    && (forall t :: PhaseOf(s, t).Returned? && PhaseOf(s, t).ok ==>
          s.published != [] && s.published[|s.published| - 1] == PhaseOf(s, t).copy)
  }

  ghost predicate Inv(s: Server) {
    && GoalOk(s.goal) && OnePublisher(s) && InOrder(s) && Tended(s)
    && (s.deciding.Some? ==> !Active(s.goal.header.state) && s.deciding.value != 0
                             && s.deciding.value != s.goal.header.goalId && s.deciding.value != s.goal.previousId)
  }

  /** An update, by a thread that then owes a flush. */
  lemma UpdateKeeps(s: Server, s': Server, t: ThreadId)
    requires OnePublisher(s) && InOrder(s) && Tended(s) && PhaseOf(s, t).Idle?
    requires s'.revision == s.revision + 1 && s'.threads == s.threads[t := Owes]
    requires s'.publishing == s.publishing && s'.published == s.published && s'.last == s.last
    ensures OnePublisher(s') && InOrder(s') && Tended(s')
  {
    assert forall u :: PhaseOf(s', u) == if u == t then Owes else PhaseOf(s, u);
    if s.publishing {
      var u :| InFlush(PhaseOf(s, u));
      assert InFlush(PhaseOf(s', u));
    }
    assert PhaseOf(s', t).Owes?;
  }

  lemma DecideKeeps(s: Server, t: ThreadId, e: Option<Errno>)
    requires Inv(s) && Enabled(s, DecideGoal(t, e))
    ensures Inv(Act(s, DecideGoal(t, e)))
  {
    var s' := Act(s, DecideGoal(t, e));
    if e.None? {
      UpdateKeeps(s, s', t);
    } else {
      assert forall u :: PhaseOf(s', u) == PhaseOf(s, u);
      assert Copy(s') == Copy(s);
    }
  }

  lemma OperateKeeps(s: Server, t: ThreadId, op: Op)
    requires Inv(s) && Enabled(s, Operate(t, op))
    ensures Inv(Act(s, Operate(t, op)))
  {
    ApplyAdvances(s.goal, op);
    var s' := Act(s, Operate(t, op));
    if Apply(s.goal, op).changed { UpdateKeeps(s, s', t); }
  }

  lemma AskFlushKeeps(s: Server, t: ThreadId)
    requires Inv(s) && Enabled(s, AskFlush(t))
    ensures Inv(Act(s, AskFlush(t)))
  {
    var s' := Act(s, AskFlush(t));
    assert forall u :: PhaseOf(s', u) == if u == t then Owes else PhaseOf(s, u);
    assert PhaseOf(s', t).Owes? && Copy(s') == Copy(s);
    if s.publishing {
      var u :| InFlush(PhaseOf(s, u));
      assert InFlush(PhaseOf(s', u));
    }
  }

  lemma EnterKeeps(s: Server, t: ThreadId)
    requires Inv(s) && Enabled(s, EnterFlush(t))
    ensures Inv(Act(s, EnterFlush(t)))
  {
    var s' := Act(s, EnterFlush(t));
    assert Copy(s') == Copy(s);
    if s.publishing {
      assert forall u :: PhaseOf(s', u) == if u == t then Idle else PhaseOf(s, u);
      var u :| InFlush(PhaseOf(s, u));
      assert InFlush(PhaseOf(s', u));
    } else {
      assert forall u :: PhaseOf(s', u) == if u == t then Publishing(Copy(s)) else PhaseOf(s, u);
      assert InFlush(PhaseOf(s', t));
    }
  }

  lemma PublishEndsKeeps(s: Server, t: ThreadId, ok: bool)
    requires Inv(s) && Enabled(s, PublishEnds(t, ok))
    ensures Inv(Act(s, PublishEnds(t, ok)))
  {
    var s', c := Act(s, PublishEnds(t, ok)), PhaseOf(s, t).copy;
    assert InFlush(PhaseOf(s, t)) && Copy(s') == Copy(s);
    assert forall u :: PhaseOf(s', u) == if u == t then Returned(c, ok) else PhaseOf(s, u);
    assert InFlush(PhaseOf(s', t));
  }

  lemma LockAgainKeeps(s: Server, t: ThreadId)
    requires Inv(s) && Enabled(s, LockAgain(t))
    ensures Inv(Act(s, LockAgain(t)))
  {
    var s', p := Act(s, LockAgain(t)), PhaseOf(s, t);
    assert InFlush(PhaseOf(s, t)) && Copy(s') == Copy(s);
    if !p.ok || p.copy.revision == s.revision {
      assert forall u :: PhaseOf(s', u) == if u == t then Idle else PhaseOf(s, u);
    } else {
      assert forall u :: PhaseOf(s', u) == if u == t then Publishing(Copy(s)) else PhaseOf(s, u);
      assert InFlush(PhaseOf(s', t));
    }
  }

  lemma ActKeeps(s: Server, m: Move)
    requires Inv(s) && Enabled(s, m)
    ensures Inv(Act(s, m))
  {
    match m
    case RequestGoal(id) =>
      var s' := Act(s, m);
      assert forall u :: PhaseOf(s', u) == PhaseOf(s, u);
      assert Copy(s') == Copy(s);
    case DecideGoal(t, e) => DecideKeeps(s, t, e);
    case Operate(t, op) => OperateKeeps(s, t, op);
    case AskFlush(t) => AskFlushKeeps(s, t);
    case EnterFlush(t) => EnterKeeps(s, t);
    case PublishEnds(t, ok) => PublishEndsKeeps(s, t, ok);
    case LockAgain(t) => LockAgainKeeps(s, t);
  }

  // ---------------------------------------------------------------------
  // Runs
  // ---------------------------------------------------------------------

  const START := Server(NO_GOAL, 0, false, map[], None, [], None)

  ghost predicate IsRun(run: seq<Server>, moves: seq<Move>) {
    && |run| == |moves| + 1 && run[0] == START
    && forall i :: 0 <= i < |moves| ==> Enabled(run[i], moves[i]) && run[i + 1] == Act(run[i], moves[i])
  }

  lemma {:induction false} RunKeepsInv(run: seq<Server>, moves: seq<Move>, i: nat)
    requires IsRun(run, moves) && i < |run|
    ensures Inv(run[i])
  {
    if i == 0 {
      assert forall t :: PhaseOf(run[0], t).Idle?;
    } else {
      hide Inv, Act, Enabled;
      RunKeepsInv(run, moves, i - 1);
      assert run[i - 1 + 1] == Act(run[i - 1], moves[i - 1]);
      ActKeeps(run[i - 1], moves[i - 1]);
    }
  }

  /** In every run with any number of threads: one publisher at a time, revisions
      in order, and once everything is quiet after a successful publication, what
      was published last is the current state. */
  lemma FlushIsSafe(run: seq<Server>, moves: seq<Move>, i: nat)
    requires IsRun(run, moves) && i < |run|
    ensures OnePublisher(run[i])
    ensures forall j, k :: 0 <= j < k < |run[i].published| ==>
        run[i].published[j].revision <= run[i].published[k].revision
    ensures !run[i].publishing && (forall t :: !PhaseOf(run[i], t).Owes?) && run[i].last == Some(true) ==>
      run[i].published != [] && run[i].published[|run[i].published| - 1] == Copy(run[i])
  {
    RunKeepsInv(run, moves, i);
  }

  /** A goal is replaced only by a decision, and never while it is active. */
  lemma GoalsAreSerial(run: seq<Server>, moves: seq<Move>, i: nat)
    requires IsRun(run, moves) && i < |moves|
    ensures var g, g' := run[i].goal, run[i + 1].goal;
      Advances(g, g') || (!Active(g.header.state) && g'.header.state == ACCEPTED && g'.previousId == g.header.goalId
                          && g'.header.goalId != g.header.goalId && g'.header.goalId != g.previousId)
  {
    RunKeepsInv(run, moves, i);
    match moves[i]
    case Operate(t, op) => ApplyAdvances(run[i].goal, op);
    case _ =>
  }

  /** Step i puts the goal id to the application. */
  predicate Asks(run: seq<Server>, moves: seq<Move>, i: nat, id: u64)
    requires |run| == |moves| + 1
  {
    i < |moves| && moves[i] == RequestGoal(id) && Check(run[i].goal, id).Ask?
  }

  predicate Accepts(m: Move) { m.DecideGoal? && m.error.None? }

  /** How many of the moves from i up to j are decisions, and acceptances. */
  function Decisions(moves: seq<Move>, i: nat, j: nat): nat
    requires i <= j <= |moves|
  {
    if i == j then 0 else Decisions(moves, i, j - 1) + if moves[j - 1].DecideGoal? then 1 else 0
  }

  function Acceptances(moves: seq<Move>, i: nat, j: nat): nat
    requires i <= j <= |moves|
  {
    if i == j then 0 else Acceptances(moves, i, j - 1) + if Accepts(moves[j - 1]) then 1 else 0
  }

  /** What the server still knows of a goal that was decided at step d. */
  lemma {:induction false} Remembers(run: seq<Server>, moves: seq<Move>, d: nat, j: nat)
    requires IsRun(run, moves) && d < j < |run| && moves[d].DecideGoal?
    ensures run[d].deciding.Some?
    ensures var id, g := run[d].deciding.value, run[j].goal;
      if moves[d].error.Some? then Decisions(moves, d + 1, j) == 0 ==> g.decisionId == id
      else (Acceptances(moves, d + 1, j) == 0 ==> g.header.goalId == id)
           && (Acceptances(moves, d + 1, j) == 1 ==> g.previousId == id)
  {
    assert Enabled(run[d], moves[d]) && run[d + 1] == Act(run[d], moves[d]);
    if d + 1 < j {
      Remembers(run, moves, d, j - 1);
      assert run[j - 1 + 1] == Act(run[j - 1], moves[j - 1]);
    }
  }

  /** A question stays open until its decision. */
  lemma {:induction false} Decided(run: seq<Server>, moves: seq<Move>, i: nat, j: nat, id: u64) returns (d: nat)
    requires IsRun(run, moves) && Asks(run, moves, i, id) && i < j < |run| && run[j].deciding.None?
    ensures i < d < j && moves[d].DecideGoal? && run[d].deciding == Some(id)
  {
    var k := i + 1;
    assert run[i + 1] == Act(run[i], moves[i]);
    while !moves[k].DecideGoal?
      invariant i < k < j && run[k].deciding == Some(id)
      decreases j - k
    {
      assert Enabled(run[k], moves[k]) && run[k + 1] == Act(run[k], moves[k]);
      k := k + 1;
    }
    d := k;
  }

  /** In every run: if the application is asked twice for one goal id, its answer to
      the first question was given in between; and after that answer came at least
      two acceptances of goals if it was yes, and at least one decision if it was no. */
  lemma AskedAgain(run: seq<Server>, moves: seq<Move>, i: nat, j: nat, id: u64) returns (d: nat)
    requires IsRun(run, moves) && i < j && Asks(run, moves, i, id) && Asks(run, moves, j, id)
    ensures i < d < j && moves[d].DecideGoal? && run[d].deciding == Some(id)
    ensures if Accepts(moves[d]) then Acceptances(moves, d + 1, j) >= 2 else Decisions(moves, d + 1, j) >= 1
  {
    assert Enabled(run[j], moves[j]);
    d := Decided(run, moves, i, j, id);
    Remembers(run, moves, d, j);
  }

  /** No decision about this goal id between step d and step j. */
  predicate NoneSince(run: seq<Server>, moves: seq<Move>, d: nat, j: nat, id: u64)
    requires |run| == |moves| + 1 && d <= j <= |moves|
  {
    forall k :: d <= k < j && moves[k].DecideGoal? ==> run[k].deciding != Some(id)
  }

  lemma ApplyKeepsIds(g: Goal, op: Op)
    requires op.Finish? ==> Terminal(op.state)
    ensures var h := Apply(g, op).goal;
      && h.header.goalId == g.header.goalId && h.previousId == g.previousId
      && h.decisionId == g.decisionId && h.decision == g.decision
  {
  }

  /** What a move that is not a decision about this id does to what is known of it. */
  lemma OtherMove(s: Server, m: Move, id: u64)
    requires Enabled(s, m) && (m.DecideGoal? ==> s.deciding != Some(id))
    ensures var g, g' := s.goal, Act(s, m).goal;
      && (g'.decisionId == id <==> g.decisionId == id && !m.DecideGoal?)
      && (!m.DecideGoal? ==> g'.decision == g.decision)
      && (g'.header.goalId == id <==> g.header.goalId == id && !Accepts(m))
      && (g'.previousId == id <==> if Accepts(m) then g.header.goalId == id else g.previousId == id)
  {
    if m.Operate? { ApplyKeepsIds(s.goal, m.op); }
  }

  /** Exactly what the server knows of a goal whose last decision was at step d: as
      long as it repeats that decision it repeats it as it was. */
  lemma {:induction false} KnowsExactly(run: seq<Server>, moves: seq<Move>, d: nat, j: nat, id: u64)
    requires IsRun(run, moves) && d < j < |run| && moves[d].DecideGoal? && run[d].deciding == Some(id)
    requires NoneSince(run, moves, d + 1, j, id)
    ensures var g, n := run[j].goal, Acceptances(moves, d + 1, j);
      && (g.decisionId == id <==> Decisions(moves, d + 1, j) == 0)
      && (g.decisionId == id ==> g.decision == moves[d].error)
      && (g.header.goalId == id <==> Accepts(moves[d]) && n == 0)
      && (g.previousId == id <==> Accepts(moves[d]) && n == 1)
  {
    if d + 1 == j {
      RunKeepsInv(run, moves, d);
      assert Enabled(run[d], moves[d]) && run[d + 1] == Act(run[d], moves[d]);
    } else {
      KnowsExactly(run, moves, d, j - 1, id);
      assert Enabled(run[j - 1], moves[j - 1]) && run[j - 1 + 1] == Act(run[j - 1], moves[j - 1]);
      hide Act, Enabled;
      OtherMove(run[j - 1], moves[j - 1], id);
    }
  }

  lemma {:induction false} AcceptancesAreDecisions(moves: seq<Move>, i: nat, j: nat)
    requires i <= j <= |moves|
    ensures Acceptances(moves, i, j) <= Decisions(moves, i, j)
  {
    if i < j { AcceptancesAreDecisions(moves, i, j - 1); }
  }

  /** In every run: when a goal id has been decided before, last at step d, the
      application would be asked about it again if and only if no goal is active and,
      since then, two goals were accepted if the answer was yes, or one decision was
      made if it was no; until then the answer is repeated. */
  lemma AskedAgainIff(run: seq<Server>, moves: seq<Move>, d: nat, j: nat, id: u64)
    requires IsRun(run, moves) && d < j < |run| && moves[d].DecideGoal? && run[d].deciding == Some(id)
    requires NoneSince(run, moves, d + 1, j, id)
    ensures Check(run[j].goal, id).Ask? <==>
      && !Active(run[j].goal.header.state)
      && (if Accepts(moves[d]) then Acceptances(moves, d + 1, j) >= 2 else Decisions(moves, d + 1, j) >= 1)
    ensures Check(run[j].goal, id) ==
      if Accepts(moves[d]) && Acceptances(moves, d + 1, j) <= 1 then AlreadyAccepted
      else if Decisions(moves, d + 1, j) == 0 then Repeat(moves[d].error)
      else if Active(run[j].goal.header.state) then Refuse(EBUSY) else Ask
  {
    KnowsExactly(run, moves, d, j, id);
    AcceptancesAreDecisions(moves, d + 1, j);
    RunKeepsInv(run, moves, d);
  }

  /** And about one that was never decided exactly between goals. */
  lemma {:induction false} NewGoalIsAsked(run: seq<Server>, moves: seq<Move>, j: nat, id: u64)
    requires IsRun(run, moves) && j < |run| && id != 0 && NoneSince(run, moves, 0, j, id)
    ensures run[j].goal.decisionId != id && run[j].goal.header.goalId != id && run[j].goal.previousId != id
    ensures Check(run[j].goal, id).Ask? <==> !Active(run[j].goal.header.state)
  {
    if j > 0 {
      NewGoalIsAsked(run, moves, j - 1, id);
      assert Enabled(run[j - 1], moves[j - 1]) && run[j - 1 + 1] == Act(run[j - 1], moves[j - 1]);
      hide Act, Enabled;
      OtherMove(run[j - 1], moves[j - 1], id);
    }
  }

  // ---------------------------------------------------------------------
  // The object
  // ---------------------------------------------------------------------

  /** What another thread may do: an operation, or the decision about a goal that the
      service thread has put to the application. */
  datatype Update = Does(op: Op) | Decides(id: u64, error: Option<Errno>)

  predicate Proper(u: Update) { u.Does? && u.op.Finish? ==> Terminal(u.op.state) }

  function Updated(g: Goal, u: Update): Outcome
    requires Proper(u)
  {
    match u
    case Does(op) => Apply(g, op)
    case Decides(id, error) =>
      if Check(g, id).Ask? then Outcome(Decide(g, id, error), error, error.None?) else Outcome(g, None, false)
  }

  lemma UpdatedIsOk(g: Goal, u: Update)
    requires GoalOk(g) && Proper(u)
    ensures var o := Updated(g, u);
      GoalOk(o.goal) && (!o.changed ==> o.goal.header == g.header && o.goal.feedback == g.feedback)
  {
    if u.Does? { ApplyAdvances(g, u.op); }
  }

  /** What happens while one publication is under way outside the lock: its
      outcome, and the updates that other threads make meanwhile. */
  datatype Attempt = Attempt(ok: bool, meanwhile: seq<Update>)

  predicate AllProper(us: seq<Update>) { forall i :: 0 <= i < |us| ==> Proper(us[i]) }

  class Core {
    var goal: Goal
    var revision: nat
    var publishing: bool
    var published: seq<Snapshot>

    ghost predicate Valid()
      reads this
    {
      && GoalOk(goal)
      && (forall i :: 0 <= i < |published| ==> published[i].revision <= revision)
      && (forall i, j :: 0 <= i < j < |published| ==> published[i].revision <= published[j].revision)
    }

    constructor ()
      ensures Valid() && goal == NO_GOAL && revision == 0 && !publishing && published == []
    {
      goal, revision, publishing, published := NO_GOAL, 0, false, [];
    }

    /** One goal request, with the application's decision in case it is asked. */
    method GoalRequest(id: u64, decision: Option<Errno>) returns (accepted: bool, error: Option<Errno>)
      requires Valid()
      modifies this
      ensures Valid() && published == old(published)
      ensures match Check(old(goal), id)
        case Refuse(e) => !accepted && error == Some(e) && goal == old(goal) && revision == old(revision)
        case AlreadyAccepted => accepted && error == None && goal == old(goal) && revision == old(revision)
        case Repeat(d) => accepted == d.None? && error == d && goal == old(goal) && revision == old(revision)
        case Ask =>
          && accepted == decision.None? && error == decision && goal == Decide(old(goal), id, decision)
          && revision == old(revision) + if accepted then 1 else 0
    {
      if id == 0 { return false, Some(EINVAL); }
      if id == goal.header.goalId || id == goal.previousId { return true, None; }
      if id == goal.decisionId { return goal.decision.None?, goal.decision; }
      if goal.header.state == ACCEPTED || goal.header.state == RUNNING { return false, Some(EBUSY); }
      goal := goal.(decisionId := id, decision := decision);
      if decision.Some? { return false, decision; }
      goal := goal.(previousId := goal.header.goalId, header := Header(id, ACCEPTED, false, 0), feedback := 0,
          result := None);
      revision := revision + 1;
      return true, None;
    }

    /** `throws`: the application's callback fails. The request is accepted all the
        same. */
    method CancelRequest(id: u64, throws: bool) returns (accepted: bool, error: Option<Errno>)
      requires Valid()
      modifies this
      ensures Valid() && published == old(published)
      ensures var o := Apply(old(goal), Cancel(id));
        && goal == o.goal && revision == old(revision) + (if o.changed then 1 else 0) && accepted == o.error.None?
        && error == if o.changed && throws then Some(EFAULT) else o.error
    {
      if id == 0 || id != goal.header.goalId { return false, Some(ENOENT); }
      if goal.header.cancelRequested { return true, None; }
      if goal.header.state != ACCEPTED && goal.header.state != RUNNING { return false, Some(EINVAL); }
      goal := goal.(header := goal.header.(cancelRequested := true));
      revision := revision + 1;
      return true, if throws then Some(EFAULT) else None;
    }

    method StartGoal(id: u64) returns (error: Option<Errno>)
      requires Valid()
      modifies this
      ensures Valid() && published == old(published)
      ensures var o := Apply(old(goal), Start(id));
        goal == o.goal && error == o.error && revision == old(revision) + if o.changed then 1 else 0
    {
      if id == 0 || id != goal.header.goalId { return Some(ENOENT); }
      if goal.header.state != ACCEPTED || goal.header.cancelRequested { return Some(EINVAL); }
      goal := goal.(header := goal.header.(state := RUNNING));
      revision := revision + 1;
      return None;
    }

    method PublishFeedback(id: u64, value: nat) returns (error: Option<Errno>)
      requires Valid()
      modifies this
      ensures Valid() && published == old(published)
      ensures var o := Apply(old(goal), Feedback(id, value));
        goal == o.goal && error == o.error && revision == old(revision) + if o.changed then 1 else 0
    {
      if id == 0 || id != goal.header.goalId { return Some(ENOENT); }
      if goal.header.state != RUNNING { return Some(EINVAL); }
      if goal.header.feedbackSequence == U64_MAX { return Some(EOVERFLOW); }
      goal := goal.(feedback := value, header := goal.header.(feedbackSequence := goal.header.feedbackSequence + 1));
      revision := revision + 1;
      return None;
    }

    method FinishGoal(id: u64, value: nat, terminal: GoalState) returns (error: Option<Errno>)
      requires Valid() && Terminal(terminal)
      modifies this
      ensures Valid() && published == old(published)
      ensures var o := Apply(old(goal), Finish(id, value, terminal));
        goal == o.goal && error == o.error && revision == old(revision) + if o.changed then 1 else 0
    {
      if id == 0 || id != goal.header.goalId { return Some(ENOENT); }
      if terminal == CANCELED {
        if !goal.header.cancelRequested
            || (goal.header.state != ACCEPTED && goal.header.state != RUNNING) { return Some(EINVAL); }
      } else if goal.header.state != RUNNING {
        return Some(EINVAL);
      }
      goal := goal.(result := Some(value), header := goal.header.(state := terminal));
      revision := revision + 1;
      return None;
    }

    /** Updates by other threads. */
    method Meanwhile(us: seq<Update>)
      requires Valid() && AllProper(us)
      modifies this`goal, this`revision
      ensures Valid() && revision >= old(revision)
      ensures revision == old(revision) ==> goal.header == old(goal).header && goal.feedback == old(goal).feedback
      ensures us == [] ==> revision == old(revision)
    {
      for i := 0 to |us|
        invariant Valid() && revision >= old(revision) && (i == 0 ==> revision == old(revision))
        invariant revision == old(revision) ==> goal.header == old(goal).header && goal.feedback == old(goal).feedback
      {
        UpdatedIsOk(goal, us[i]);
        var o := Updated(goal, us[i]);
        goal := o.goal;
        if o.changed { revision := revision + 1; }
      }
    }

    /** The drain loop: it ends with a failed publication, or with the state that is
        current when the lock is taken back. */
    method Flush(attempts: seq<Attempt>) returns (ok: bool)
      requires Valid() && attempts != [] && attempts[|attempts| - 1].meanwhile == []
      requires forall i :: 0 <= i < |attempts| ==> AllProper(attempts[i].meanwhile)
      modifies this
      ensures Valid() && publishing == old(publishing) && old(published) <= published
      ensures old(publishing) ==> ok && published == old(published)
      ensures !old(publishing) && ok ==>
          published != [] && published[|published| - 1] == Snapshot(revision, goal.header, goal.feedback)
    {
      if publishing { return true; }
      publishing := true;
      var n := 0;
      while true
        invariant Valid() && publishing && n < |attempts| && old(published) <= published
        decreases |attempts| - n
      {
        var observed, header, feedback := revision, goal.header, goal.feedback;
        ok := attempts[n].ok;
        if ok { published := published + [Snapshot(observed, header, feedback)]; }
        Meanwhile(attempts[n].meanwhile);
        if !ok || observed == revision {
          publishing := false;
          return;
        }
        n := n + 1;
      }
    }
  }
}
