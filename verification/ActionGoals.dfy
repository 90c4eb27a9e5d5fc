/** A goal is what was done with it: over every run of the action server, its state,
    feedback and result follow from the operations that took effect since it was
    accepted, and the operations that take effect follow from those before. */
module ActionGoals {
  import opened Wire
  import opened ActionServer

  // ---------------------------------------------------------------------
  // What a sequence of operations means
  // ---------------------------------------------------------------------

  function Front(log: seq<Op>): seq<Op>
    requires log != []
  {
    log[..|log| - 1]
  }

  function Latest(log: seq<Op>): Op
    requires log != []
  {
    log[|log| - 1]
  }

  predicate Started(log: seq<Op>) { log != [] && (Latest(log).Start? || Started(Front(log))) }
  predicate CancelAsked(log: seq<Op>) { log != [] && (Latest(log).Cancel? || CancelAsked(Front(log))) }
  predicate Finished(log: seq<Op>) { log != [] && (Latest(log).Finish? || Finished(Front(log))) }

  function Finishes(log: seq<Op>): nat {
    if log == [] then 0 else Finishes(Front(log)) + if Latest(log).Finish? then 1 else 0
  }

  function Finisher(log: seq<Op>): (op: Op)
    requires Finished(log)
    ensures op.Finish?
  {
    if Latest(log).Finish? then Latest(log) else Finisher(Front(log))
  }

  function Feedbacks(log: seq<Op>): seq<nat> {
    if log == [] then [] else Feedbacks(Front(log)) + if Latest(log).Feedback? then [Latest(log).value] else []
  }

  /** The operation may take effect after these: a goal is started once, unless it is
      to be cancelled; it gives feedback while it runs; it ends once, as cancelled only
      if that was asked for, and otherwise only if it runs. */
  predicate Fits(log: seq<Op>, op: Op) {
    && !Finished(log)
    && match op
       case Cancel(_) => !CancelAsked(log)
       case Start(_) => !Started(log) && !CancelAsked(log)
       case Feedback(_, _) => Started(log) && |Feedbacks(log)| < U64_MAX
       case Finish(_, _, state) => Terminal(state) && if state == CANCELED then CancelAsked(log) else Started(log)
  }

  /** Operations on one goal, each one fitting after those before it. */
  predicate Lawful(log: seq<Op>, id: u64) {
    log == [] || (Lawful(Front(log), id) && Latest(log).id == id && Fits(Front(log), Latest(log)))
  }

  function StateOf(log: seq<Op>): GoalState {
    if Finished(log) then Finisher(log).state else if Started(log) then RUNNING else ACCEPTED
  }

  /** The goal is what the operations make of an accepted one. */
  predicate Reflects(g: Goal, id: u64, log: seq<Op>) {
    && g.header.goalId == id && g.header.state == StateOf(log) && g.header.cancelRequested == CancelAsked(log)
    && g.header.feedbackSequence == |Feedbacks(log)|
    && g.feedback == (if Feedbacks(log) == [] then 0 else Feedbacks(log)[|Feedbacks(log)| - 1])
    && g.result == (if Finished(log) then Some(Finisher(log).value) else None)
    && Lawful(log, id)
  }

  lemma OneMore(log: seq<Op>, op: Op)
    ensures Started(log + [op]) == (op.Start? || Started(log))
    ensures CancelAsked(log + [op]) == (op.Cancel? || CancelAsked(log))
    ensures Finished(log + [op]) == (op.Finish? || Finished(log))
    ensures Finished(log + [op]) ==> Finisher(log + [op]) == if op.Finish? then op else Finisher(log)
    ensures Feedbacks(log + [op]) == Feedbacks(log) + if op.Feedback? then [op.value] else []
    ensures forall id :: Lawful(log + [op], id) == (Lawful(log, id) && op.id == id && Fits(log, op))
  {
    assert Front(log + [op]) == log && Latest(log + [op]) == op;
  }

  /** An operation on the goal takes effect if and only if it fits, and then the goal
      is what one more operation makes of it. */
  lemma EffectIff(g: Goal, id: u64, log: seq<Op>, op: Op)
    requires Reflects(g, id, log) && id != 0 && (op.Finish? ==> Terminal(op.state))
    ensures Apply(g, op).changed <==> op.id == id && Fits(log, op)
    ensures Apply(g, op).changed ==> Reflects(Apply(g, op).goal, id, log + [op])
    ensures !Apply(g, op).changed ==> Apply(g, op).goal == g
  {
    StatesAre(log, id);
    OneMore(log, op);
    hide Started, CancelAsked, Finished, Finisher, Feedbacks, Lawful;
  }

  /** A finished goal is in a terminal state. */
  lemma {:induction false} StatesAre(log: seq<Op>, id: u64)
    requires Lawful(log, id)
    ensures Finished(log) ==> Terminal(Finisher(log).state)
  {
    if log != [] { StatesAre(Front(log), id); }
  }

  // ---------------------------------------------------------------------
  // Runs
  // ---------------------------------------------------------------------

  predicate Changes(run: seq<Server>, k: nat)
    requires k + 1 < |run|
  {
    run[k + 1].revision != run[k].revision
  }

  /** The operations that took effect since the last acceptance. */
  function Log(run: seq<Server>, moves: seq<Move>, n: nat): seq<Op>
    requires |run| == |moves| + 1 && n < |run|
  {
    if n == 0 || Accepts(moves[n - 1]) then []
    else if moves[n - 1].Operate? && Changes(run, n - 1) then Log(run, moves, n - 1) + [moves[n - 1].op]
    else Log(run, moves, n - 1)
  }

  /** The goal accepted last, and when. */
  function Accepted(run: seq<Server>, moves: seq<Move>, n: nat): (a: Option<nat>)
    requires |run| == |moves| + 1 && n < |run|
    ensures a.Some? ==> a.value < n
  {
    if n == 0 then None else if Accepts(moves[n - 1]) then Some(n - 1) else Accepted(run, moves, n - 1)
  }

  lemma {:induction false} AcceptedIs(run: seq<Server>, moves: seq<Move>, n: nat)
    requires |run| == |moves| + 1 && n < |run|
    ensures var a := Accepted(run, moves, n);
      && (a.Some? ==> Accepts(moves[a.value]))
      && forall k :: (if a.Some? then a.value + 1 else 0) <= k < n ==> !Accepts(moves[k])
  {
    if n > 0 && !Accepts(moves[n - 1]) { AcceptedIs(run, moves, n - 1); }
  }

  predicate GoalIs(run: seq<Server>, moves: seq<Move>, n: nat)
    requires |run| == |moves| + 1 && n < |run|
  {
    match Accepted(run, moves, n)
    case None =>
      && run[n].goal.header == NO_GOAL.header && run[n].goal.result.None? && run[n].goal.feedback == 0
      && Log(run, moves, n) == []
    case Some(a) =>
      && run[a].deciding.Some? && run[a].deciding.value != 0
      && Reflects(run[n].goal, run[a].deciding.value, Log(run, moves, n))
  }

  /** What one move does to the goal, and to the revision. */
  lemma StepGoal(s: Server, m: Move)
    requires Enabled(s, m)
    ensures var s' := Act(s, m);
      match m
      case Operate(t, op) =>
        var o := Apply(s.goal, op);
        if o.changed then s'.goal == o.goal && s'.revision == s.revision + 1
        else s'.goal == s.goal && s'.revision == s.revision
      case DecideGoal(t, e) =>
        && s.deciding.Some?
        && if e.Some?
           then s'.goal == s.goal.(decisionId := s.deciding.value, decision := e) && s'.revision == s.revision
           else
             && s'.goal.header == Header(s.deciding.value, ACCEPTED, false, 0) && s'.goal.result == None
             && s'.goal.feedback == 0 && s'.revision == s.revision + 1
      case _ => s'.goal == s.goal && s'.revision == s.revision
  {
    hide Apply, Check;
  }

  lemma DecidingIsId(s: Server)
    requires Inv(s) && s.deciding.Some?
    ensures s.deciding.value != 0
  {
  }

  /** In every run, at every time: the goal is exactly what the operations that took
      effect since its acceptance say, and each of them fitted. */
  lemma {:induction false} GoalIsItsLog(run: seq<Server>, moves: seq<Move>, n: nat)
    requires IsRun(run, moves) && n < |run|
    ensures GoalIs(run, moves, n)
  {
    hide Act, Enabled, Inv, Apply, Reflects;
    if n > 0 {
      GoalIsItsLog(run, moves, n - 1);
      var s, m := run[n - 1], moves[n - 1];
      assert Enabled(s, m) && run[n - 1 + 1] == Act(s, m);
      RunKeepsInv(run, moves, n - 1);
      StepGoal(s, m);
      var a, log := Accepted(run, moves, n - 1), Log(run, moves, n - 1);
      if Accepts(m) {
        DecidingIsId(s);
        FreshGoal(run[n].goal, s.deciding.value);
      } else if m.Operate? && a.Some? {
        OperateEnabled(s, m);
        EffectIff(s.goal, run[a.value].deciding.value, log, m.op);
      } else if m.Operate? {
        OperateEnabled(s, m);
        NothingToDo(s.goal, m.op);
      } else if a.Some? {
        SameReflects(s.goal, run[n].goal, run[a.value].deciding.value, log);
      }
    }
  }

  lemma OperateEnabled(s: Server, m: Move)
    requires m.Operate? && Enabled(s, m)
    ensures m.op.Finish? ==> Terminal(m.op.state)
  {
  }

  lemma FreshGoal(g: Goal, id: u64)
    requires g.header == Header(id, ACCEPTED, false, 0) && g.result == None && g.feedback == 0
    ensures Reflects(g, id, [])
  {
  }

  lemma NothingToDo(g: Goal, op: Op)
    requires g.header.goalId == 0 && (op.Finish? ==> Terminal(op.state))
    ensures !Apply(g, op).changed
  {
  }

  lemma SameReflects(g: Goal, h: Goal, id: u64, log: seq<Op>)
    requires Reflects(g, id, log) && h.header == g.header && h.result == g.result && h.feedback == g.feedback
    ensures Reflects(h, id, log)
  {
  }

  /** In every run: an operation takes effect if and only if it names the goal accepted
      last and fits after the operations that took effect since. */
  lemma TakesEffectIff(run: seq<Server>, moves: seq<Move>, n: nat)
    requires IsRun(run, moves) && n < |moves| && moves[n].Operate?
    ensures var a, op := Accepted(run, moves, n), moves[n].op;
      Changes(run, n) <==>
        && a.Some? && run[a.value].deciding == Some(op.id) && Fits(Log(run, moves, n), op)
    ensures !Changes(run, n) ==> run[n + 1].goal == run[n].goal
  {
    hide Act, Enabled, Inv, Apply, Reflects, Fits;
    GoalIsItsLog(run, moves, n);
    var s, m := run[n], moves[n];
    assert Enabled(s, m) && run[n + 1] == Act(s, m);
    StepGoal(s, m);
    OperateEnabled(s, m);
    var a, log := Accepted(run, moves, n), Log(run, moves, n);
    if a.Some? {
      EffectIff(s.goal, run[a.value].deciding.value, log, m.op);
    } else {
      NothingToDo(s.goal, m.op);
    }
  }

  /** What the caller is told: the goal is not the one accepted last; or there is no
      error, because the operation took effect or repeats a cancellation; or the
      feedback count is exhausted; or the goal is not in a state for it. */
  function Told(log: seq<Op>, names: bool, op: Op): Option<Errno> {
    if !names then Some(ENOENT)
    else if Fits(log, op) || (op.Cancel? && CancelAsked(log)) then None
    else if op.Feedback? && Started(log) && !Finished(log) then Some(EOVERFLOW)
    else Some(EINVAL)
  }

  lemma AnswerIs(g: Goal, id: u64, log: seq<Op>, op: Op)
    requires Reflects(g, id, log) && id != 0 && (op.Finish? ==> Terminal(op.state))
    ensures Apply(g, op).error == Told(log, op.id == id, op)
  {
    StatesAre(log, id);
    hide Started, CancelAsked, Finished, Finisher, Feedbacks, Lawful;
  }

  /** In every run: the answer to an operation follows from the operations before. */
  lemma AnswersFollow(run: seq<Server>, moves: seq<Move>, n: nat)
    requires IsRun(run, moves) && n < |moves| && moves[n].Operate?
    ensures var a, op := Accepted(run, moves, n), moves[n].op;
      && (op.Finish? ==> Terminal(op.state))
      && Apply(run[n].goal, op).error
        == Told(Log(run, moves, n), a.Some? && run[a.value].deciding == Some(op.id), op)
  {
    hide Act, Inv, Reflects, Fits;
    GoalIsItsLog(run, moves, n);
    assert Enabled(run[n], moves[n]);
    var a := Accepted(run, moves, n);
    if a.Some? { AnswerIs(run[n].goal, run[a.value].deciding.value, Log(run, moves, n), moves[n].op); }
  }

  // ---------------------------------------------------------------------
  // The result
  // ---------------------------------------------------------------------

  lemma {:induction false} FinishesOnce(log: seq<Op>, id: u64)
    requires Lawful(log, id)
    ensures Finishes(log) == if Finished(log) then 1 else 0
    ensures Finished(log) ==> Finisher(log).id == id
  {
    if log != [] {
      FinishesOnce(Front(log), id);
    }
  }

  /** Step k, with an operation that ends the goal, took effect. */
  predicate FinishedAt(run: seq<Server>, moves: seq<Move>, k: nat)
    requires |run| == |moves| + 1 && k < |moves|
  {
    moves[k].Operate? && moves[k].op.Finish? && Changes(run, k)
  }

  /** The steps of a log's end. */
  lemma {:induction false} FinishIsAStep(run: seq<Server>, moves: seq<Move>, n: nat) returns (k: nat)
    requires |run| == |moves| + 1 && n < |run| && Finished(Log(run, moves, n))
    ensures (if Accepted(run, moves, n).Some? then Accepted(run, moves, n).value + 1 else 0) <= k < n
    ensures FinishedAt(run, moves, k) && moves[k].op == Finisher(Log(run, moves, n))
  {
    AcceptedIs(run, moves, n);
    var m := moves[n - 1];
    if m.Operate? && Changes(run, n - 1) {
      OneMore(Log(run, moves, n - 1), m.op);
      if m.op.Finish? { return n - 1; }
    }
    k := FinishIsAStep(run, moves, n - 1);
  }

  /** As many steps that end the goal as its log has such operations. */
  lemma {:induction false} StepsAreLogged(run: seq<Server>, moves: seq<Move>, n: nat, j: nat, k: nat)
    requires |run| == |moves| + 1 && n < |run|
    requires (if Accepted(run, moves, n).Some? then Accepted(run, moves, n).value + 1 else 0) <= j <= k < n
    requires FinishedAt(run, moves, j) && FinishedAt(run, moves, k)
    ensures Finishes(Log(run, moves, n)) >= if j == k then 1 else 2
  {
    AcceptedIs(run, moves, n);
    var m, log := moves[n - 1], Log(run, moves, n - 1);
    AcceptedIs(run, moves, n - 1);
    if m.Operate? && Changes(run, n - 1) { assert Front(log + [m.op]) == log; }
    if k < n - 1 {
      StepsAreLogged(run, moves, n - 1, j, k);
    } else if j < n - 1 {
      StepsAreLogged(run, moves, n - 1, j, j);
    }
  }

  /** In every run: a result that is ready was given, as it is, by the one operation
      that ended the goal since its acceptance; and such an operation makes it ready. */
  lemma ResultIsTheFinish(run: seq<Server>, moves: seq<Move>, n: nat, id: u64) returns (a: nat, k: nat)
    requires IsRun(run, moves) && n < |run| && GetResult(run[n].goal, id).Ready?
    ensures var r := GetResult(run[n].goal, id);
      && a < k < n && Accepts(moves[a]) && run[a].deciding == Some(id) && FinishedAt(run, moves, k)
      && moves[k].op == Finish(id, r.value, r.state)
    ensures forall j :: a < j < n ==> !Accepts(moves[j]) && (FinishedAt(run, moves, j) ==> j == k)
  {
    GoalIsItsLog(run, moves, n);
    AcceptedIs(run, moves, n);
    var log := Log(run, moves, n);
    assert Accepted(run, moves, n).Some?;
    a := Accepted(run, moves, n).value;
    FinishesOnce(log, id);
    k := FinishIsAStep(run, moves, n);
    hide IsRun, Reflects, Log, Accepted;
    forall j | a < j < n && FinishedAt(run, moves, j) ensures j == k {
      if j < k { StepsAreLogged(run, moves, n, j, k); } else { StepsAreLogged(run, moves, n, k, j); }
    }
  }

  /** And the other way round: once the goal was ended, until another is accepted,
      everybody who asks gets that result. */
  lemma FinishIsTheResult(run: seq<Server>, moves: seq<Move>, k: nat, n: nat)
    requires IsRun(run, moves) && k < n < |run| && FinishedAt(run, moves, k)
    requires forall j :: k < j < n ==> !Accepts(moves[j])
    ensures var op := moves[k].op; GetResult(run[n].goal, op.id) == Ready(op.state, op.value)
  {
    Advanced(run, moves, k + 1, n);
    TakesEffectIff(run, moves, k);
    GoalIsItsLog(run, moves, k);
    hide Inv;
    var s, m := run[k], moves[k];
    assert Enabled(s, m) && run[k + 1] == Act(s, m);
  }

  lemma {:induction false} Advanced(run: seq<Server>, moves: seq<Move>, i: nat, n: nat)
    requires IsRun(run, moves) && i <= n < |run| && Terminal(run[i].goal.header.state)
    requires forall j :: i <= j < n ==> !Accepts(moves[j])
    ensures run[n].goal.header.state == run[i].goal.header.state && run[n].goal.result == run[i].goal.result
    ensures run[n].goal.header.goalId == run[i].goal.header.goalId
  {
    hide Act, Enabled, Inv, Apply;
    if i < n {
      Advanced(run, moves, i, n - 1);
      RunKeepsInv(run, moves, n - 1);
      var s, m := run[n - 1], moves[n - 1];
      assert Enabled(s, m) && run[n - 1 + 1] == Act(s, m);
      StepGoal(s, m);
      if m.Operate? {
        OperateEnabled(s, m);
        GoalIsOk(s);
        ApplyAdvances(s.goal, m.op);
      }
    }
  }

  lemma GoalIsOk(s: Server)
    requires Inv(s)
    ensures GoalOk(s.goal)
  {
  }

  // ---------------------------------------------------------------------
  // What is published
  // ---------------------------------------------------------------------

  /** A snapshot was taken at time m. */
  predicate TakenAt(run: seq<Server>, c: Snapshot, m: nat) { m < |run| && c == Copy(run[m]) }

  lemma {:induction false} CopiesAreStates(run: seq<Server>, moves: seq<Move>, n: nat, t: ThreadId) returns (m: nat)
    requires IsRun(run, moves) && n < |run| && InFlush(PhaseOf(run[n], t))
    ensures m <= n && TakenAt(run, PhaseOf(run[n], t).copy, m)
  {
    if n == 0 {
      assert false;
    } else {
      var s, s', x := run[n - 1], run[n], moves[n - 1];
      assert Enabled(s, x) && run[n - 1 + 1] == Act(s, x);
      if InFlush(PhaseOf(s, t)) && PhaseOf(s, t).copy == PhaseOf(s', t).copy {
        m := CopiesAreStates(run, moves, n - 1, t);
      } else {
        m := n - 1;
      }
    }
  }

  /** In every run: whatever was published is a state that the server was in, with the
      feedback that was the last one given to its goal then, and its count. */
  lemma {:induction false} PublishedAreStates(run: seq<Server>, moves: seq<Move>, n: nat, i: nat) returns (m: nat)
    requires IsRun(run, moves) && n < |run| && i < |run[n].published|
    ensures m <= n && TakenAt(run, run[n].published[i], m)
    ensures var c, given := run[n].published[i], Feedbacks(Log(run, moves, m));
      c.header.feedbackSequence == |given| && c.feedback == if given == [] then 0 else given[|given| - 1]
  {
    hide Log, Feedbacks, Finished, Started, CancelAsked;
    var s, x := run[n - 1], moves[n - 1];
    assert Enabled(s, x) && run[n - 1 + 1] == Act(s, x);
    if i < |s.published| {
      m := PublishedAreStates(run, moves, n - 1, i);
    } else {
      m := CopiesAreStates(run, moves, n - 1, x.t);
    }
    GoalIsItsLog(run, moves, m);
    NoFeedbacks(run, moves, m);
  }

  lemma NoFeedbacks(run: seq<Server>, moves: seq<Move>, n: nat)
    requires |run| == |moves| + 1 && n < |run|
    ensures Log(run, moves, n) == [] ==> Feedbacks(Log(run, moves, n)) == []
  {
  }
}
