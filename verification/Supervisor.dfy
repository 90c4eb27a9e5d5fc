/** The Bringup supervisor: generations of child processes, the reset gate, the
    latched first error, and the application state. Everything that processes,
    clocks, signals and other threads decide is chosen freely. */
module Supervisor {
  import opened Wire

  datatype AppState = INITIALIZING | RUNNING | ERROR | RESETTING | SHUTTING_DOWN | STOPPED

  /** `started`: the supervisor owns a child that it has not reaped. `ready`: this
      child has reported RUNNING. */
  datatype Element = Element(started: bool, alive: bool, failed: bool, ready: bool)

  /** An entry of the error history. */
  datatype Failure = Failure(generation: nat, element: nat)

  /** A published system status. */
  datatype Status = Status(state: AppState, error: Option<Failure>)

  /** The start and the reaping of an element's child. */
  datatype Life = Started(generation: nat, element: nat) | Reaped(generation: nat, element: nat)

  /** STOPPED is left only to retry a cleanup that failed. */
  predicate Allowed(a: AppState, b: AppState) {
    match a
    case INITIALIZING => b == RUNNING || b == ERROR || b == SHUTTING_DOWN
    case RUNNING => b == ERROR || b == SHUTTING_DOWN
    case ERROR => b == RESETTING || b == SHUTTING_DOWN
    case RESETTING => b == RUNNING || b == ERROR || b == SHUTTING_DOWN
    case SHUTTING_DOWN => b == STOPPED
    case STOPPED => b == SHUTTING_DOWN
  }

  /** The supervisor's fields, and the histories of what happened. `gate` is 0 when
      closed, 1 when a reset may be requested, 2 when it is requested. */
  datatype App = App(
    state: AppState, elements: seq<Element>, generation: nat, error: Option<Failure>, gate: nat, shutdown: bool,
    requestId: u64, statuses: seq<Status>, log: seq<Failure>, events: seq<Life>)

  const INITIAL := App(INITIALIZING, [], 0, None, 0, false, 0, [], [], [])

  predicate NoneOwned(elements: seq<Element>) { forall i :: 0 <= i < |elements| ==> !elements[i].started }

  /** Every child is owned and alive, and none has failed. */
  predicate AllStarted(elements: seq<Element>) {
    forall i :: 0 <= i < |elements| ==> elements[i].started && elements[i].alive && !elements[i].failed
  }

  /** And every one has reported RUNNING. */
  predicate AllUp(elements: seq<Element>) {
    AllStarted(elements) && forall i :: 0 <= i < |elements| ==> elements[i].ready
  }

  /** The same, of children that may have exited since the last look at them. */
  predicate AllOwned(elements: seq<Element>) {
    forall i :: 0 <= i < |elements| ==> elements[i].started && !elements[i].failed && elements[i].ready
  }

  /** No child's exit was seen without recording a failure, except for a shutdown. */
  predicate Watched(a: App) {
    a.shutdown || forall i :: 0 <= i < |a.elements| && a.elements[i].started && !a.elements[i].alive ==>
      a.elements[i].failed
  }

  function Blank(count: nat): (s: seq<Element>)
    ensures |s| == count && forall i :: 0 <= i < count ==> s[i] == Element(false, false, false, false)
  {
    seq(count, _ => Element(false, false, false, false))
  }

  // ---------------------------------------------------------------------
  // Moves
  // ---------------------------------------------------------------------

  datatype Move =
    | AskShutdown
    | AskReset
    | Publishing
    | Polling
    | Changing(next: AppState)
    | Resetting
    | Recovering
    | Failing(element: nat)
    | Preparing(count: nat, keep: bool)
    | Renewing
    | Starting(element: nat)
    | Reporting(element: nat)
    | Exiting(element: nat)
    | Reaping(element: nat)

  function Publish(a: App): App { a.(statuses := a.statuses + [Status(a.state, a.error)]) }

  function SetState(a: App, next: AppState): App {
    Publish(a.(state := next, gate := if next == ERROR then 1 else 0))
  }

  /** The state a failure leads to: the first one is latched. */
  function Record(a: App, i: nat): App
    requires i < |a.elements|
  {
    var f := Failure(a.generation, i);
    var b := a.(elements := a.elements[i := a.elements[i].(failed := true)], log := a.log + [f]);
    if b.error.Some? then b
    else if b.state == RESETTING then b.(error := Some(f))
    else SetState(b.(error := Some(f)), ERROR)
  }

  predicate Enabled(a: App, m: Move) {
    match m
    case AskShutdown => true
    case AskReset => a.gate == 1 && !a.shutdown
    case Publishing => true
    case Polling => a.requestId < U64_MAX && a.generation > 0
    case Changing(next) =>
      && Allowed(a.state, next)
      && (match next
          case RUNNING => a.state == INITIALIZING && a.error.None? && a.generation > 0 && AllUp(a.elements)
          case ERROR => a.error.Some? && a.generation > 0
          case RESETTING => false
          case SHUTTING_DOWN => a.shutdown
          case STOPPED => a.shutdown && NoneOwned(a.elements)
          case INITIALIZING => false)
    case Resetting => a.state == ERROR && a.gate == 2
    case Recovering => a.state == RESETTING && AllUp(a.elements)
    case Failing(i) => i < |a.elements| && !a.elements[i].failed && !a.shutdown && a.generation > 0
    case Preparing(_, _) => a.state == INITIALIZING && a.generation == 0
    case Renewing => ((a.state == INITIALIZING && a.generation == 0) || a.state == RESETTING) && NoneOwned(a.elements)
    case Starting(i) =>
      && i < |a.elements| && (a.state == INITIALIZING || a.state == RESETTING) && a.generation > 0
      && Started(a.generation, i) !in a.events
    case Reporting(i) => i < |a.elements| && a.elements[i].alive
    case Exiting(i) => i < |a.elements|
    case Reaping(i) => i < |a.elements| && a.elements[i].started && a.state != RUNNING
  }

  function Act(a: App, m: Move): App
    requires Enabled(a, m)
  {
    match m
    case AskShutdown => a.(shutdown := true)
    case AskReset => a.(gate := 2)
    case Publishing => Publish(a)
    case Polling => a.(requestId := a.requestId + 1)
    case Changing(next) => SetState(a, next)
    case Resetting => SetState(a, RESETTING)
    case Recovering => SetState(a.(error := None), RUNNING)
    case Failing(i) => Record(a, i)
    case Preparing(count, keep) => a.(elements := Blank(count), shutdown := a.shutdown && keep)
    case Renewing => a.(elements := Blank(|a.elements|), generation := a.generation + 1, requestId := 0)
    case Starting(i) =>
      a.(elements := a.elements[i := a.elements[i].(started := true, alive := true)],
         events := a.events + [Started(a.generation, i)])
    case Reporting(i) => a.(elements := a.elements[i := a.elements[i].(ready := true)])
    case Exiting(i) => a.(elements := a.elements[i := a.elements[i].(alive := false)])
    case Reaping(i) =>
      a.(elements := a.elements[i := a.elements[i].(started := false, alive := false)],
         events := a.events + [Reaped(a.generation, i)])
  }

  ghost predicate Step(a: App, b: App) { exists m :: Enabled(a, m) && b == Act(a, m) }

  ghost predicate IsRun(run: seq<App>) {
    |run| > 0 && run[0] == INITIAL && forall i :: 0 < i < |run| ==> Step(run[i - 1], run[i])
  }

  // ---------------------------------------------------------------------
  // What every move keeps
  // ---------------------------------------------------------------------

  predicate Honest(statuses: seq<Status>) {
    forall i :: 0 <= i < |statuses| ==>
      match statuses[i].state
      case RUNNING => statuses[i].error.None?
      case ERROR => statuses[i].error.Some?
      case RESETTING => statuses[i].error.Some?
      case _ => true
  }

  /** At most one failure per element and generation. */
  predicate OncePerGeneration(log: seq<Failure>) {
    forall i, j :: 0 <= i < j < |log| ==> log[i] != log[j]
  }

  predicate Recorded(log: seq<Failure>, generation: nat, elements: seq<Element>) {
    && OncePerGeneration(log)
    && (forall i :: 0 <= i < |log| ==> 0 < log[i].generation <= generation && log[i].element < |elements|)
    && (forall i :: 0 <= i < |log| ==> log[i].generation == generation ==> elements[log[i].element].failed)
    && (forall i :: 0 <= i < |elements| && elements[i].failed ==> Failure(generation, i) in log)
  }

  /** A child is started once, when every child of an earlier generation has been
      reaped, and reaped once, after it was started. */
  predicate MayFollow(past: seq<Life>, e: Life) {
    match e
    case Started(g, i) =>
      && e !in past
      && forall f :: f in past ==>
           f.generation <= g && (f.Started? && f.generation < g ==> Reaped(f.generation, f.element) in past)
    case Reaped(g, i) => e !in past && Started(g, i) in past
  }

  predicate Orderly(events: seq<Life>) {
    events == [] || (Orderly(events[..|events| - 1]) && MayFollow(events[..|events| - 1], events[|events| - 1]))
  }

  /** Ownership is what the history of starts and reapings says. */
  predicate Lived(events: seq<Life>, generation: nat, elements: seq<Element>) {
    && Orderly(events)
    && (forall e :: e in events ==>
          && e.generation <= generation && e.element < |elements|
          && (e.Started? && e.generation < generation ==> Reaped(e.generation, e.element) in events))
    && (forall i :: 0 <= i < |elements| ==>
          (elements[i].started <==> Started(generation, i) in events && Reaped(generation, i) !in events))
  }

  predicate Stated(a: App) {
    && (a.state == RUNNING ==> a.error.None? && AllOwned(a.elements))
    && (a.state == ERROR || a.state == RESETTING ==> a.error.Some?)
    && (a.state == INITIALIZING ==> a.error.None?)
    && (a.state == SHUTTING_DOWN || a.state == STOPPED ==> a.shutdown)
    && (a.state == STOPPED ==> NoneOwned(a.elements))
    && a.gate <= 2 && (a.gate != 0 <==> a.state == ERROR)
    && (a.generation == 0 ==>
          && a.log == [] && a.events == [] && a.requestId == 0
          && (a.state == INITIALIZING || a.state == SHUTTING_DOWN || a.state == STOPPED))
  }

  predicate Sound(a: App) {
    && Recorded(a.log, a.generation, a.elements) && Lived(a.events, a.generation, a.elements)
    && Stated(a) && Honest(a.statuses)
  }

  lemma Later(past: seq<Life>, e: Life)
    requires Orderly(past) && MayFollow(past, e)
    ensures Orderly(past + [e])
  {
    assert (past + [e])[..|past + [e]| - 1] == past;
  }

  lemma StartLived(events: seq<Life>, generation: nat, elements: seq<Element>, i: nat)
    requires Lived(events, generation, elements) && i < |elements| && Started(generation, i) !in events
    ensures Lived(events + [Started(generation, i)], generation,
        elements[i := elements[i].(started := true, alive := true)])
  {
    Later(events, Started(generation, i));
    if Reaped(generation, i) in events { NeverReapedUnstarted(events, generation, i); }
  }

  lemma {:induction false} NeverReapedUnstarted(events: seq<Life>, g: nat, i: nat)
    requires Orderly(events) && Reaped(g, i) in events
    ensures Started(g, i) in events
  {
    var n := |events| - 1;
    if events[n] != Reaped(g, i) { NeverReapedUnstarted(events[..n], g, i); }
  }

  lemma ReapLived(events: seq<Life>, generation: nat, elements: seq<Element>, i: nat)
    requires Lived(events, generation, elements) && i < |elements| && elements[i].started
    ensures Lived(events + [Reaped(generation, i)], generation,
        elements[i := elements[i].(started := false, alive := false)])
  {
    Later(events, Reaped(generation, i));
  }

  lemma RenewLived(events: seq<Life>, generation: nat, elements: seq<Element>)
    requires Lived(events, generation, elements) && NoneOwned(elements)
    ensures Lived(events, generation + 1, Blank(|elements|))
  {
    hide Orderly;
    forall e | e in events && e.Started? ensures Reaped(e.generation, e.element) in events {
      if e.generation == generation { assert !elements[e.element].started; }
    }
  }

  lemma MarkLived(events: seq<Life>, generation: nat, elements: seq<Element>, i: nat, e: Element)
    requires Lived(events, generation, elements) && i < |elements| && e.started == elements[i].started
    ensures Lived(events, generation, elements[i := e])
  {
    hide Orderly;
  }

  lemma MarkRecorded(log: seq<Failure>, generation: nat, elements: seq<Element>, i: nat, e: Element)
    requires Recorded(log, generation, elements) && i < |elements| && e.failed == elements[i].failed
    ensures Recorded(log, generation, elements[i := e])
  {
  }

  /** A failure that is not yet marked is not yet in the log. */
  lemma LoggedOnce(a: App, i: nat)
    requires Recorded(a.log, a.generation, a.elements) && i < |a.elements| && !a.elements[i].failed && a.generation > 0
    ensures Recorded(a.log + [Failure(a.generation, i)], a.generation, a.elements[i := a.elements[i].(failed := true)])
  {
    assert forall k :: 0 <= k < |a.log| ==> a.log[k] != Failure(a.generation, i);
  }

  lemma FailingKeeps(a: App, i: nat)
    requires Sound(a) && Enabled(a, Failing(i))
    ensures Sound(Act(a, Failing(i)))
  {
    LoggedOnce(a, i);
    MarkLived(a.events, a.generation, a.elements, i, a.elements[i].(failed := true));
    hide Recorded, Lived;
  }

  lemma ElementKeeps(a: App, m: Move)
    requires Sound(a) && Enabled(a, m) && (m.Starting? || m.Reporting? || m.Exiting? || m.Reaping?)
    ensures Sound(Act(a, m))
  {
    var i := m.element;
    MarkRecorded(a.log, a.generation, a.elements, i, Act(a, m).elements[i]);
    match m {
      case Starting(_) => StartLived(a.events, a.generation, a.elements, i);
      case Reaping(_) => ReapLived(a.events, a.generation, a.elements, i);
      case Reporting(_) => MarkLived(a.events, a.generation, a.elements, i, a.elements[i].(ready := true));
      case Exiting(_) => MarkLived(a.events, a.generation, a.elements, i, a.elements[i].(alive := false));
    }
    hide Recorded, Lived;
  }

  lemma RenewKeeps(a: App)
    requires Sound(a) && Enabled(a, Renewing)
    ensures Sound(Act(a, Renewing))
  {
    RenewLived(a.events, a.generation, a.elements);
    hide Lived;
  }

  lemma OtherKeeps(a: App, m: Move)
    requires Sound(a) && Enabled(a, m) && !m.Failing? && !m.Starting? && !m.Reporting? && !m.Exiting? && !m.Reaping?
    requires !m.Renewing? && !m.Preparing?
    ensures Sound(Act(a, m))
  {
    hide Recorded, Lived;
  }

  lemma MoveKeeps(a: App, m: Move)
    requires Sound(a) && Enabled(a, m)
    ensures Sound(Act(a, m))
  {
    match m
    case Failing(i) => FailingKeeps(a, i);
    case Starting(_) => ElementKeeps(a, m);
    case Reporting(_) => ElementKeeps(a, m);
    case Exiting(_) => ElementKeeps(a, m);
    case Reaping(_) => ElementKeeps(a, m);
    case Renewing => RenewKeeps(a);
    case Preparing(_, _) =>
    case _ => OtherKeeps(a, m);
  }

  // ---------------------------------------------------------------------
  // Every moment of every run
  // ---------------------------------------------------------------------

  /** How often a run enters a state. */
  function Entries(run: seq<App>, s: AppState): nat {
    if |run| <= 1 then 0 else
    Entries(run[..|run| - 1], s) + if run[|run| - 1].state == s && run[|run| - 2].state != s then 1 else 0
  }

  lemma FrontIsRun(run: seq<App>)
    requires IsRun(run) && |run| > 1
    ensures IsRun(run[..|run| - 1])
  {
    hide Step;
  }

  lemma {:induction false} RunKeepsSound(run: seq<App>, i: nat)
    requires IsRun(run) && i < |run|
    ensures Sound(run[i])
  {
    if i > 0 {
      RunKeepsSound(run, i - 1);
      assert Step(run[i - 1], run[i]);
      hide Sound;
      var m :| Enabled(run[i - 1], m) && run[i] == Act(run[i - 1], m);
      MoveKeeps(run[i - 1], m);
    }
  }

  lemma StepsAreAllowed(a: App, b: App)
    requires Sound(a) && Step(a, b)
    ensures b.state == a.state || Allowed(a.state, b.state)
    ensures b.state == RESETTING && a.state != RESETTING ==> a.gate == 2
    ensures b.state == RUNNING && a.state != RUNNING ==> AllUp(b.elements)
    ensures a.generation < b.generation ==> NoneOwned(a.elements) && (a.state == INITIALIZING || a.state == RESETTING)
  {
    hide Recorded, Lived, Honest;
  }

  lemma {:induction false} ResetsNeedErrors(run: seq<App>)
    requires IsRun(run)
    ensures Entries(run, RESETTING) + (if run[|run| - 1].state == ERROR then 1 else 0) <= Entries(run, ERROR)
  {
    if |run| > 1 {
      var n := |run| - 1;
      FrontIsRun(run);
      ResetsNeedErrors(run[..n]);
      RunKeepsSound(run, n - 1);
      hide Sound;
      assert Step(run[n - 1], run[n]);
      StepsAreAllowed(run[n - 1], run[n]);
    }
  }

  /** In every run, at every moment: no step leads from ERROR to RUNNING; RUNNING
      has no current error and all its children, ERROR and RESETTING have an error;
      so has everything published. Each element records at most one failure per
      generation. Children are started and reaped in order: no child before every
      child of earlier generations is reaped. Resets are as many as entries into
      ERROR at most, and STOPPED means that every child ever started was reaped. */
  lemma RunIsSafe(run: seq<App>, i: nat)
    requires IsRun(run) && i < |run|
    ensures i > 0 && run[i - 1].state != run[i].state ==> Allowed(run[i - 1].state, run[i].state)
    ensures i > 0 && run[i - 1].generation < run[i].generation ==> NoneOwned(run[i - 1].elements)
    ensures var a := run[i];
      && (a.state == RUNNING ==> a.error.None? && AllOwned(a.elements))
      && (i > 0 && a.state == RUNNING && run[i - 1].state != RUNNING ==> AllUp(a.elements))
      && (a.state == ERROR || a.state == RESETTING ==> a.error.Some?) && (a.gate != 0 <==> a.state == ERROR)
      && Honest(a.statuses) && OncePerGeneration(a.log) && Orderly(a.events)
      && (a.state == STOPPED ==> forall g, k :: Started(g, k) in a.events ==> Reaped(g, k) in a.events)
    ensures Entries(run[..i + 1], RESETTING) <= Entries(run[..i + 1], ERROR)
  {
    RunKeepsSound(run, i);
    if i > 0 {
      RunKeepsSound(run, i - 1);
      assert Step(run[i - 1], run[i]);
      StepsAreAllowed(run[i - 1], run[i]);
    }
    StoppedIsReaped(run[i]);
    hide Step, Sound;
    assert IsRun(run[..i + 1]);
    ResetsNeedErrors(run[..i + 1]);
  }

  lemma StoppedIsReaped(a: App)
    requires Sound(a)
    ensures a.state == STOPPED ==> forall g, k :: Started(g, k) in a.events ==> Reaped(g, k) in a.events
  {
    hide Recorded, Honest, Orderly;
    if a.state == STOPPED {
      forall g: nat, k: nat | Started(g, k) in a.events ensures Reaped(g, k) in a.events {
        var e := Started(g, k);
        assert e in a.events && e.element < |a.elements|;
        assert !a.elements[k].started;
      }
    }
  }

  /** The first failure since the last recovery from a reset, if there was one. */
  function FirstSince(run: seq<App>, n: nat): Option<Failure>
    requires n < |run|
  {
    if n == 0 || (run[n - 1].state == RESETTING && run[n].state == RUNNING) then None
    else if FirstSince(run, n - 1).None? && |run[n].log| > |run[n - 1].log| then Some(run[n].log[|run[n].log| - 1])
    else FirstSince(run, n - 1)
  }

  predicate Latches(a: App, b: App) {
    && b.error == (if a.state == RESETTING && b.state == RUNNING then None
                   else if a.error.None? && |b.log| > |a.log| then Some(b.log[|b.log| - 1]) else a.error)
    && (b.statuses == a.statuses + [Status(b.state, b.error)] || (b.statuses == a.statuses && b.state == a.state))
  }

  lemma MoveLatches(a: App, m: Move)
    requires Enabled(a, m)
    ensures Latches(a, Act(a, m))
  {
    match m
    case Failing(i) => hide AllUp, NoneOwned;
    case _ => hide AllUp, NoneOwned, Record;
  }

  lemma StepLatches(a: App, b: App)
    requires Step(a, b)
    ensures Latches(a, b)
  {
    hide Enabled, Act, Latches;
    var m :| Enabled(a, m) && b == Act(a, m);
    MoveLatches(a, m);
  }

  /** In every run: the latched error is the first failure recorded since the start or
      the last recovery; later ones do not replace it. */
  lemma {:induction false} LatchedIsFirst(run: seq<App>, n: nat)
    requires IsRun(run) && n < |run|
    ensures run[n].error == FirstSince(run, n)
  {
    hide Step;
    if n > 0 {
      LatchedIsFirst(run, n - 1);
      StepLatches(run[n - 1], run[n]);
    }
  }

  /** In every run: each status that was published, at a moment m, shows the state and
      the latched error of that moment. */
  lemma {:induction false} StatusesAreMoments(run: seq<App>, n: nat, k: nat) returns (m: nat)
    requires IsRun(run) && n < |run| && k < |run[n].statuses|
    ensures 0 < m <= n && |run[m - 1].statuses| == k && |run[m].statuses| == k + 1
    ensures run[n].statuses[k] == Status(run[m].state, FirstSince(run, m))
  {
    hide Step, FirstSince;
    assert n > 0;
    StepLatches(run[n - 1], run[n]);
    if k < |run[n - 1].statuses| {
      m := StatusesAreMoments(run, n - 1, k);
    } else {
      LatchedIsFirst(run, n);
      m := n;
    }
  }

  /** In every run: every change of state is published at once. */
  lemma ChangesArePublished(run: seq<App>, n: nat)
    requires IsRun(run) && 0 < n < |run| && run[n - 1].state != run[n].state
    ensures run[n].statuses == run[n - 1].statuses + [Status(run[n].state, FirstSince(run, n))]
  {
    hide Step, FirstSince;
    StepLatches(run[n - 1], run[n]);
    LatchedIsFirst(run, n);
  }

  /** What Orderly means for two starts. */
  lemma {:induction false} GenerationsDoNotOverlap(events: seq<Life>, j: nat, k: nat)
    requires Orderly(events) && j < k < |events| && events[j].Started? && events[k].Started?
    requires events[j].generation != events[k].generation
    ensures events[j].generation < events[k].generation
    ensures Reaped(events[j].generation, events[j].element) in events[..k]
  {
    var n := |events| - 1;
    if k < n {
      GenerationsDoNotOverlap(events[..n], j, k);
      assert events[..n][..k] == events[..k];
    } else {
      assert events[j] in events[..n];
    }
  }

  // ---------------------------------------------------------------------
  // What the parts of a cycle may change
  // ---------------------------------------------------------------------

  /** While children start: the state stays, or the first failure is latched. */
  predicate Startup(a: App, b: App) {
    && |b.elements| == |a.elements| && b.generation == a.generation && (a.shutdown ==> b.shutdown)
    && (b.state == a.state || (a.state == INITIALIZING && b.state == ERROR)) && (Watched(a) ==> Watched(b))
  }

  predicate Undisturbed(a: App, b: App) { b.state == a.state && b.error == a.error }

  predicate IsStarting(a: App) { (a.state == INITIALIZING || a.state == RESETTING) && a.generation > 0 }

  /** What polling does: children report, and nothing else changes. */
  predicate Polled(a: App, b: App) {
    && |b.elements| == |a.elements| && b == a.(elements := b.elements)
    && forall k :: 0 <= k < |a.elements| ==>
         b.elements[k] == a.elements[k].(ready := b.elements[k].ready) && (a.elements[k].ready ==> b.elements[k].ready)
  }

  /** What a failure report does, if no shutdown is asked for meanwhile. */
  predicate Failed(a: App, b: App, i: nat)
    requires i < |a.elements|
  {
    && (a.shutdown ==> b.shutdown)
    && b == if a.elements[i].failed || b.shutdown then a.(shutdown := b.shutdown) else Record(a, i)
  }

  lemma FailedMeans(a: App, b: App, i: nat)
    requires i < |a.elements| && Failed(a, b, i)
    ensures Startup(a, b) || (b.state == ERROR && a.state != RESETTING && a.error.None?)
    ensures |b.elements| == |a.elements| && b.generation == a.generation && b.requestId == a.requestId
    ensures a.shutdown ==> b.shutdown
    ensures b.state == a.state || b.state == ERROR
    ensures a.state == RESETTING ==> b.state == RESETTING
    ensures a.error.Some? ==> b.state == a.state && b.error.Some?
    ensures a.elements[i].failed || b.shutdown || b.error.Some?
    ensures b.elements[i].failed || b.shutdown
    ensures forall k :: 0 <= k < |a.elements| ==>
      b.elements[k].started == a.elements[k].started && b.elements[k].ready == a.elements[k].ready
    ensures forall k :: 0 <= k < |a.elements| && k != i ==> b.elements[k] == a.elements[k]
    ensures b.elements[i].alive == a.elements[i].alive && (Watched(a) ==> Watched(b))
  {
  }

  /** What the monitor finds when it looks at a living child. */
  datatype Health = Well | Unwell | Gone

  predicate Late(a: App, i: nat, other: nat -> bool)
    requires i < |a.elements|
  {
    !a.elements[i].ready || other(i)
  }

  lemma NoneLateMeans(a: App, other: nat -> bool)
    ensures (forall k :: 0 <= k < |a.elements| ==> !Late(a, k, other)) ==>
      forall k :: 0 <= k < |a.elements| ==> a.elements[k].ready
  {
    if forall k :: 0 <= k < |a.elements| ==> !Late(a, k, other) {
      forall k | 0 <= k < |a.elements| ensures a.elements[k].ready { assert !Late(a, k, other); }
    }
  }

  /** What a look at child i, alive before, does. */
  predicate ChecksOne(a: App, b: App, i: nat, health: Health, overflow: bool)
    requires i < |a.elements|
  {
    && b.elements == a.elements[i := a.elements[i].(alive := !health.Gone?,
         failed := a.elements[i].failed || !health.Well? || overflow)]
    && (b.elements[i].failed == a.elements[i].failed ==> b == a.(elements := b.elements))
  }

  /** The children below n were looked at: those that were alive and are not well have
      failed, and if none has, nothing changed but reports. */
  ghost predicate Checked(a: App, b: App, n: nat, health: nat -> Health, overflow: bool)
    requires n <= |a.elements|
  {
    && |b.elements| == |a.elements|
    && (forall k :: 0 <= k < |a.elements| ==>
          var e, f := a.elements[k], b.elements[k];
          && f.started == e.started && f.alive == (e.alive && (k < n ==> !health(k).Gone?))
          && f.failed == (e.failed || (k < n && e.alive && (!health(k).Well? || overflow))))
    && ((forall k :: 0 <= k < |a.elements| ==> b.elements[k].failed == a.elements[k].failed) ==>
          b.state == a.state && b.error == a.error)
  }

  lemma PolledIsChecked(a: App, b: App, health: nat -> Health, overflow: bool)
    requires if overflow then b == a else a.requestId < U64_MAX && Polled(a.(requestId := a.requestId + 1), b)
    ensures Checked(a, b, 0, health, overflow) && (Watched(a) ==> Watched(b))
  {
  }

  lemma PublishedIsChecked(a: App, b: App, health: nat -> Health, overflow: bool)
    requires |b.elements| == |a.elements|
    ensures Watched(b) ==> Watched(Publish(b))
    ensures Checked(a, b, |a.elements|, health, overflow) ==> Checked(a, Publish(b), |a.elements|, health, overflow)
  {
  }

  lemma AskedIsWatched(a: App, b: App)
    requires Watched(a) && b.elements == a.elements && (a.shutdown ==> b.shutdown)
    ensures Watched(b)
  {
  }

  lemma CheckedOne(a: App, b: App, c: App, i: nat, health: nat -> Health, overflow: bool)
    requires i < |a.elements| == |b.elements|
    requires b.shutdown || Checked(a, b, i, health, overflow)
    requires c.shutdown
      || (!b.shutdown && if b.elements[i].alive then ChecksOne(b, c, i, health(i), overflow) else c == b)
    ensures c.shutdown || Checked(a, c, i + 1, health, overflow)
  {
    if !c.shutdown {
      assert b.elements[i].alive == a.elements[i].alive && b.elements[i].failed == a.elements[i].failed;
      if forall k :: 0 <= k < |a.elements| ==> c.elements[k].failed == a.elements[k].failed {
        forall k | 0 <= k < |a.elements| ensures b.elements[k].failed == a.elements[k].failed {
          assert c.elements[k].failed == a.elements[k].failed;
        }
      }
    }
  }

  lemma RunningIsUp(a: App)
    requires Sound(a) && Watched(a)
    ensures a.shutdown || (a.state == RUNNING ==> AllUp(a.elements))
  {
    hide Recorded, Lived, Honest;
  }

  /** While children stop: marks stay, ownership only shrinks, and the state
      changes only for a shutdown. */
  predicate Stopping(a: App, b: App) {
    && |b.elements| == |a.elements| && b.generation == a.generation && b.error == a.error && b.log == a.log
    && (a.shutdown ==> b.shutdown)
    && (b.state == a.state || (b.state == SHUTTING_DOWN && b.shutdown)) && (Watched(a) ==> Watched(b))
    && forall k :: 0 <= k < |a.elements| ==>
         b.elements[k].failed == a.elements[k].failed && (b.elements[k].started ==> a.elements[k].started)
  }

  // ---------------------------------------------------------------------
  // The supervisor
  // ---------------------------------------------------------------------

  /** Every state that the calls below bring about is one of a run, and `run` is
      that run. `setup`, `statusOwned` and `handlers` are true between a successful
      Setup and the end of its Shutdown. */
  class Bringup {
    var app: App
    var setup: bool
    var statusOwned: bool
    var handlers: bool
    ghost var run: seq<App>

    ghost predicate Valid()
      reads this`app, this`run
    {
      IsRun(run) && run[|run| - 1] == app && Sound(app)
    }

    /** Valid, and between two calls of the owner. */
    ghost predicate Idle()
      reads this
    {
      && Valid() && (setup ==> (app.state == RUNNING || app.state == ERROR) && Watched(app))
      && (app.state == INITIALIZING ==> app.generation == 0) && app.state != RESETTING
    }

    constructor ()
      ensures Idle() && app == INITIAL && !setup && run == [INITIAL]
    {
      app, run, setup, statusOwned, handlers := INITIAL, [INITIAL], false, false, false;
    }

    /** The move that leads from the last state of the run to the current one. */
    ghost method Note(m: Move)
      requires IsRun(run) && Sound(run[|run| - 1]) && Enabled(run[|run| - 1], m) && app == Act(run[|run| - 1], m)
      modifies this`run
      ensures Valid() && run == old(run) + [app]
    {
      MoveKeeps(run[|run| - 1], m);
      hide Enabled, Act, Sound;
      assert Step(run[|run| - 1], app);
      run := run + [app];
    }

    /** A signal or another thread may have asked for the end. */
    method ShutdownRequested() returns (requested: bool)
      requires Valid()
      modifies this`app, this`run
      ensures Valid() && old(run) <= run && requested == app.shutdown
      ensures app == old(app).(shutdown := requested) && (old(app).shutdown ==> requested)
    {
      hide Sound, IsRun;
      var now: bool := *;
      if now && !app.shutdown {
        app := app.(shutdown := true);
        Note(AskShutdown);
      }
      return app.shutdown;
    }

    method PublishSystemStatus()
      requires Valid()
      modifies this`app, this`run
      ensures Valid() && old(run) <= run && app == Publish(old(app))
    {
      hide Sound, IsRun;
      app := app.(statuses := app.statuses + [Status(app.state, app.error)]);
      Note(Publishing);
    }

    /** The caller names the move that this change of state completes. */
    method SetApplicationState(next: AppState, ghost m: Move)
      requires IsRun(run) && Sound(run[|run| - 1])
      requires if app.state == next then run[|run| - 1] == app
               else Enabled(run[|run| - 1], m) && Act(run[|run| - 1], m) == SetState(app, next)
      modifies this`app, this`run
      ensures Valid() && old(run) <= run
      ensures app == if old(app).state == next then old(app) else SetState(old(app), next)
    {
      hide Sound, IsRun, Enabled, Act;
      if app.state == next { return; }
      app := app.(gate := if next == ERROR then 1 else 0);
      app := app.(state := next);
      app := app.(statuses := app.statuses + [Status(app.state, app.error)]);
      Note(m);
    }

    /** Element i failed: recorded once per generation, and the first error is
        latched. */
    method RecordFailure(i: nat)
      requires Valid() && i < |app.elements| && app.generation > 0
      modifies this`app, this`run
      ensures Valid() && old(run) <= run && Failed(old(app), app, i)
    {
      var stop := ShutdownRequested();
      if app.elements[i].failed || stop { return; }
      ghost var before := app;
      ErrorIsLatched(app);
      hide Sound, IsRun;
      app := app.(elements := app.elements[i := app.elements[i].(failed := true)],
          log := app.log + [Failure(app.generation, i)]);
      if app.error.Some? {
        Note(Failing(i));
      } else {
        app := app.(error := Some(Failure(app.generation, i)));
        if app.state != RESETTING { SetApplicationState(ERROR, Failing(i)); }
      }
    }

    /** A new generation, numbered by the caller. */
    method StartGeneration() returns (error: Option<Errno>)
      requires Valid() && IsStarting(app)
      requires forall k :: 0 <= k < |app.elements| ==>
        !app.elements[k].failed && Started(app.generation, k) !in app.events
      modifies this`app, this`run
      ensures Valid() && old(run) <= run && Startup(old(app), app) && app.requestId == old(app).requestId
      ensures error.None? ==> Undisturbed(old(app), app) && AllStarted(app.elements)
      ensures error.None? || app.shutdown || app.error.Some?
    {
      hide Sound, IsRun, Record, Failed;
      for i := 0 to |app.elements|
        invariant Valid() && old(run) <= run && Startup(old(app), app) && Undisturbed(old(app), app)
        invariant app.requestId == old(app).requestId
        invariant forall k :: 0 <= k < i ==> app.elements[k].started && app.elements[k].alive && !app.elements[k].failed
        invariant forall k :: i <= k < |app.elements| ==>
          !app.elements[k].failed && Started(app.generation, k) !in app.events
      {
        var stop := ShutdownRequested();
        if stop { return Some(ECANCELED); }
        var started: bool := *;
        ghost var before := app;
        if !started {
          RecordFailure(i);
          FailedMeans(before, app, i);
          return Some(EIO);
        }
        app := app.(elements := app.elements[i := app.elements[i].(started := true, alive := true)],
                    events := app.events + [Started(app.generation, i)]);
        Note(Starting(i));
        PublishSystemStatus();
      }
      return None;
    }

    /** Polling takes a new request id; any of the living children may report. */
    method PollRuntimeStatuses() returns (error: Option<Errno>)
      requires Valid() && app.generation > 0
      modifies this`app, this`run
      ensures Valid() && old(run) <= run && (error.Some? <==> old(app).requestId == U64_MAX)
      ensures error.Some? ==> app == old(app)
      ensures error.None? ==> Polled(old(app).(requestId := old(app).requestId + 1), app)
    {
      hide Sound, IsRun;
      if app.requestId == U64_MAX { return Some(EOVERFLOW); }
      app := app.(requestId := app.requestId + 1);
      Note(Polling);
      ghost var asked := app;
      for i := 0 to |app.elements|
        invariant Valid() && old(run) <= run && Polled(asked, app)
      {
        var reports: bool := *;
        if reports && app.elements[i].alive {
          app := app.(elements := app.elements[i := app.elements[i].(ready := true)]);
          Note(Reporting(i));
        }
      }
      return None;
    }

    /** Waiting for all children to report RUNNING, until the startup timeout. It is
        a 32-bit number of milliseconds and a round takes a tenth of a second, so
        there are at most 2^32 more rounds and the request ids do not run out. */
    method AwaitRunning(rounds: u32) returns (error: Option<Errno>)
      requires Valid() && IsStarting(app) && AllStarted(app.elements) && app.requestId == 0
      modifies this`app, this`run
      ensures Valid() && old(run) <= run && Startup(old(app), app)
      ensures error.None? ==> Undisturbed(old(app), app) && AllUp(app.elements)
      ensures error.None? || app.shutdown || app.error.Some?
    {
      hide Sound, IsRun, SetState;
      var left: nat := rounds;
      while true
        invariant Valid() && old(run) <= run && Startup(old(app), app) && Undisturbed(old(app), app)
        invariant AllStarted(app.elements) && app.requestId + left == rounds
        decreases left
      {
        var stop := ShutdownRequested();
        if stop { return Some(ECANCELED); }
        var health: nat -> Health, other: nat -> bool := *, *;
        var failure, ready := CheckStartup(left == 0, health, other);
        stop := ShutdownRequested();
        if stop { return Some(ECANCELED); }
        if failure.Some? { return failure; }
        if ready { return None; }
        PublishSystemStatus();
        left := left - 1;
      }
    }

    /** One round of polling and checking every child. A child is late as long as it
        has not reported RUNNING, or reports another state now (`other`); in the last
        round the startup timeout of a child that is late has passed. The barrier fails
        exactly if a child is not well or late too long, and is passed exactly if it does
        not fail and no child is late. */
    method CheckStartup(last: bool, health: nat -> Health, other: nat -> bool)
      returns (failure: Option<Errno>, ready: bool)
      requires Valid() && IsStarting(app) && AllStarted(app.elements) && app.requestId < U64_MAX
      modifies this`app, this`run
      ensures Valid() && old(run) <= run && Startup(old(app), app) && app.requestId == old(app).requestId + 1
      ensures failure.None? ==> Undisturbed(old(app), app) && AllStarted(app.elements)
      ensures failure.None? && ready ==> AllUp(app.elements)
      ensures failure.None? || app.shutdown || app.error.Some?
      ensures ready <==> forall k :: 0 <= k < |app.elements| ==> !Late(app, k, other)
      ensures failure.None? <==> forall k :: 0 <= k < |app.elements| ==>
        health(k).Well? && !(last && Late(app, k, other))
    {
      hide Sound, IsRun, Record, Failed;
      failure := PollRuntimeStatuses();
      ready := true;
      ghost var asked := app;
      for i := 0 to |app.elements|
        invariant Valid() && old(run) <= run && Startup(old(app), app) && app.requestId == old(app).requestId + 1
        invariant failure.None? ==> Undisturbed(old(app), app) && AllStarted(app.elements)
        invariant failure.None? || app.shutdown || app.error.Some?
        invariant forall k :: i <= k < |app.elements| ==> !app.elements[k].failed
        invariant |app.elements| == |asked.elements|
        invariant forall k :: 0 <= k < |app.elements| ==> app.elements[k].ready == asked.elements[k].ready
        invariant ready <==> forall k :: 0 <= k < i ==> !Late(asked, k, other)
        invariant failure.None? <==> forall k :: 0 <= k < i ==> health(k).Well? && !(last && Late(asked, k, other))
      {
        var late, failed := CheckChild(i, last, health(i), other);
        assert late == Late(asked, i, other);
        if late { ready := false; }
        if failed { failure := Some(ECHILD); }
      }
      assert forall k :: 0 <= k < |app.elements| ==> Late(app, k, other) == Late(asked, k, other);
      NoneLateMeans(app, other);
    }

    /** One child of the barrier: its exit, a bad report, or its startup timeout. */
    method CheckChild(i: nat, last: bool, health: Health, other: nat -> bool) returns (late: bool, failed: bool)
      requires Valid() && (IsStarting(app) || app.state == ERROR) && app.generation > 0
      requires i < |app.elements| && !app.elements[i].failed
      modifies this`app, this`run
      ensures Valid() && old(run) <= run && Startup(old(app), app) && app.requestId == old(app).requestId
      ensures forall k :: 0 <= k < |app.elements| && k != i ==> app.elements[k] == old(app).elements[k]
      ensures app.elements[i].started == old(app).elements[i].started
      ensures app.elements[i].ready == old(app).elements[i].ready
      ensures late == Late(app, i, other) && failed == (!health.Well? || (last && late))
      ensures if failed then app.elements[i].failed || app.shutdown
              else Undisturbed(old(app), app) && app.elements[i] == old(app).elements[i]
      ensures !failed || app.shutdown || app.error.Some?
      ensures old(app).error.Some? ==> app.error.Some?
    {
      hide Sound, IsRun, Record, Failed;
      if health.Gone? { ObserveExit(i); }
      late := !app.elements[i].ready || other(i);
      failed := !health.Well? || (last && late);
      if failed {
        ghost var before := app;
        RecordFailure(i);
        FailedMeans(before, app, i);
      }
    }

    method ObserveExit(i: nat)
      requires Valid() && i < |app.elements|
      modifies this`app, this`run
      ensures Valid() && old(run) <= run
      ensures app == old(app).(elements := old(app).elements[i := old(app).elements[i].(alive := false)])
    {
      hide Sound, IsRun;
      app := app.(elements := app.elements[i := app.elements[i].(alive := false)]);
      Note(Exiting(i));
    }

    /** Ask every child to stop, force those that do not, and reap, until the
        deadline. Success means that no child is left; one whose end is unknown stays
        owned. */
    method StopGeneration(cycles: nat) returns (error: Option<Errno>)
      requires Valid() && app.state != RUNNING
      modifies this`app, this`run
      ensures Valid() && old(run) <= run && Stopping(old(app), app)
      ensures old(app).shutdown ==> app.state == SHUTTING_DOWN
      ensures error.None? ==> NoneOwned(app.elements)
    {
      hide Sound, IsRun, SetState;
      error := None;
      var refused: bool := *;
      if refused { error := Some(EPERM); }
      var left := cycles;
      while true
        invariant Valid() && old(run) <= run && Stopping(old(app), app) && app.state != RUNNING
        decreases left
      {
        NoticeShutdown();
        var ended: nat -> bool, lost: nat -> bool := *, *;
        var remaining;
        remaining, error := ReapRound(ended, lost, error);
        if !remaining { return; }
        if left == 0 {
          if error.None? { error := Some(ETIMEDOUT); }
          return;
        }
        PublishSystemStatus();
        left := left - 1;
      }
    }

    method NoticeShutdown()
      requires Valid() && app.state != RUNNING
      modifies this`app, this`run
      ensures Valid() && old(run) <= run && Stopping(old(app), app) && app.elements == old(app).elements
      ensures app.shutdown ==> app.state == SHUTTING_DOWN
      ensures app.state != RUNNING
    {
      hide Sound, IsRun;
      var stop := ShutdownRequested();
      if stop { SetApplicationState(SHUTTING_DOWN, Changing(SHUTTING_DOWN)); }
    }

    /** One look at every child: exactly those that have ended in a known way are
        reaped. One may also be gone in an unknown way (`lost`), or refuse to be forced. */
    method ReapRound(ended: nat -> bool, lost: nat -> bool, failure: Option<Errno>)
      returns (remaining: bool, error: Option<Errno>)
      requires Valid() && app.state != RUNNING
      modifies this`app, this`run
      ensures Valid() && old(run) <= run && Stopping(old(app), app) && app.state == old(app).state
      ensures app.shutdown == old(app).shutdown
      ensures forall k :: 0 <= k < |app.elements| ==>
        app.elements[k].started == (old(app).elements[k].started && !ended(k))
      ensures !remaining <==> NoneOwned(app.elements)
    {
      hide Sound, IsRun;
      remaining, error := false, failure;
      for i := 0 to |app.elements|
        invariant Valid() && old(run) <= run && Stopping(old(app), app) && app.state == old(app).state
        invariant app.shutdown == old(app).shutdown
        invariant forall k :: 0 <= k < i ==> app.elements[k].started == (old(app).elements[k].started && !ended(k))
        invariant forall k :: i <= k < |app.elements| ==> app.elements[k].started == old(app).elements[k].started
        invariant !remaining <==> forall k :: 0 <= k < i ==> !app.elements[k].started
      {
        if app.elements[i].started {
          var unforced: bool := *;
          if ended(i) {
            app := app.(elements := app.elements[i := app.elements[i].(started := false, alive := false)],
                        events := app.events + [Reaped(app.generation, i)]);
            Note(Reaping(i));
          } else {
            remaining := true;
            if lost(i) && error.None? { error := Some(ECHILD); }
            if unforced && error.None? { error := Some(EPERM); }
          }
        }
      }
    }

    /** Drop all observations and number a new generation. */
    method RenewGeneration()
      requires Valid() && Enabled(app, Renewing)
      modifies this`app, this`run
      ensures Valid() && old(run) <= run && app == Act(old(app), Renewing)
      ensures forall k :: 0 <= k < |app.elements| ==> Started(app.generation, k) !in app.events
    {
      NothingStarted(app);
      hide Sound, IsRun;
      app := app.(elements := Blank(|app.elements|), requestId := 0);
      app := app.(generation := app.generation + 1);
      Note(Renewing);
    }

    /** The new generation is up, or its first error is latched. */
    method NewGeneration(rounds: u32) returns (error: Option<Errno>)
      requires Valid() && Enabled(app, Renewing)
      modifies this`app, this`run
      ensures Valid() && old(run) <= run && app.generation == old(app).generation + 1
          && |app.elements| == |old(app).elements|
      ensures app.state == old(app).state || (old(app).state == INITIALIZING && app.state == ERROR)
      ensures Watched(app) && (error.None? ==> Undisturbed(old(app), app) && AllUp(app.elements))
      ensures error.None? || app.shutdown || app.error.Some?
    {
      hide Sound, IsRun;
      RenewGeneration();
      error := StartGeneration();
      if error.None? { error := AwaitRunning(rounds); }
    }

    /** One accepted reset request: stop the old generation, start a new one. */
    method ResetGeneration(rounds: u32, cycles: nat)
      requires Valid() && app.state == ERROR && app.gate == 2 && Watched(app)
      modifies this`app, this`run
      ensures Valid() && old(run) <= run && Watched(app)
      ensures app.state == RUNNING || app.state == ERROR || app.shutdown
      ensures app.state != INITIALIZING && app.state != STOPPED && app.generation > 0
    {
      InError(app);
      hide Sound, IsRun;
      app := app.(gate := 0);
      SetApplicationState(RESETTING, Resetting);
      var error := StopGeneration(cycles);
      var stop := ShutdownRequested();
      if stop { return; }
      if error.None? {
        error := NewGeneration(rounds);
      }
      stop := ShutdownRequested();
      if stop { return; }
      FinishReset(error, cycles);
    }

    method FinishReset(error: Option<Errno>, cycles: nat)
      requires Valid() && app.state == RESETTING && app.generation > 0 && (error.None? ==> AllUp(app.elements))
      requires Watched(app)
      modifies this`app, this`run
      ensures Valid() && old(run) <= run && Watched(app)
      ensures app.state == RUNNING || app.state == ERROR || app.shutdown
      ensures app.state != INITIALIZING && app.state != STOPPED && app.generation == old(app).generation
      ensures app.shutdown || app.state == if error.Some? then ERROR else RUNNING
    {
      ErrorIsLatched(app);
      hide Sound, IsRun;
      if error.Some? {
        var ignored := StopGeneration(cycles);
        var stop := ShutdownRequested();
        if stop { return; }
        SetApplicationState(ERROR, Changing(ERROR));
        return;
      }
      app := app.(error := None);
      SetApplicationState(RUNNING, Recovering);
    }

    /** The initial generation. `acceptable` is what the validation of the elements
        finds, `prepared` whether handlers and status could be set up. */
    method Setup(count: nat, acceptable: bool, prepared: bool, rounds: u32, cycles: nat) returns (error: Option<Errno>)
      requires Idle()
      modifies this
      ensures Idle() && old(run) <= run
      ensures error == Some(EBUSY) <==> old(app).state != INITIALIZING || old(setup) || old(handlers)
      ensures error == Some(EBUSY) ==> app == old(app) && setup == old(setup)
      ensures error.None? ==> setup && (app.state == RUNNING || app.state == ERROR) && |app.elements| == count
    {
      ErrorIsLatched(app);
      hide Sound, IsRun, Enabled;
      if app.state != INITIALIZING || setup || handlers { return Some(EBUSY); }
      if !acceptable || count == 0 { return Some(EINVAL); }
      Prepare(count);
      if !prepared { return Some(EIO); }
      handlers, statusOwned := true, true;
      error := Launch(rounds, cycles);
    }

    method Launch(rounds: u32, cycles: nat) returns (error: Option<Errno>)
      requires Valid() && Enabled(app, Renewing) && app.state == INITIALIZING && app.error.None? && !setup
      modifies this
      ensures Idle() && old(run) <= run && (error.None? || error == Some(ECANCELED))
      ensures error.None? ==>
          setup && (app.state == RUNNING || app.state == ERROR) && |app.elements| == |old(app).elements|
    {
      hide Sound, IsRun, SetState, AllUp;
      var failure := NewGeneration(rounds);
      var stop := ShutdownRequested();
      if stop {
        Shutdown(cycles);
        return Some(ECANCELED);
      }
      FinishSetup(failure);
      setup := true;
      return None;
    }

    method FinishSetup(failure: Option<Errno>)
      requires Valid() && app.generation > 0
          && (if failure.Some? then app.error.Some? else app.error.None? && AllUp(app.elements))
      requires app.state == INITIALIZING || (app.state == ERROR && failure.Some?)
      requires Watched(app)
      modifies this`app, this`run
      ensures Valid() && old(run) <= run && app.state == (if failure.Some? then ERROR else RUNNING)
      ensures app.elements == old(app).elements && Watched(app)
    {
      hide Sound, IsRun;
      var next := if failure.Some? then ERROR else RUNNING;
      SetApplicationState(next, Changing(next));
    }

    /** The elements are registered and an old signal is forgotten. */
    method Prepare(count: nat)
      requires Valid() && app.state == INITIALIZING && app.generation == 0
      modifies this`app, this`run
      ensures Valid() && old(run) <= run && Enabled(app, Renewing) && |app.elements| == count
      ensures app.state == INITIALIZING && app.generation == 0 && app.error.None?
    {
      ErrorIsLatched(app);
      hide Sound, IsRun;
      var keep: bool := *;
      app := app.(elements := Blank(count));
      app := app.(shutdown := app.shutdown && keep);
      Note(Preparing(count, keep));
    }

    /** The monitor loop; it ends with the shutdown. A reset runs only if one was
        requested while the gate was open. */
    method Run(rounds: u32, cycles: nat, watch: (nat, nat) -> Health) returns (error: Option<Errno>)
      requires Idle()
      modifies this
      ensures Idle() && old(run) <= run
      ensures error.Some? <==> !old(setup)
      ensures error.Some? ==> app == old(app)
      ensures error.None? ==> (app.state == STOPPED && NoneOwned(app.elements)) || app.state == SHUTTING_DOWN
    {
      hide Sound, IsRun, SetState;
      if !setup { return Some(EINVAL); }
      for n := 0 to cycles
        invariant Valid() && old(run) <= run && (app.state == RUNNING || app.state == ERROR || app.shutdown)
        invariant app.state != INITIALIZING && app.state != STOPPED && setup && Watched(app)
      {
        if app.shutdown { break; }
        var asked: bool := *;
        var requested := ResetRequested(asked);
        if requested {
          ResetGeneration(rounds, cycles);
          if app.shutdown { break; }
        }
        Monitor((i: nat) => watch(n, i));
      }
      Shutdown(cycles);
      return None;
    }

    /** RequestReset by any thread, then the monitor's look at the gate. A request
        counts in state ERROR, and before a shutdown is asked for. */
    method ResetRequested(asked: bool) returns (requested: bool)
      requires Valid()
      modifies this`app, this`run
      ensures Valid() && old(run) <= run && app == old(app).(gate := if requested then 2 else old(app).gate)
      ensures requested <==> app.state == ERROR && (old(app).gate == 2 || (asked && !app.shutdown))
    {
      GateMeansError(app);
      hide Sound, IsRun;
      if asked && app.gate == 1 && !app.shutdown {
        app := app.(gate := 2);
        Note(AskReset);
      }
      return app.gate == 2;
    }

    /** One round of health checks; running out of request ids fails every child.
        Unless a shutdown is asked for meanwhile, exactly the children that were alive
        and are not well any more fail, and those that are gone are not alive. */
    method Monitor(health: nat -> Health)
      requires Valid() && (app.state == RUNNING || app.state == ERROR) && Watched(app)
      modifies this`app, this`run
      ensures Valid() && old(run) <= run && (app.state == RUNNING || app.state == ERROR) && Watched(app)
      ensures app.shutdown || (app.state == RUNNING ==> AllUp(app.elements))
      ensures app.shutdown || Checked(old(app), app, |old(app).elements|, health, old(app).requestId == U64_MAX)
    {
      InError(app);
      hide Sound, IsRun, Watched, Checked, Polled, AllUp;
      var polling := PollRuntimeStatuses();
      PolledIsChecked(old(app), app, health, polling.Some?);
      var stop := CheckAll(old(app), health, polling.Some?);
      RunningIsUp(app);
      if stop { return; }
      PublishedIsChecked(old(app), app, health, polling.Some?);
      PublishSystemStatus();
    }

    method CheckAll(ghost was: App, health: nat -> Health, overflow: bool) returns (stop: bool)
      requires Valid() && (app.state == RUNNING || app.state == ERROR) && app.generation > 0 && Watched(app)
      requires |app.elements| == |was.elements| && Checked(was, app, 0, health, overflow)
      modifies this`app, this`run
      ensures Valid() && old(run) <= run && (app.state == RUNNING || app.state == ERROR) && Watched(app)
      ensures |app.elements| == |was.elements| && (stop ==> app.shutdown)
      ensures app.shutdown || Checked(was, app, |was.elements|, health, overflow)
    {
      hide Sound, IsRun, Watched, Checked, ChecksOne;
      for i := 0 to |app.elements|
        invariant Valid() && old(run) <= run && (app.state == RUNNING || app.state == ERROR) && app.generation > 0
        invariant |app.elements| == |was.elements| && Watched(app)
        invariant app.shutdown || Checked(was, app, i, health, overflow)
      {
        ghost var before := app;
        stop := CheckElement(i, health(i), overflow);
        if stop { return; }
        CheckedOne(was, before, app, i, health, overflow);
      }
      stop := false;
    }

    /** A look at one child, unless a shutdown is asked for. */
    method CheckElement(i: nat, health: Health, overflow: bool) returns (stop: bool)
      requires Valid() && (app.state == RUNNING || app.state == ERROR) && app.generation > 0 && i < |app.elements|
      requires Watched(app)
      modifies this`app, this`run
      ensures Valid() && old(run) <= run && (app.state == RUNNING || app.state == ERROR) && Watched(app)
      ensures app.generation > 0 && |app.elements| == |old(app).elements| && (stop ==> app.shutdown)
      ensures app.shutdown || (!old(app).shutdown
        && if old(app).elements[i].alive then ChecksOne(old(app), app, i, health, overflow) else app == old(app))
    {
      hide Sound, IsRun, Watched, ChecksOne;
      ghost var before := app;
      stop := ShutdownRequested();
      AskedIsWatched(before, app);
      if stop { return; }
      assert app == before;
      if app.elements[i].alive { CheckHealth(i, health, overflow); }
    }

    method CheckHealth(i: nat, health: Health, overflow: bool)
      requires Valid() && (app.state == RUNNING || app.state == ERROR) && app.generation > 0 && i < |app.elements|
      requires app.elements[i].alive && Watched(app)
      modifies this`app, this`run
      ensures Valid() && old(run) <= run && (app.state == RUNNING || app.state == ERROR) && Watched(app)
      ensures app.generation == old(app).generation && |app.elements| == |old(app).elements|
      ensures app.shutdown || ChecksOne(old(app), app, i, health, overflow)
    {
      hide Sound, IsRun, Record, Failed;
      if health.Gone? { ObserveExit(i); }
      if (!health.Well? || overflow) && !app.elements[i].failed {
        ghost var before := app;
        RecordFailure(i);
        FailedMeans(before, app, i);
      }
    }

    method AllReaped() returns (reaped: bool)
      ensures reaped <==> NoneOwned(app.elements)
    {
      reaped := true;
      for i := 0 to |app.elements|
        invariant reaped <==> forall k :: 0 <= k < i ==> !app.elements[k].started
      {
        if app.elements[i].started { reaped := false; }
      }
    }

    method StopAll(cycles: nat)
      requires Valid()
      modifies this`app, this`run
      ensures Valid() && old(run) <= run && app.shutdown
      ensures app.state == if NoneOwned(app.elements) then STOPPED else SHUTTING_DOWN
    {
      hide Sound, IsRun;
      RequestShutdown();
      if app.state != STOPPED { SetApplicationState(SHUTTING_DOWN, Changing(SHUTTING_DOWN)); }
      var error := StopGeneration(cycles);
      var reaped := AllReaped();
      hide NoneOwned, Stopping;
      if reaped { SetApplicationState(STOPPED, Changing(STOPPED)); }
    }

    method RequestShutdown()
      requires Valid()
      modifies this`app, this`run
      ensures Valid() && old(run) <= run && app == old(app).(shutdown := true)
    {
      hide Sound, IsRun;
      if !app.shutdown {
        app := app.(shutdown := true);
        Note(AskShutdown);
      }
    }

    /** STOPPED is reached only with every child reaped. What could not be released
        is tried again by the next call. */
    method Shutdown(cycles: nat)
      requires Valid() && (app.state == STOPPED ==> !setup)
      modifies this
      ensures Idle() && old(run) <= run && app.shutdown && !setup
      ensures app.state == STOPPED || app.state == SHUTTING_DOWN
      ensures app.state == STOPPED <==> NoneOwned(app.elements)
    {
      StoppedMeans(app);
      hide Sound, IsRun, NoneOwned;
      if app.state == STOPPED && !statusOwned && !handlers { return; }
      StopAll(cycles);
      if statusOwned { statusOwned := *; }
      setup := false;
      if handlers { handlers := *; }
    }
  }

  lemma ErrorIsLatched(a: App)
    requires Sound(a)
    ensures a.state == INITIALIZING || a.state == RUNNING ==> a.error.None?
    ensures a.state == ERROR || a.state == RESETTING ==> a.error.Some?
    ensures a.state == SHUTTING_DOWN || a.state == STOPPED ==> a.shutdown
    ensures a.generation == 0 ==> a.requestId == 0
  {
    hide Recorded, Lived, Honest;
  }

  lemma InError(a: App)
    requires Sound(a) && (a.state == ERROR || a.state == RUNNING)
    ensures a.generation > 0
  {
    hide Recorded, Lived, Honest;
  }

  lemma GateMeansError(a: App)
    requires Sound(a)
    ensures a.gate != 0 <==> a.state == ERROR
    ensures a.gate <= 2
  {
    hide Recorded, Lived, Honest;
  }

  lemma StoppedMeans(a: App)
    requires Sound(a)
    ensures a.state == STOPPED ==> NoneOwned(a.elements) && a.shutdown
  {
    hide Recorded, Lived, Honest;
  }

  lemma NothingStarted(a: App)
    requires Sound(a)
    ensures forall e :: e in a.events ==> e.generation <= a.generation
  {
    hide Recorded, Honest, Orderly;
  }
}
