/** The gateway's network lifecycle: start the transport on a stable interface,
    stop it when the interface or a worker fails, retry with growing delays, and
    give up after five failures. Times are in milliseconds. */
module NetworkLifecycle {
  import opened Wire

  datatype NetworkState = WAITING_NETWORK | REBINDING | RUNNING | ERROR

  /** What the hooks were asked to do and what they observed, in order. A `nic`
      stands for an interface name, index and address. A stop is `checked` when
      the step that makes it has looked at the length of the run before. */
  datatype Event =
    | Resolved(at: nat, nic: nat)
    | Unresolved(at: nat)
    | Attempt(at: nat, nic: nat)
    | Started(at: nat)
    | Stopped(at: nat, checked: bool)
    | Healthy(at: nat)
    | Failed(at: nat, transient: bool)

  // ---------------------------------------------------------------------
  // What a history says
  // ---------------------------------------------------------------------

  /** Successful starts minus stops. */
  function Running(log: seq<Event>): int {
    if log == [] then 0 else
    var last := log[|log| - 1];
    Running(log[..|log| - 1]) + if last.Started? then 1 else if last.Stopped? then -1 else 0
  }

  /** Failures since the last healthy run. */
  function Failures(log: seq<Event>): nat {
    if log == [] then 0 else
    var last := log[|log| - 1];
    if last.Healthy? then 0 else Failures(log[..|log| - 1]) + if last.Failed? then 1 else 0
  }

  /** A failure that cannot be retried, or a fifth one in a row. */
  predicate Fatal(log: seq<Event>) {
    if log == [] then false else
    var last := log[|log| - 1];
    Fatal(log[..|log| - 1]) || (last.Failed? && (!last.transient || Failures(log) >= 5))
  }

  /** The delay after the k-th failure. */
  function Backoff(k: nat): nat {
    if k <= 1 then 1000 else if k == 2 then 2000 else if k == 3 then 4000 else 8000
  }

  function PowerOfTwo(k: nat): nat { if k == 0 then 1 else 2 * PowerOfTwo(k - 1) }

  /** The time before which no start may be tried. */
  function NotBefore(log: seq<Event>): nat {
    if log == [] then 0 else
    var last, before := log[|log| - 1], NotBefore(log[..|log| - 1]);
    if last.Failed? && before < last.at + Backoff(Failures(log)) then last.at + Backoff(Failures(log)) else before
  }

  /** Since when every look at the interfaces found exactly this one. */
  function StableSince(log: seq<Event>, nic: nat): Option<nat> {
    if log == [] then None else
    var last, before := log[|log| - 1], StableSince(log[..|log| - 1], nic);
    match last
    case Resolved(at, n) => if n != nic then None else if before.Some? then before else Some(at)
    case Unresolved(_) => None
    case _ => before
  }

  /** When the transport that is running was started. */
  function RunningSince(log: seq<Event>): Option<nat> {
    if log == [] then None else
    match log[|log| - 1]
    case Started(at) => Some(at)
    case Stopped(_, _) => None
    case _ => RunningSince(log[..|log| - 1])
  }

  /** A run that has lasted ten seconds at this time. */
  predicate Lasted(log: seq<Event>, at: nat) {
    RunningSince(log).Some? && at >= RunningSince(log).value + 10000
  }

  /** Every event is one that may follow what came before. */
  predicate Lawful(log: seq<Event>) {
    log == [] || (Lawful(log[..|log| - 1]) && MayFollow(log[..|log| - 1], log[|log| - 1]))
  }

  predicate MayFollow(log: seq<Event>, e: Event) {
    match e
    case Attempt(at, nic) =>
      && Running(log) == 0 && !Fatal(log) && at >= NotBefore(log)
      && StableSince(log, nic).Some? && at >= StableSince(log, nic).value + 500
    case Started(at) => Running(log) == 0 && !Fatal(log) && |log| > 0 && log[|log| - 1].Attempt?
    case Stopped(at, checked) => Running(log) == 1 && (checked && Lasted(log, at) ==> Failures(log) == 0)
    case Failed(at, transient) => Running(log) == 0 && !Fatal(log)
    case Healthy(at) => Running(log) == 1 && !Fatal(log) && Lasted(log, at)
    case _ => !Fatal(log)
  }

  /** A lawful history never runs two transports, and after a fatal failure it
      only stops. */
  lemma {:induction false} LawfulMeans(log: seq<Event>)
    requires Lawful(log)
    ensures 0 <= Running(log) <= 1
    ensures Fatal(log) ==> Running(log) == 0
  {
    if log != [] { LawfulMeans(log[..|log| - 1]); }
  }

  // ---------------------------------------------------------------------
  // The machine
  // ---------------------------------------------------------------------

  datatype Machine = Machine(
    state: NetworkState, active: bool, pending: bool, failures: nat,
    selected: nat, candidate: nat, nextPoll: nat, retryAt: nat, stableSince: nat, runningSince: nat)

  predicate Timed(log: seq<Event>, now: nat) { forall i :: 0 <= i < |log| ==> log[i].at <= now }

  predicate Agrees(m: Machine, log: seq<Event>, now: nat) {
    && Lawful(log) && Timed(log, now) && Running(log) == (if m.active then 1 else 0)
    && m.failures == Failures(log) && (m.state == ERROR <==> Fatal(log)) && (Fatal(log) ==> !m.active)
    && (!Fatal(log) ==> NotBefore(log) <= m.retryAt <= m.nextPoll)
    && (m.active ==> m.retryAt <= m.runningSince <= now && m.state == RUNNING)
    && RunningSince(log) == (if m.active then Some(m.runningSince) else None)
    && (m.pending ==>
          StableSince(log, m.candidate).Some? && StableSince(log, m.candidate).value <= m.stableSince <= now)
  }

  lemma Appended(log: seq<Event>, e: Event)
    ensures (log + [e])[..|log + [e]| - 1] == log && (log + [e])[|log + [e]| - 1] == e
  {
  }

  /** A run of ten seconds has cleared the failures. */
  predicate Settled(m: Machine, now: nat) { m.active && now >= m.runningSince + 10000 ==> m.failures == 0 }

  // One lemma per event: what it leaves the machine in agreement with.

  lemma StopAgrees(m: Machine, log: seq<Event>, now: nat, checked: bool)
    requires Agrees(m, log, now) && m.active && (checked ==> Settled(m, now))
    ensures Agrees(m.(active := false), log + [Stopped(now, checked)], now)
  {
    Appended(log, Stopped(now, checked));
  }

  function AfterFailure(m: Machine, now: nat, transient: bool): Machine {
    var f := m.(failures := m.failures + 1);
    if !transient || f.failures >= 5 then f.(state := ERROR)
    else f.(retryAt := now + Backoff(f.failures), nextPoll := now + Backoff(f.failures), state := WAITING_NETWORK)
  }

  lemma FailureAgrees(m: Machine, log: seq<Event>, now: nat, transient: bool)
    requires Agrees(m, log, now) && !m.active && m.state != ERROR && now >= m.retryAt
    ensures Agrees(AfterFailure(m, now, transient), log + [Failed(now, transient)], now)
  {
    Appended(log, Failed(now, transient));
  }

  lemma HealthyAgrees(m: Machine, log: seq<Event>, now: nat)
    requires Agrees(m, log, now) && m.active && m.state != ERROR && now >= m.runningSince + 10000
    ensures Agrees(m.(failures := 0), log + [Healthy(now)], now)
  {
    Appended(log, Healthy(now));
  }

  lemma LookAgrees(m: Machine, log: seq<Event>, now: nat, e: Event)
    requires Agrees(m, log, now) && m.state != ERROR && m.nextPoll <= now
        && (e == Unresolved(now) || (e.Resolved? && e.at == now))
    ensures Agrees(m.(nextPoll := now + 1000, pending := m.pending && e == Resolved(now, m.candidate)), log + [e], now)
  {
    Appended(log, e);
  }

  lemma CandidateAgrees(m: Machine, log: seq<Event>, now: nat, nic: nat)
    requires Agrees(m, log, now) && !m.active && m.state != ERROR && StableSince(log, nic).Some?
    ensures Agrees(m.(candidate := nic, pending := true, stableSince := now, state := REBINDING), log, now)
  {
    StableInPast(log, nic, now);
  }

  lemma AttemptAgrees(m: Machine, log: seq<Event>, now: nat)
    requires Agrees(m, log, now) && m.state != ERROR && !m.active && m.pending && now >= m.retryAt
        && now >= m.stableSince + 500
    ensures Agrees(m.(state := REBINDING), log + [Attempt(now, m.candidate)], now)
  {
    Appended(log, Attempt(now, m.candidate));
  }

  lemma StartAgrees(m: Machine, log: seq<Event>, now: nat, nic: nat)
    requires Agrees(m, log, now) && m.state != ERROR && !m.active && now >= m.retryAt
    requires |log| > 0 && log[|log| - 1].Attempt?
    ensures Agrees(m.(active := true, selected := nic, pending := false, runningSince := now, state := RUNNING),
        log + [Started(now)], now)
  {
    Appended(log, Started(now));
  }

  lemma Later(m: Machine, log: seq<Event>, before: nat, now: nat)
    requires Agrees(m, log, before) && before <= now
    ensures Agrees(m, log, now)
  {
  }

  lemma Due(m: Machine, log: seq<Event>, now: nat)
    requires Agrees(m, log, now)
    ensures m.state != ERROR ==> m.retryAt <= m.nextPoll
    ensures m.active ==> m.retryAt <= m.runningSince <= now && m.state == RUNNING
  {
  }

  /** What the hooks answer in one step; `stopping` is asked at six places. */
  datatype Answers = Answers(
    atEntry: bool, afterWorker: bool, afterLook: bool, afterStop: bool, beforeStart: bool, afterStart: bool,
    broken: bool, found: bool, nic: nat, unavailable: bool, started: bool, transient: bool)

  function Halted(m: Machine): Machine { m.(active := false, pending := false) }

  /** A run of ten seconds clears the failures. */
  function Cleared(m: Machine, now: nat): Machine {
    if m.active && now >= m.runningSince + 10000 then m.(failures := 0) else m
  }

  /** A look at the interfaces; another one than the candidate voids that. */
  function Looked(m: Machine, now: nat, h: Answers): Machine {
    m.(nextPoll := now + 1000, pending := m.pending && h.found && m.candidate == h.nic)
  }

  /** No interface to use. */
  function Waiting(m: Machine, now: nat, h: Answers): Machine {
    if h.afterStop then Halted(m)
    else if h.unavailable then Halted(m).(state := WAITING_NETWORK)
    else AfterFailure(Halted(m), now, h.transient)
  }

  /** A start that succeeds while the process is stopping leaves nothing running. */
  function Tried(m: Machine, now: nat, h: Answers): Machine {
    var trying := m.(state := REBINDING);
    if h.afterStart then trying.(pending := false)
    else if !h.started then AfterFailure(trying, now, h.transient)
    else m.(active := true, selected := h.nic, pending := false, runningSince := now, state := RUNNING)
  }

  /** An interface was found. */
  function Considered(m: Machine, now: nat, h: Answers): Machine {
    if m.active && h.nic == m.selected then m
    else if m.active && h.afterStop then Halted(m)
    else if m.active || !m.pending then
      m.(active := false, candidate := h.nic, pending := true, stableSince := now, state := REBINDING)
    else if now < m.stableSince + 500 || h.beforeStart then m
    else Tried(m, now, h)
  }

  function Polled(m: Machine, now: nat, h: Answers): Machine {
    var looked := Looked(m, now, h);
    if h.afterLook then Halted(looked)
    else if h.found then Considered(looked, now, h)
    else Waiting(looked, now, h)
  }

  function Stepped(m: Machine, now: nat, h: Answers): Machine {
    if h.atEntry then Halted(m)
    else if m.state == ERROR then m
    else
      var cleared := Cleared(m, now);
      if m.active && h.broken
      then if h.afterWorker then Halted(cleared) else AfterFailure(Halted(cleared), now, h.transient)
      else if now < m.nextPoll then cleared
      else Polled(cleared, now, h)
  }

  class NetworkLifecycle {
    var m: Machine
    ghost var log: seq<Event>
    ghost var time: nat

    ghost predicate Valid()
      reads this
    {
      Agrees(m, log, time)
    }

    constructor ()
      ensures Valid() && log == [] && m.state == WAITING_NETWORK && !m.active
    {
      m := Machine(WAITING_NETWORK, false, false, 0, 0, 0, 0, 0, 0, 0);
      log, time := [], 0;
    }

    /** Stop a running transport; a candidate has to prove itself again. */
    method Stop(now: nat, ghost checked: bool)
      requires Valid() && now == time && (checked ==> Settled(m, now))
      modifies this`m, this`log
      ensures Valid() && m == Halted(old(m))
      ensures log == old(log) + if old(m).active then [Stopped(now, checked)] else []
    {
      if m.active {
        StopAgrees(m, log, now, checked);
        log := log + [Stopped(now, checked)];
        m := m.(active := false);
      }
      m := m.(pending := false);
    }

    method Failure(now: nat, transient: bool)
      requires Valid() && now == time && !m.active && m.state != ERROR && now >= m.retryAt
      modifies this`m, this`log
      ensures Valid() && log == old(log) + [Failed(now, transient)] && m == AfterFailure(old(m), now, transient)
    {
      FailureAgrees(m, log, now, transient);
      hide Agrees;
      log := log + [Failed(now, transient)];
      m := m.(failures := m.failures + 1);
      if !transient || m.failures >= 5 {
        m := m.(state := ERROR);
        return;
      }
      m := m.(retryAt := now + Backoff(m.failures));
      m := m.(nextPoll := m.retryAt, state := WAITING_NETWORK);
    }

    /** One step of the caller's loop. */
    method Step(now: nat, h: Answers)
      requires Valid() && now >= time
      modifies this
      ensures Valid() && time == now && old(log) <= log && m == Stepped(old(m), now, h)
      ensures h.atEntry ==> !m.active && log == old(log) + if old(m).active then [Stopped(now, false)] else []
      ensures old(m).state == ERROR ==> m.state == ERROR && !m.active && log == old(log)
      ensures !h.atEntry && old(m).active && now >= old(m).runningSince + 10000 ==> old(log) + [Healthy(now)] <= log
    {
      hide Agrees;
      Later(m, log, time, now);
      time := now;
      Due(m, log, now);
      if h.atEntry {
        Stop(now, false);
        return;
      }
      if m.state == ERROR { return; }
      if m.active {
        var done := CheckWorker(now, h);
        if done { return; }
      }
      if now < m.nextPoll { return; }
      Poll(now, h);
    }

    /** A run of ten seconds clears the failures; a worker's error ends the run. */
    method CheckWorker(now: nat, h: Answers) returns (done: bool)
      requires Valid() && now == time && m.active && m.state != ERROR
      modifies this`m, this`log
      ensures Valid() && done == h.broken
      ensures var cleared := Cleared(old(m), now);
        m == (if !h.broken then cleared else if h.afterWorker then Halted(cleared)
              else AfterFailure(Halted(cleared), now, h.transient))
      ensures log == old(log) + (if now >= old(m).runningSince + 10000 then [Healthy(now)] else [])
        + (if h.broken then [Stopped(now, true)] else [])
        + (if h.broken && !h.afterWorker then [Failed(now, h.transient)] else [])
      ensures Settled(m, now)
    {
      hide Agrees;
      Due(m, log, now);
      if now - m.runningSince >= 10000 {
        HealthyAgrees(m, log, now);
        log := log + [Healthy(now)];
        m := m.(failures := 0);
      }
      if h.broken {
        Stop(now, true);
        if h.afterWorker { return true; }
        Failure(now, h.transient);
        return true;
      }
      return false;
    }

    /** Look at the interfaces. Another interface than the candidate voids it. */
    method Poll(now: nat, h: Answers)
      requires Valid() && now == time && m.state != ERROR && now >= m.nextPoll && Settled(m, now)
      modifies this`m, this`log
      ensures Valid() && old(log) + [if h.found then Resolved(now, h.nic) else Unresolved(now)] <= log
      ensures m == Polled(old(m), now, h)
    {
      hide Agrees, Considered, Waiting;
      Due(m, log, now);
      var e := if h.found then Resolved(now, h.nic) else Unresolved(now);
      LookAgrees(m, log, now, e);
      log := log + [e];
      m := m.(nextPoll := now + 1000, pending := m.pending && h.found && m.candidate == h.nic);
      if h.afterLook {
        Stop(now, true);
        return;
      }
      if !h.found {
        Unavailable(now, h);
        return;
      }
      Consider(now, h);
    }

    method Unavailable(now: nat, h: Answers)
      requires Valid() && now == time && m.state != ERROR && now >= m.retryAt && Settled(m, now)
      modifies this`m, this`log
      ensures Valid() && old(log) <= log
      ensures m == Waiting(old(m), now, h)
    {
      Stop(now, true);
      if h.afterStop { return; }
      if h.unavailable {
        m := m.(state := WAITING_NETWORK);
        return;
      }
      hide Agrees;
      Failure(now, h.transient);
    }

    /** A changed interface ends the run; a new one must stay for half a second. */
    method Consider(now: nat, h: Answers)
      requires Valid() && now == time && m.state != ERROR && now >= m.retryAt && Settled(m, now)
      requires |log| > 0 && log[|log| - 1] == Resolved(now, h.nic) && (m.pending ==> m.candidate == h.nic)
      modifies this`m, this`log
      ensures Valid() && old(log) <= log && m == Considered(old(m), now, h)
      ensures var o := old(m);
        !o.active && o.pending && now >= o.stableSince + 500 && !h.beforeStart ==>
          old(log) + [Attempt(now, h.nic)] <= log
    {
      if m.active && h.nic == m.selected { return; }
      ghost var looked := log;
      if m.active {
        Stop(now, true);
        Appended(looked, Stopped(now, true));
        if h.afterStop { return; }
        m := m.(state := REBINDING);
      }
      assert StableSince(log, h.nic).Some?;
      hide Agrees;
      if !m.pending {
        CandidateAgrees(m, log, now, h.nic);
        m := m.(candidate := h.nic, pending := true, stableSince := now, state := REBINDING);
        return;
      }
      if now - m.stableSince < 500 || now < m.retryAt { return; }
      if h.beforeStart { return; }
      TryStart(now, h);
    }

    method TryStart(now: nat, h: Answers)
      requires Valid() && now == time && m.state != ERROR && !m.active && m.pending && m.candidate == h.nic
      requires now >= m.retryAt && now >= m.stableSince + 500
      modifies this`m, this`log
      ensures Valid() && m == Tried(old(m), now, h)
      ensures log == old(log) + [Attempt(now, h.nic)]
        + (if h.started then [Started(now)] else [])
        + (if h.started && h.afterStart then [Stopped(now, true)] else [])
        + (if !h.started && !h.afterStart then [Failed(now, h.transient)] else [])
    {
      hide Agrees;
      AttemptAgrees(m, log, now);
      log := log + [Attempt(now, h.nic)];
      m := m.(state := REBINDING);
      if !h.started {
        if h.afterStart {
          Dropped(m, log, now);
          m := m.(pending := false);
          return;
        }
        Failure(now, h.transient);
        return;
      }
      StartAgrees(m, log, now, h.nic);
      log := log + [Started(now)];
      ghost var running := m.(active := true, selected := h.nic, pending := false, runningSince := now,
          state := RUNNING);
      if h.afterStart {
        StopAgrees(running, log, now, true);
        StateIsFree(running.(active := false), log + [Stopped(now, true)], now, m.state, m.selected, m.runningSince);
        log := log + [Stopped(now, true)];
        m := m.(pending := false);
        return;
      }
      m := m.(active := true, selected := h.nic, pending := false, runningSince := now, state := RUNNING);
    }
  }

  lemma Dropped(m: Machine, log: seq<Event>, now: nat)
    requires Agrees(m, log, now)
    ensures Agrees(m.(pending := false), log, now)
  {
  }

  lemma StateIsFree(m: Machine, log: seq<Event>, now: nat, state: NetworkState, selected: nat, since: nat)
    requires Agrees(m, log, now) && m.state != ERROR && state != ERROR && !m.active
    ensures Agrees(m.(state := state, selected := selected, runningSince := since), log, now)
  {
  }

  lemma {:induction false} StableInPast(log: seq<Event>, nic: nat, now: nat)
    requires Timed(log, now)
    ensures StableSince(log, nic).Some? ==> StableSince(log, nic).value <= now
  {
    if log != [] { StableInPast(log[..|log| - 1], nic, now); }
  }

  // ---------------------------------------------------------------------
  // Runs
  // ---------------------------------------------------------------------

  lemma {:induction false} LawfulFront(log: seq<Event>, i: nat)
    requires Lawful(log) && i <= |log|
    ensures Lawful(log[..i]) && (i < |log| ==> MayFollow(log[..i], log[i]))
  {
    if i == |log| {
      assert log[..i] == log;
    } else if i + 1 < |log| {
      LawfulFront(log[..|log| - 1], i);
      assert log[..|log| - 1][..i] == log[..i];
    }
  }

  lemma {:induction false} NotBeforeCovers(log: seq<Event>, i: nat)
    requires i < |log| && log[i].Failed?
    ensures NotBefore(log) >= log[i].at + Backoff(Failures(log[..i + 1]))
  {
    if i + 1 == |log| {
      assert log[..i + 1] == log;
    } else {
      NotBeforeCovers(log[..|log| - 1], i);
      assert log[..|log| - 1][..i + 1] == log[..i + 1];
    }
  }

  lemma BackoffIsPower(k: nat)
    requires 1 <= k <= 4
    ensures Backoff(k) == 1000 * PowerOfTwo(k - 1)
  {
    assert PowerOfTwo(1) == 2 && PowerOfTwo(2) == 4 && PowerOfTwo(3) == 8;
  }

  /** In every history: a start that is tried after the k-th failure in a row is tried
      at least 2^(k-1) seconds after it, and k is at most four. */
  lemma RetriesWait(log: seq<Event>, i: nat, j: nat)
    requires Lawful(log) && i < j < |log| && log[i].Failed? && log[j].Attempt?
    ensures var k := Failures(log[..i + 1]);
      1 <= k <= 4 && log[j].at >= log[i].at + 1000 * PowerOfTwo(k - 1)
  {
    LawfulFront(log, j);
    NotBeforeCovers(log[..j], i);
    assert log[..j][..i + 1] == log[..i + 1] && log[..i + 1][|log[..i + 1]| - 1] == log[i];
    var k := Failures(log[..i + 1]);
    if k >= 5 {
      assert Fatal(log[..i + 1]);
      FatalStays(log[..j], i + 1);
    }
    BackoffIsPower(k);
  }

  /** Nothing fails, nobody asks to stop, and the interface is found. */
  predicate Quiet(h: Answers, nic: nat) {
    && !h.atEntry && !h.afterWorker && !h.afterLook && !h.afterStop && !h.beforeStart && !h.afterStart
    && !h.broken && h.found && h.nic == nic && h.started
  }

  /** From any state but ERROR: an interface that two looks find, a second apart, has
      the transport running on it, whatever it ran on before. */
  lemma StableInterfaceRuns(m: Machine, log: seq<Event>, now: nat, at: nat, later: nat, h: Answers, k: Answers,
                            nic: nat)
    requires Agrees(m, log, now) && m.state != ERROR && now <= at && m.nextPoll <= at && at + 1000 <= later
    requires Quiet(h, nic) && Quiet(k, nic)
    ensures var n := Stepped(Stepped(m, at, h), later, k); n.active && n.state == RUNNING && n.selected == nic
  {
    assert m.pending ==> m.stableSince <= at;
    assert m.active ==> m.state == RUNNING;
    hide Agrees;
  }

  /** And one on which the transport runs already is left alone. */
  lemma RunningIsLeftAlone(m: Machine, log: seq<Event>, now: nat, at: nat, h: Answers)
    requires Agrees(m, log, now) && m.active && Quiet(h, m.selected)
    ensures var n := Stepped(m, at, h);
      n.active && n.state == RUNNING && n.selected == m.selected && n.runningSince == m.runningSince
  {
  }

  lemma {:induction false} FatalStays(log: seq<Event>, i: nat)
    requires i <= |log| && Fatal(log[..i])
    ensures Fatal(log)
  {
    if i < |log| {
      assert log[..|log| - 1][..i] == log[..i];
      FatalStays(log[..|log| - 1], i);
    } else {
      assert log[..i] == log;
    }
  }

  /** After a fatal failure nothing is tried any more. */
  lemma ErrorIsFinal(log: seq<Event>, i: nat, j: nat)
    requires Lawful(log) && i <= j < |log| && Fatal(log[..i])
    ensures !log[j].Attempt? && !log[j].Started?
  {
    LawfulFront(log, j);
    assert log[..j][..i] == log[..i];
    FatalStays(log[..j], i);
  }

  predicate Looks(e: Event) { e.Resolved? || e.Unresolved? }

  /** What StableSince means: from some look on, every look found this interface. */
  lemma {:induction false} StableMeans(log: seq<Event>, nic: nat) returns (i: nat)
    requires StableSince(log, nic).Some?
    ensures i < |log| && log[i] == Resolved(StableSince(log, nic).value, nic)
    ensures forall k :: i <= k < |log| && Looks(log[k]) ==> log[k].Resolved? && log[k].nic == nic
  {
    var n := |log| - 1;
    if StableSince(log[..n], nic).Some? {
      i := StableMeans(log[..n], nic);
      assert forall k :: 0 <= k < n ==> log[..n][k] == log[k];
    } else {
      i := n;
    }
  }

  /** Every start is tried with nothing running, on an interface that every look
      for at least half a second has found. */
  lemma AttemptsAreSettled(log: seq<Event>, j: nat) returns (i: nat)
    requires Lawful(log) && j < |log| && log[j].Attempt?
    ensures Running(log[..j]) == 0
    ensures i < j && log[i].Resolved? && log[i].nic == log[j].nic && log[i].at + 500 <= log[j].at
    ensures forall k :: i <= k < j && Looks(log[k]) ==> log[k].Resolved? && log[k].nic == log[j].nic
  {
    LawfulFront(log, j);
    i := StableMeans(log[..j], log[j].nic);
    assert forall k :: 0 <= k < j ==> log[..j][k] == log[k];
  }

  /** The failures at index i and later. */
  function FailedSince(log: seq<Event>, i: nat): nat
    requires i <= |log|
  {
    if |log| == i then 0 else FailedSince(log[..|log| - 1], i) + if log[|log| - 1].Failed? then 1 else 0
  }

  lemma {:induction false} FailuresAdd(log: seq<Event>, i: nat)
    requires i <= |log| && forall k :: i <= k < |log| ==> !log[k].Healthy?
    ensures Failures(log) >= FailedSince(log, i)
    ensures FailedSince(log, i) >= 5 ==> Fatal(log)
  {
    if i < |log| { FailuresAdd(log[..|log| - 1], i); }
  }

  /** The transport started at index i runs until index k, if not longer. */
  predicate RunsThrough(log: seq<Event>, i: nat, k: nat) {
    i < k < |log| && log[i].Started? && forall j :: i < j < k ==> !log[j].Stopped?
  }

  /** What RunningSince means. */
  lemma {:induction false} RunningMeans(log: seq<Event>) returns (i: nat)
    requires RunningSince(log).Some?
    ensures i < |log| && log[i] == Started(RunningSince(log).value)
    ensures forall j :: i < j < |log| ==> !log[j].Stopped?
  {
    var n := |log| - 1;
    if log[n].Started? {
      i := n;
    } else {
      i := RunningMeans(log[..n]);
      assert forall j :: 0 <= j < n ==> log[..n][j] == log[j];
    }
  }

  /** When nothing runs, whatever was started has been stopped. */
  lemma {:induction false} IdleMeans(log: seq<Event>, i: nat) returns (j: nat)
    requires Lawful(log) && Running(log) == 0 && i < |log| && log[i].Started?
    ensures i < j < |log| && log[j].Stopped?
  {
    var n := |log| - 1;
    if log[n].Stopped? {
      j := n;
    } else {
      LawfulMeans(log[..n]);
      j := IdleMeans(log[..n], i);
    }
  }

  /** A healthy moment is one of a run of ten seconds, which began after any moment
      when nothing ran. */
  lemma HealthyMeans(log: seq<Event>, i: nat, k: nat) returns (a: nat)
    requires Lawful(log) && i <= k < |log| && Running(log[..i]) == 0 && log[k].Healthy?
    ensures i <= a && RunsThrough(log, a, k) && log[k].at >= log[a].at + 10000
  {
    LawfulFront(log, k);
    a := RunningMeans(log[..k]);
    assert forall j :: 0 <= j < k ==> log[..k][j] == log[j];
    LawfulFront(log, i);
    if a < i { BegunLater(log, i, a, k); }
  }

  lemma BegunLater(log: seq<Event>, i: nat, a: nat, k: nat)
    requires i <= k < |log| && Lawful(log[..i]) && Running(log[..i]) == 0 && a < i && log[a].Started?
    ensures exists j :: a < j < k && log[j].Stopped?
  {
    var j := IdleMeans(log[..i], a);
    assert log[j].Stopped?;
  }

  /** In every history: from a moment when nothing runs, five failures without
      ten uninterrupted seconds of running among them are fatal. */
  lemma FiveFailuresAreFatal(log: seq<Event>, i: nat)
    requires Lawful(log) && i <= |log| && Running(log[..i]) == 0 && FailedSince(log, i) >= 5
    requires forall a: nat, k: nat | i <= a && RunsThrough(log, a, k) :: log[k].at < log[a].at + 10000
    ensures Fatal(log)
  {
    forall k | i <= k < |log| ensures !log[k].Healthy? {
      if log[k].Healthy? { var a := HealthyMeans(log, i, k); }
    }
    FailuresAdd(log, i);
  }

  /** In every history: when a run that has lasted ten seconds ends in a step that
      was not told to stop, no failure counts any more. */
  lemma TenSecondsClear(log: seq<Event>, i: nat, k: nat)
    requires Lawful(log) && RunsThrough(log, i, k) && log[k].Stopped? && log[k].checked
    requires log[k].at >= log[i].at + 10000
    ensures Failures(log[..k]) == 0
  {
    LawfulFront(log, k);
    forall j | i < j < k ensures !log[j].Started? {
      if log[j].Started? {
        LawfulFront(log, j);
        var stopped := IdleMeans(log[..j], i);
      }
    }
    SinceIs(log[..k], i);
  }

  lemma {:induction false} SinceIs(log: seq<Event>, i: nat)
    requires i < |log| && log[i].Started? && forall j :: i < j < |log| ==> !log[j].Stopped? && !log[j].Started?
    ensures RunningSince(log) == Some(log[i].at)
  {
    if i + 1 < |log| { SinceIs(log[..|log| - 1], i); }
  }
}
