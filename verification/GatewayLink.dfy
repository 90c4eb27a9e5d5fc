/** Two gateways and the connections between them. Requests travel one way over a
    succession of TCP connections that either side may drop at any time; the
    receiver keeps only the largest request and goal id it has seen. */
module GatewayLink {

  type Id = nat

  datatype Frame = Hello | Ask(id: Id, goal: nat)   // goal 0: not a goal request

  /** One end of a connection. `named` means that the end knows which host is on
      the other side. */
  datatype End = Open(named: bool, ready: bool) | Closed

  /** A connection: the sending gateway's end, the receiving gateway's end, and
      what is under way in each direction. */
  datatype Connection = Connection(sender: End, receiver: End, toReceiver: seq<Frame>, toSender: nat)

  /** `senderConnects` says which of the two has the lower host id. `sent` and
      `sentGoal` are the last numbers that the sender used; `last` and `lastGoal` are what the
      receiver remembers of the sender's session. */
  datatype Link = Link(
    senderConnects: bool, connections: seq<Connection>, sent: Id, sentGoal: nat,
    last: Id, lastGoal: nat, jobs: seq<Frame>, ignored: nat)

  predicate SenderNamed(c: Connection) { c.sender.Open? && c.sender.named }
  predicate ReceiverNamed(c: Connection) { c.receiver.Open? && c.receiver.named }

  // ---------------------------------------------------------------------
  // Steps
  // ---------------------------------------------------------------------

  /** Connect: only the lower host, and only if it has no connection to the other. */
  predicate CanConnect(l: Link) {
    if l.senderConnects then forall k :: 0 <= k < |l.connections| ==> !SenderNamed(l.connections[k])
    else forall k :: 0 <= k < |l.connections| ==> !ReceiverNamed(l.connections[k])
  }

  function Connect(l: Link): Link {
    l.(connections := l.connections + [
      if l.senderConnects then Connection(Open(true, false), Open(false, false), [Hello], 0)
      else Connection(Open(false, false), Open(true, false), [], 1)])
  }

  /** Either end goes away. What it sent before may still be read. */
  function DropSender(l: Link, i: nat): Link
    requires i < |l.connections|
  {
    l.(connections := l.connections[i := l.connections[i].(sender := Closed)])
  }

  function DropReceiver(l: Link, i: nat): Link
    requires i < |l.connections|
  {
    l.(connections := l.connections[i := l.connections[i].(receiver := Closed)])
  }

  /** The sending gateway reads a HELLO. */
  predicate SenderReads(l: Link, i: nat) {
    i < |l.connections| && l.connections[i].sender.Open? && l.connections[i].toSender > 0
  }

  function SenderHello(l: Link, i: nat): Link
    requires SenderReads(l, i)
  {
    var c := l.connections[i].(toSender := l.connections[i].toSender - 1);
    if c.sender.ready then DropSender(l, i)
    else if l.senderConnects then l.(connections := l.connections[i := c.(sender := Open(true, true))])
    else if exists k :: 0 <= k < |l.connections| && k != i && SenderNamed(l.connections[k]) then DropSender(l, i)
    else l.(connections := l.connections[i := c.(sender := Open(true, true), toReceiver := c.toReceiver + [Hello])])
  }

  /** The sending gateway queues its next request on a ready connection. */
  predicate CanSend(l: Link, i: nat) {
    i < |l.connections| && l.connections[i].sender == Open(true, true)
  }

  /** An id above the last one sent to this host, and a goal above the last goal;
      those in between went to other hosts or were never sent. */
  predicate IsNext(l: Link, id: Id, goal: nat) { id > l.sent && (goal == 0 || goal > l.sentGoal) }

  function Send(l: Link, i: nat, id: Id, goal: nat): Link
    requires CanSend(l, i)
  {
    var c := l.connections[i];
    Count(l, id, goal).(connections := l.connections[i := c.(toReceiver := c.toReceiver + [Ask(id, goal)])])
  }

  function Count(l: Link, id: Id, goal: nat): Link {
    l.(sent := id, sentGoal := if goal != 0 then goal else l.sentGoal)
  }

  predicate ReceiverReads(l: Link, i: nat) {
    i < |l.connections| && l.connections[i].receiver.Open? && l.connections[i].toReceiver != []
  }

  function ReceiverHello(l: Link, i: nat): Link
    requires ReceiverReads(l, i)
  {
    var c := l.connections[i].(toReceiver := l.connections[i].toReceiver[1..]);
    if c.receiver.ready then DropReceiver(l, i)
    else if !l.senderConnects then l.(connections := l.connections[i := c.(receiver := Open(true, true))])
    else if exists k :: 0 <= k < |l.connections| && k != i && ReceiverNamed(l.connections[k]) then DropReceiver(l, i)
    else l.(connections := l.connections[i := c.(receiver := Open(true, true), toSender := c.toSender + 1)])
  }

  /** The receiver's admission: replays are ignored, the rest becomes jobs, unless
      the job queue is full and the connection is dropped. */
  function ReceiverAsk(l: Link, i: nat, full: bool): Link
    requires ReceiverReads(l, i) && l.connections[i].toReceiver[0].Ask?
  {
    var c := l.connections[i];
    var f := c.toReceiver[0];
    var read := l.(connections := l.connections[i := c.(toReceiver := c.toReceiver[1..])]);
    if !c.receiver.ready then DropReceiver(l, i)
    else if f.id <= l.last then read.(ignored := l.ignored + 1)
    else
      var seen := read.(last := f.id);
      if f.goal != 0 && f.goal <= l.lastGoal then seen.(ignored := l.ignored + 1)
      else
        var noted := if f.goal != 0 then seen.(lastGoal := f.goal) else seen;
        if full then DropReceiver(noted, i) else noted.(jobs := noted.jobs + [f])
  }

  datatype Move =
    | DoConnect | DoDropSender(i: nat) | DoDropReceiver(i: nat) | DoSenderHello(i: nat)
    | DoSend(i: nat, id: Id, goal: nat) | DoReceive(i: nat, full: bool)

  predicate Enabled(l: Link, m: Move) {
    match m
    case DoConnect => CanConnect(l)
    case DoDropSender(i) => i < |l.connections|
    case DoDropReceiver(i) => i < |l.connections|
    case DoSenderHello(i) => SenderReads(l, i)
    case DoSend(i, id, goal) => CanSend(l, i) && IsNext(l, id, goal)
    case DoReceive(i, full) => ReceiverReads(l, i)
  }

  function Act(l: Link, m: Move): Link
    requires Enabled(l, m)
  {
    match m
    case DoConnect => Connect(l)
    case DoDropSender(i) => DropSender(l, i)
    case DoDropReceiver(i) => DropReceiver(l, i)
    case DoSenderHello(i) => SenderHello(l, i)
    case DoSend(i, id, goal) => Send(l, i, id, goal)
    case DoReceive(i, full) =>
      if l.connections[i].toReceiver[0].Hello? then ReceiverHello(l, i) else ReceiverAsk(l, i, full)
  }

  // ---------------------------------------------------------------------
  // Invariant
  // ---------------------------------------------------------------------

  /** Requests under way are larger than `last`, ascend, and were sent. */
  predicate Ascending(frames: seq<Frame>, last: Id, sent: Id) {
    if frames == [] then last <= sent
    else if frames[0].Hello? then Ascending(frames[1..], last, sent)
    else last < frames[0].id && Ascending(frames[1..], frames[0].id, sent)
  }

  predicate AscendingGoals(frames: seq<Frame>, last: nat, sent: nat) {
    if frames == [] then last <= sent
    else if frames[0].Hello? || frames[0].goal == 0 then AscendingGoals(frames[1..], last, sent)
    else last < frames[0].goal && AscendingGoals(frames[1..], frames[0].goal, sent)
  }

  predicate OnlyHello(frames: seq<Frame>) { forall k :: 0 <= k < |frames| ==> frames[k].Hello? }

  /** An end that has not named its peer has not greeted it either, so the other
      end is not ready and has sent no request. */
  predicate Unnamed(c: Connection) {
    c.receiver.Open? && !c.receiver.named ==>
        !c.receiver.ready && OnlyHello(c.toReceiver) && c.toSender == 0 && !SenderReady(c)
  }

  predicate SenderReady(c: Connection) { c.sender.Open? && c.sender.ready }

  predicate ConnectionOk(l: Link, c: Connection) {
    && Unnamed(c)
    && (c.receiver.Open? ==>
      Ascending(c.toReceiver, l.last, l.sent) && AscendingGoals(c.toReceiver, l.lastGoal, l.sentGoal))
    && (c.sender.Open? && c.sender.ready ==> c.sender.named)
    && (c.receiver.Open? && c.receiver.ready ==> c.receiver.named)
    && (l.senderConnects && c.sender.Open? ==> c.sender.named)
    && (!l.senderConnects && c.receiver.Open? ==> c.receiver.named)
  }

  ghost predicate OneEach(l: Link) {
    && (forall j, k :: 0 <= j < k < |l.connections| ==>
      !(SenderNamed(l.connections[j]) && SenderNamed(l.connections[k])))
    && (forall j, k :: 0 <= j < k < |l.connections| ==>
      !(ReceiverNamed(l.connections[j]) && ReceiverNamed(l.connections[k])))
  }

  /** No request is two jobs, and no goal is; later jobs have larger numbers. */
  predicate JobsAscend(jobs: seq<Frame>, last: Id, lastGoal: nat) {
    && (forall k :: 0 <= k < |jobs| ==> jobs[k].Ask? && jobs[k].id <= last && jobs[k].goal <= lastGoal)
    && (forall j, k :: 0 <= j < k < |jobs| ==> jobs[j].id < jobs[k].id)
    && (forall j, k :: 0 <= j < k < |jobs| && jobs[j].goal != 0 && jobs[k].goal != 0 ==> jobs[j].goal < jobs[k].goal)
  }

  ghost predicate Inv(l: Link) {
    && OneEach(l) && (forall k :: 0 <= k < |l.connections| ==> ConnectionOk(l, l.connections[k]))
    && l.last <= l.sent && l.lastGoal <= l.sentGoal && l.ignored == 0 && JobsAscend(l.jobs, l.last, l.lastGoal)
  }

  lemma {:induction false} MoreSent(frames: seq<Frame>, last: Id, sent: Id, sent': Id)
    requires Ascending(frames, last, sent) && sent <= sent'
    ensures Ascending(frames, last, sent')
  {
    if frames != [] { MoreSent(frames[1..], if frames[0].Hello? then last else frames[0].id, sent, sent'); }
  }

  lemma {:induction false} MoreGoalsSent(frames: seq<Frame>, last: nat, sent: nat, sent': nat)
    requires AscendingGoals(frames, last, sent) && sent <= sent'
    ensures AscendingGoals(frames, last, sent')
  {
    if frames != [] {
      var first := if frames[0].Hello? || frames[0].goal == 0 then last else frames[0].goal;
      MoreGoalsSent(frames[1..], first, sent, sent');
    }
  }

  lemma {:induction false} OneMore(frames: seq<Frame>, last: Id, sent: Id, f: Frame)
    requires Ascending(frames, last, sent) && (f.Ask? ==> f.id > sent)
    ensures Ascending(frames + [f], last, if f.Ask? then f.id else sent)
  {
    if frames == [] {
      assert (frames + [f])[1..] == [];
    } else {
      OneMore(frames[1..], if frames[0].Hello? then last else frames[0].id, sent, f);
      assert (frames + [f])[1..] == frames[1..] + [f];
    }
  }

  lemma {:induction false} OneMoreGoal(frames: seq<Frame>, last: nat, sent: nat, f: Frame)
    requires AscendingGoals(frames, last, sent) && (f.Ask? && f.goal != 0 ==> f.goal > sent)
    ensures AscendingGoals(frames + [f], last, if f.Ask? && f.goal != 0 then f.goal else sent)
  {
    if frames == [] {
      assert (frames + [f])[1..] == [];
    } else {
      OneMoreGoal(frames[1..], if frames[0].Hello? || frames[0].goal == 0 then last else frames[0].goal, sent, f);
      assert (frames + [f])[1..] == frames[1..] + [f];
    }
  }

  lemma {:induction false} NothingUnderWay(frames: seq<Frame>, last: Id, sent: Id, lastGoal: nat, sentGoal: nat)
    requires OnlyHello(frames) && last <= sent && lastGoal <= sentGoal
    ensures Ascending(frames, last, sent) && AscendingGoals(frames, lastGoal, sentGoal)
  {
    if frames != [] { NothingUnderWay(frames[1..], last, sent, lastGoal, sentGoal); }
  }

  /** Counters growing at the sender. */
  lemma CountersGrow(l: Link, c: Connection, sent: Id, sentGoal: nat)
    requires ConnectionOk(l, c) && l.sent <= sent && l.sentGoal <= sentGoal
    ensures ConnectionOk(l.(sent := sent, sentGoal := sentGoal), c)
  {
    if c.receiver.Open? {
      MoreSent(c.toReceiver, l.last, l.sent, sent);
      MoreGoalsSent(c.toReceiver, l.lastGoal, l.sentGoal, sentGoal);
    }
  }

  lemma ConnectKeeps(l: Link)
    requires Inv(l) && CanConnect(l)
    ensures Inv(Connect(l))
  {
    var l' := Connect(l);
    var c := l'.connections[|l.connections|];
    NothingUnderWay(c.toReceiver, l.last, l.sent, l.lastGoal, l.sentGoal);
    assert ConnectionOk(l', c);
    hide ConnectionOk;
    assert forall k :: 0 <= k < |l.connections| ==> l'.connections[k] == l.connections[k];
    OkDependsOn(l, l');
  }

  /** ConnectionOk looks only at the counters and the direction. */
  lemma OkDependsOn(l: Link, l': Link)
    requires l'.senderConnects == l.senderConnects && l'.sent == l.sent && l'.sentGoal == l.sentGoal
    requires l'.last == l.last && l'.lastGoal == l.lastGoal
    ensures forall c :: ConnectionOk(l, c) ==> ConnectionOk(l', c)
  {
  }

  lemma ReplaceKeeps(l: Link, i: nat, c: Connection)
    requires Inv(l) && i < |l.connections| && ConnectionOk(l, c)
    requires SenderNamed(c) ==> forall k :: 0 <= k < |l.connections| && k != i ==> !SenderNamed(l.connections[k])
    requires ReceiverNamed(c) ==> forall k :: 0 <= k < |l.connections| && k != i ==> !ReceiverNamed(l.connections[k])
    ensures Inv(l.(connections := l.connections[i := c]))
  {
    var l' := l.(connections := l.connections[i := c]);
    OkDependsOn(l, l');
    hide ConnectionOk;
  }

  lemma DropsKeep(l: Link, i: nat)
    requires Inv(l) && i < |l.connections|
    ensures Inv(DropSender(l, i)) && Inv(DropReceiver(l, i))
  {
    var c := l.connections[i];
    assert ConnectionOk(l, c);
    assert SenderNamed(c) ==> forall k :: 0 <= k < |l.connections| && k != i ==> !SenderNamed(l.connections[k]);
    assert ReceiverNamed(c) ==> forall k :: 0 <= k < |l.connections| && k != i ==> !ReceiverNamed(l.connections[k]);
    ReplaceKeeps(l, i, c.(sender := Closed));
    ReplaceKeeps(l, i, c.(receiver := Closed));
  }

  lemma SenderNamedOk(l: Link, c: Connection)
    requires ConnectionOk(l, c) && c.sender.Open? && c.toSender > 0
    ensures var named := c.(toSender := c.toSender - 1, sender := Open(true, true));
      ConnectionOk(l, named) && ConnectionOk(l, named.(toReceiver := c.toReceiver + [Hello]))
  {
    if c.receiver.Open? {
      OneMore(c.toReceiver, l.last, l.sent, Hello);
      OneMoreGoal(c.toReceiver, l.lastGoal, l.sentGoal, Hello);
    }
    hide Ascending, AscendingGoals;
  }

  lemma SenderHelloKeeps(l: Link, i: nat)
    requires Inv(l) && SenderReads(l, i)
    ensures Inv(SenderHello(l, i))
  {
    DropsKeep(l, i);
    var c := l.connections[i];
    assert ConnectionOk(l, c);
    assert SenderNamed(c) ==> forall k :: 0 <= k < |l.connections| && k != i ==> !SenderNamed(l.connections[k]);
    assert ReceiverNamed(c) ==> forall k :: 0 <= k < |l.connections| && k != i ==> !ReceiverNamed(l.connections[k]);
    var named := c.(toSender := c.toSender - 1, sender := Open(true, true));
    SenderNamedOk(l, c);
    hide ConnectionOk, OneEach, JobsAscend;
    if !c.sender.ready && l.senderConnects {
      ReplaceKeeps(l, i, named);
    } else if !c.sender.ready && !exists k :: 0 <= k < |l.connections| && k != i && SenderNamed(l.connections[k]) {
      ReplaceKeeps(l, i, named.(toReceiver := c.toReceiver + [Hello]));
    }
  }

  lemma SendKeeps(l: Link, i: nat, id: Id, goal: nat)
    requires Inv(l) && CanSend(l, i) && IsNext(l, id, goal)
    ensures Inv(Send(l, i, id, goal))
  {
    var c := l.connections[i];
    var f := Ask(id, goal);
    assert ConnectionOk(l, c);
    assert SenderNamed(c) ==> forall k :: 0 <= k < |l.connections| && k != i ==> !SenderNamed(l.connections[k]);
    assert ReceiverNamed(c) ==> forall k :: 0 <= k < |l.connections| && k != i ==> !ReceiverNamed(l.connections[k]);
    CountKeeps(l, id, goal);
    if c.receiver.Open? {
      OneMore(c.toReceiver, l.last, l.sent, f);
      OneMoreGoal(c.toReceiver, l.lastGoal, l.sentGoal, f);
    }
    ReplaceKeeps(Count(l, id, goal), i, c.(toReceiver := c.toReceiver + [f]));
  }

  lemma CountKeeps(l: Link, id: Id, goal: nat)
    requires Inv(l) && IsNext(l, id, goal)
    ensures Inv(Count(l, id, goal))
  {
    var l' := Count(l, id, goal);
    forall k | 0 <= k < |l'.connections| ensures ConnectionOk(l', l'.connections[k]) {
      CountersGrow(l, l.connections[k], l'.sent, l'.sentGoal);
      OkDependsOn(l.(sent := l'.sent, sentGoal := l'.sentGoal), l');
    }
  }

  lemma ReceiverHelloKeeps(l: Link, i: nat)
    requires Inv(l) && ReceiverReads(l, i) && l.connections[i].toReceiver[0].Hello?
    ensures Inv(ReceiverHello(l, i))
  {
    DropsKeep(l, i);
    var c := l.connections[i];
    assert ConnectionOk(l, c);
    assert SenderNamed(c) ==> forall k :: 0 <= k < |l.connections| && k != i ==> !SenderNamed(l.connections[k]);
    assert ReceiverNamed(c) ==> forall k :: 0 <= k < |l.connections| && k != i ==> !ReceiverNamed(l.connections[k]);
    var named := c.(toReceiver := c.toReceiver[1..], receiver := Open(true, true));
    if !c.receiver.ready && !l.senderConnects {
      ReplaceKeeps(l, i, named);
    } else if !c.receiver.ready && !exists k :: 0 <= k < |l.connections| && k != i && ReceiverNamed(l.connections[k]) {
      ReplaceKeeps(l, i, named.(toSender := c.toSender + 1));
    }
  }

  /** While one connection is read, no other holds a request. */
  lemma OthersHoldNothing(l: Link, i: nat, last: Id, lastGoal: nat, k: nat)
    requires Inv(l) && i < |l.connections| && ReceiverNamed(l.connections[i]) && k < |l.connections| && k != i
    requires last <= l.sent && lastGoal <= l.sentGoal
    ensures ConnectionOk(l.(last := last, lastGoal := lastGoal), l.connections[k])
  {
    var c := l.connections[k];
    assert ConnectionOk(l, c);
    assert !ReceiverNamed(c);
    if c.receiver.Open? { NothingUnderWay(c.toReceiver, last, l.sent, lastGoal, l.sentGoal); }
  }

  lemma {:induction false} LastIsSent(frames: seq<Frame>, last: Id, sent: Id)
    requires Ascending(frames, last, sent)
    ensures last <= sent
  {
    if frames != [] { LastIsSent(frames[1..], if frames[0].Hello? then last else frames[0].id, sent); }
  }

  lemma {:induction false} LastGoalIsSent(frames: seq<Frame>, last: nat, sent: nat)
    requires AscendingGoals(frames, last, sent)
    ensures last <= sent
  {
    if frames != [] {
      LastGoalIsSent(frames[1..], if frames[0].Hello? || frames[0].goal == 0 then last else frames[0].goal, sent);
    }
  }

  /** Whatever arrives, and whoever sent it: the receiver alone never makes two
      jobs of one request id or of one goal. */
  lemma ReceiverNeverRepeats(l: Link, i: nat, full: bool)
    requires ReceiverReads(l, i) && l.connections[i].toReceiver[0].Ask? && JobsAscend(l.jobs, l.last, l.lastGoal)
    ensures var l' := ReceiverAsk(l, i, full); JobsAscend(l'.jobs, l'.last, l'.lastGoal)
  {
    var f := l.connections[i].toReceiver[0];
    if f.id > l.last {
      var lastGoal := if f.goal > l.lastGoal then f.goal else l.lastGoal;
      JobsFurther(l.jobs, l.last, l.lastGoal, f.id, lastGoal);
      if f.goal == 0 || f.goal > l.lastGoal { OneMoreJob(l.jobs, l.last, l.lastGoal, f); }
    }
    hide JobsAscend;
  }

  lemma JobsFurther(jobs: seq<Frame>, last: Id, lastGoal: nat, last': Id, lastGoal': nat)
    requires JobsAscend(jobs, last, lastGoal) && last <= last' && lastGoal <= lastGoal'
    ensures JobsAscend(jobs, last', lastGoal')
  {
  }

  lemma OneMoreJob(jobs: seq<Frame>, last: Id, lastGoal: nat, f: Frame)
    requires JobsAscend(jobs, last, lastGoal) && f.Ask? && f.id > last && (f.goal == 0 || f.goal > lastGoal)
    ensures JobsAscend(jobs + [f], f.id, if f.goal != 0 then f.goal else lastGoal)
  {
  }

  /** A request that is read on a ready connection is new: it is never ignored. */
  lemma ReadIsNew(l: Link, i: nat)
    requires Inv(l) && ReceiverReads(l, i) && l.connections[i].toReceiver[0].Ask?
    ensures var f := l.connections[i].toReceiver[0]; f.id > l.last && (f.goal != 0 ==> f.goal > l.lastGoal)
  {
    assert ConnectionOk(l, l.connections[i]);
  }

  lemma ReceiverAskKeeps(l: Link, i: nat, full: bool)
    requires Inv(l) && ReceiverReads(l, i) && l.connections[i].toReceiver[0].Ask?
    ensures Inv(ReceiverAsk(l, i, full))
  {
    DropsKeep(l, i);
    if l.connections[i].receiver.ready { ReadyAskKeeps(l, i, full); }
    hide Inv;
  }

  lemma ReadyAskKeeps(l: Link, i: nat, full: bool)
    requires Inv(l) && ReceiverReads(l, i) && l.connections[i].toReceiver[0].Ask? && l.connections[i].receiver.ready
    ensures Inv(ReceiverAsk(l, i, full))
  {
    var c := l.connections[i];
    var f := c.toReceiver[0];
    assert ConnectionOk(l, c);
    ReadIsNew(l, i);
    var lastGoal := if f.goal != 0 then f.goal else l.lastGoal;
    LastIsSent(c.toReceiver[1..], f.id, l.sent);
    LastGoalIsSent(c.toReceiver[1..], lastGoal, l.sentGoal);
    OneMoreJob(l.jobs, l.last, l.lastGoal, f);
    NotedKeeps(l, i, lastGoal);
    hide Inv, ConnectionOk, JobsAscend;
    var noted := Noted(l, i, lastGoal);
    DropsKeep(noted, i);
    MoreJobs(noted, l.jobs + [f]);
    assert ReceiverAsk(l, i, full) == if full then DropReceiver(noted, i) else noted.(jobs := noted.jobs + [f]);
  }

  lemma MoreJobs(l: Link, jobs: seq<Frame>)
    requires Inv(l) && JobsAscend(jobs, l.last, l.lastGoal)
    ensures Inv(l.(jobs := jobs))
  {
    OkDependsOn(l, l.(jobs := jobs));
    hide ConnectionOk;
  }

  function Noted(l: Link, i: nat, lastGoal: nat): Link
    requires ReceiverReads(l, i) && l.connections[i].toReceiver[0].Ask?
  {
    var c := l.connections[i];
    l.(connections := l.connections[i := c.(toReceiver := c.toReceiver[1..])], last := c.toReceiver[0].id,
        lastGoal := lastGoal)
  }

  lemma NotedKeeps(l: Link, i: nat, lastGoal: nat)
    requires Inv(l) && ReceiverReads(l, i) && l.connections[i].toReceiver[0].Ask? && l.connections[i].receiver.ready
    requires lastGoal == if l.connections[i].toReceiver[0].goal != 0 then l.connections[i].toReceiver[0].goal
        else l.lastGoal
    requires l.connections[i].toReceiver[0].id <= l.sent && lastGoal <= l.sentGoal
        && l.connections[i].toReceiver[0].id > l.last && lastGoal >= l.lastGoal
    ensures Inv(Noted(l, i, lastGoal))
  {
    var c, l' := l.connections[i], Noted(l, i, lastGoal);
    assert ConnectionOk(l, c);
    assert ConnectionOk(l', l'.connections[i]);
    forall k | 0 <= k < |l'.connections| && k != i ensures ConnectionOk(l', l'.connections[k]) {
      OthersHoldNothing(l, i, l'.last, lastGoal, k);
      OkDependsOn(l.(last := l'.last, lastGoal := lastGoal), l');
    }
    hide ConnectionOk;
    assert forall k :: 0 <= k < |l.connections| ==>
      SenderNamed(l'.connections[k]) == SenderNamed(l.connections[k])
          && ReceiverNamed(l'.connections[k]) == ReceiverNamed(l.connections[k]);
  }

  lemma ActKeeps(l: Link, m: Move)
    requires Inv(l) && Enabled(l, m)
    ensures Inv(Act(l, m))
  {
    hide Inv;
    match m
    case DoConnect => ConnectKeeps(l);
    case DoDropSender(i) => DropsKeep(l, i);
    case DoDropReceiver(i) => DropsKeep(l, i);
    case DoSenderHello(i) => SenderHelloKeeps(l, i);
    case DoSend(i, id, goal) => SendKeeps(l, i, id, goal);
    case DoReceive(i, full) =>
      if l.connections[i].toReceiver[0].Hello? { ReceiverHelloKeeps(l, i); } else { ReceiverAskKeeps(l, i, full); }
  }

  // ---------------------------------------------------------------------
  // Runs
  // ---------------------------------------------------------------------

  function Start(senderConnects: bool): Link { Link(senderConnects, [], 0, 0, 0, 0, [], 0) }

  ghost predicate IsRun(run: seq<Link>, moves: seq<Move>) {
    && |run| == |moves| + 1 && (exists d :: run[0] == Start(d))
    && forall i :: 0 <= i < |moves| ==> Enabled(run[i], moves[i]) && run[i + 1] == Act(run[i], moves[i])
  }

  lemma {:induction false} RunKeepsInv(run: seq<Link>, moves: seq<Move>, i: nat)
    requires IsRun(run, moves) && i < |run|
    ensures Inv(run[i])
  {
    hide Act, Enabled;
    if i > 0 {
      RunKeepsInv(run, moves, i - 1);
      assert run[i - 1 + 1] == Act(run[i - 1], moves[i - 1]);
      ActKeeps(run[i - 1], moves[i - 1]);
    }
  }

  /** The receiver reads a request, or anything else happens that leaves its memory
      alone: frames appear, vanish, are repeated or exchanged. */
  ghost predicate AnyStep(l: Link, l': Link) {
    || (l'.jobs == l.jobs && l'.last == l.last && l'.lastGoal == l.lastGoal)
    || (exists i: nat, full ::
      ReceiverReads(l, i) && l.connections[i].toReceiver[0].Ask? && l' == ReceiverAsk(l, i, full))
  }

  /** Whatever the other side and the network do: no request id and no goal ever
      becomes two jobs. */
  lemma {:induction false} ReceiverIsSafe(run: seq<Link>, i: nat)
    requires i < |run| && run[0].jobs == [] && forall k :: 0 < k < |run| ==> AnyStep(run[k - 1], run[k])
    ensures JobsAscend(run[i].jobs, run[i].last, run[i].lastGoal)
  {
    if i > 0 {
      ReceiverIsSafe(run, i - 1);
      assert AnyStep(run[i - 1], run[i]);
      hide JobsAscend, ReceiverAsk;
      var l, l' := run[i - 1], run[i];
      if k: nat, full :| ReceiverReads(l, k) && l.connections[k].toReceiver[0].Ask? && l' == ReceiverAsk(l, k, full) {
        ReceiverNeverRepeats(l, k, full);
      }
    }
  }

  /** In every run: at each gateway at most one connection to the other is named,
      no request and no goal becomes two jobs, and none that is read for the first
      time is taken for a replay. */
  lemma LinkIsExact(run: seq<Link>, moves: seq<Move>, i: nat)
    requires IsRun(run, moves) && i < |run|
    ensures OneEach(run[i]) && run[i].ignored == 0
    ensures forall j, k :: 0 <= j < k < |run[i].jobs| ==>
      && run[i].jobs[j].Ask? && run[i].jobs[k].Ask? && run[i].jobs[j].id < run[i].jobs[k].id
      && (run[i].jobs[j].goal != 0 && run[i].jobs[k].goal != 0 ==> run[i].jobs[j].goal < run[i].jobs[k].goal)
  {
    RunKeepsInv(run, moves, i);
  }
}
