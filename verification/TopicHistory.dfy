/** What was sent, accepted and published on a topic route, and which route serves a
    consumer, told by what happened before: over whole runs. */
module TopicHistory {
  import opened Wire
  import opened TopicRoutes

  // ---------------------------------------------------------------------
  // The send route
  // ---------------------------------------------------------------------

  /** Step k gave a packet number to a local sample. */
  predicate Numbers(run: seq<Path>, moves: seq<Move>, k: nat)
    requires |run| == |moves| + 1 && k < |moves|
  {
    moves[k].Sends? && moves[k].c.latest.Some? && run[k + 1].sender.sequence != run[k].sender.sequence
  }

  /** The last local sample that was given a number, and how many were. */
  function LastSample(run: seq<Path>, moves: seq<Move>, n: nat): nat
    requires |run| == |moves| + 1 && n < |run|
  {
    if n == 0 then 0
    else if Numbers(run, moves, n - 1) then moves[n - 1].c.latest.value.0
    else LastSample(run, moves, n - 1)
  }

  function Numbered(run: seq<Path>, moves: seq<Move>, n: nat): nat
    requires |run| == |moves| + 1 && n < |run|
  {
    if n == 0 then 0 else Numbered(run, moves, n - 1) + if Numbers(run, moves, n - 1) then 1 else 0
  }

  lemma AttemptNumbers(r: Outgoing, c: Circumstance, period: nat)
    requires period > 0 && Possible(c)
    ensures var r' := Attempt(r, c, period);
      && (r'.sequence != r.sequence ==>
            c.latest.Some? && r'.sequence == r.sequence + 1 && r'.sample == c.latest.value.0)
      && (r'.sequence == r.sequence ==> r'.sample == r.sample)
      && r'.freshStart == r.freshStart && r'.baseline == r.baseline && r'.active == r.active
  {
  }

  lemma {:induction false} SenderRemembers(run: seq<Path>, moves: seq<Move>, period: nat, n: nat)
    requires period > 0 && IsRun(run, moves, period) && n < |run|
    ensures run[n].sender.sample == LastSample(run, moves, n) && run[n].sender.sequence == Numbered(run, moves, n)
  {
    hide Attempt;
    if n > 0 {
      SenderRemembers(run, moves, period, n - 1);
      assert Enabled(run[n - 1], moves[n - 1]) && run[n - 1 + 1] == Act(run[n - 1], moves[n - 1], period);
      if moves[n - 1].Sends? { AttemptNumbers(run[n - 1].sender, moves[n - 1].c, period); }
    }
  }

  /** The sample that an attempt reads is one to send: it is newer than all that were
      given numbers before, and than the start of the route if that asks for it. */
  predicate IsNews(run: seq<Path>, moves: seq<Move>, n: nat)
    requires |run| == |moves| + 1 && n < |moves| && moves[n].Sends?
  {
    var c, r := moves[n].c, run[n].sender;
    && c.latest.Some? && c.latest.value.0 > LastSample(run, moves, n)
    && (r.freshStart ==> c.latest.value.0 > r.baseline)
  }

  /** In every run: an attempt that is due sends its sample if and only if that is
      news, numbers are left and the socket takes it; the packet carries the next number,
      and the sample as it was read. */
  lemma SendsIff(run: seq<Path>, moves: seq<Move>, period: nat, n: nat)
    requires period > 0 && IsRun(run, moves, period) && n < |moves| && moves[n].Sends?
    ensures var c, number := moves[n].c, Numbered(run, moves, n);
      var tries := Due(run[n].sender, c) && IsNews(run, moves, n) && number < U64_MAX;
      && (Numbers(run, moves, n) <==> tries)
      && run[n + 1].sent == run[n].sent +
        if tries && c.sends then [Packet(number + 1, c.latest.value.0, c.latest.value.1)] else []
  {
    SenderRemembers(run, moves, period, n);
    assert Enabled(run[n], moves[n]) && run[n + 1] == Act(run[n], moves[n], period);
    hide IsRun, Due, Scheduled, LastSample, Numbered;
  }

  /** In every run: every packet on the network is a local sample that was read in an
      attempt k, under the number of that attempt. */
  lemma {:induction false} SentAreSamples(run: seq<Path>, moves: seq<Move>, period: nat, n: nat, i: nat)
    returns (k: nat)
    requires period > 0 && IsRun(run, moves, period) && n < |run| && i < |run[n].sent|
    ensures k < n && Numbers(run, moves, k) && moves[k].c.sends
    ensures var p, latest := run[n].sent[i], moves[k].c.latest.value;
      p.sequence == Numbered(run, moves, k) + 1 && p.sample == latest.0 && p.payload == latest.1
  {
    hide Attempt, Take, Deliver, Numbered, LastSample;
    assert Enabled(run[n - 1], moves[n - 1]) && run[n - 1 + 1] == Act(run[n - 1], moves[n - 1], period);
    if i < |run[n - 1].sent| {
      k := SentAreSamples(run, moves, period, n - 1, i);
    } else {
      SendsIff(run, moves, period, n - 1);
      k := n - 1;
    }
  }

  // ---------------------------------------------------------------------
  // The receive route
  // ---------------------------------------------------------------------

  /** The packet is newer than every one of these, in both numbers. */
  predicate Newer(p: Packet, packets: seq<Packet>) {
    forall i :: 0 <= i < |packets| ==> p.sequence > packets[i].sequence && p.sample > packets[i].sample
  }

  lemma SentIsPositive(p: Path, k: nat)
    requires Inv(p) && k < |p.sent|
    ensures p.sent[k].sequence > 0 && p.sent[k].sample > 0
  {
    Positive(p.sent, p.sender.sequence, p.sender.sample, k);
  }

  lemma {:induction false} Positive(packets: seq<Packet>, sequence: nat, sample: nat, i: nat)
    requires Ascends(packets, sequence, sample) && i < |packets|
    ensures packets[i].sequence > 0 && packets[i].sample > 0
    decreases |packets|
  {
    var n := |packets| - 1;
    if i < n { Positive(packets[..n], packets[n].sequence - 1, packets[n].sample - 1, i); }
  }

  lemma NewerIs(p: Path, x: Packet)
    requires Inv(p) && x.sequence > 0 && x.sample > 0
    ensures Newer(x, p.accepted) <==> x.sequence > p.receiver.sequence && x.sample > p.receiver.sample
  {
    forall i | 0 <= i < |p.accepted|
      ensures p.accepted[i].sequence <= p.receiver.sequence && p.accepted[i].sample <= p.receiver.sample
    {
      AtMost(p.accepted, p.receiver.sequence, p.receiver.sample, i);
    }
    assert LastAccepted(p);
    hide Inv, Ascends;
  }

  /** In every run: a packet that arrives is accepted if and only if it passes the
      gate, decodes, and is newer than everything accepted before. */
  lemma AcceptedIff(run: seq<Path>, moves: seq<Move>, period: nat, n: nat)
    requires period > 0 && IsRun(run, moves, period) && n < |moves| && moves[n].Arrives?
    ensures moves[n].k < |run[n].sent|
    ensures var x := run[n].sent[moves[n].k];
      run[n + 1].accepted == run[n].accepted +
        if moves[n].passes && moves[n].decodes && Newer(x, run[n].accepted) then [x] else []
  {
    RunKeepsInv(run, moves, period, n);
    assert Enabled(run[n], moves[n]) && run[n + 1] == Act(run[n], moves[n], period);
    hide IsRun, Inv, Take;
    SentIsPositive(run[n], moves[n].k);
    NewerIs(run[n], run[n].sent[moves[n].k]);
    hide Newer;
  }

  /** How many packets had been accepted when packets were last handed over. */
  function HandedUpTo(run: seq<Path>, moves: seq<Move>, n: nat): nat
    requires |run| == |moves| + 1 && n < |run|
  {
    if n == 0 then 0
    else if moves[n - 1].Delivers? then |run[n - 1].accepted|
    else HandedUpTo(run, moves, n - 1)
  }

  lemma TakeWaits(r: Incoming, p: Packet, passes: bool, decodes: bool)
    ensures Take(r, p, passes, decodes).latest == if Takes(r, p, passes, decodes) then Some(p) else r.latest
  {
  }

  predicate WaitingIs(p: Path, handed: nat) {
    && handed <= |p.accepted|
    && p.receiver.latest == if handed == |p.accepted| then None else Some(p.accepted[|p.accepted| - 1])
  }

  lemma {:induction false} WaitingIsLast(run: seq<Path>, moves: seq<Move>, period: nat, n: nat)
    requires period > 0 && IsRun(run, moves, period) && n < |run|
    ensures WaitingIs(run[n], HandedUpTo(run, moves, n))
  {
    hide Attempt, Take, Takes;
    if n > 0 {
      WaitingIsLast(run, moves, period, n - 1);
      var p, m := run[n - 1], moves[n - 1];
      assert Enabled(p, m) && run[n - 1 + 1] == Act(p, m, period);
      if m.Arrives? { TakeWaits(p.receiver, p.sent[m.k], m.passes, m.decodes); }
    }
  }

  /** In every run: when packets are handed over, the last one accepted is published,
      if any was accepted since the time before; nothing else is. */
  lemma PublishedIff(run: seq<Path>, moves: seq<Move>, period: nat, n: nat)
    requires period > 0 && IsRun(run, moves, period) && n < |moves|
    ensures var p := run[n];
      run[n + 1].output == p.output +
        if moves[n].Delivers? && moves[n].ok && HandedUpTo(run, moves, n) < |p.accepted|
        then [p.accepted[|p.accepted| - 1]] else []
  {
    WaitingIsLast(run, moves, period, n);
    assert Enabled(run[n], moves[n]) && run[n + 1] == Act(run[n], moves[n], period);
    hide IsRun, HandedUpTo, Attempt, Take;
  }

  // ---------------------------------------------------------------------
  // Which route serves a pair
  // ---------------------------------------------------------------------

  /** What changes the send routes: an interest, an attempt of route i, or the removal
      of route i with its publisher or its peer. */
  datatype Event = Asking(ask: Ask) | Attempting(i: nat, r: Outgoing) | Removing(i: nat)

  predicate Happens(routes: seq<Outgoing>, e: Event, routes': seq<Outgoing>) {
    match e
    case Asking(a) => ProperAsk(a) && routes' == Asked(routes, a)
    case Attempting(i, r) =>
      i < |routes| && r.key == routes[i].key && SendBalanced(r) && routes' == routes[i := r]
    case Removing(i) => i < |routes| && routes' == Removed(routes, i)
  }

  ghost predicate IsHistory(run: seq<seq<Outgoing>>, events: seq<Event>) {
    && |run| == |events| + 1 && run[0] == []
    && forall i :: 0 <= i < |events| ==> Happens(run[i], events[i], run[i + 1])
  }

  lemma RemovedKeeps(routes: seq<Outgoing>, i: nat)
    requires OnePerPair(routes) && AllBalanced(routes) && i < |routes|
    ensures OnePerPair(Removed(routes, i)) && AllBalanced(Removed(routes, i))
  {
    hide SendBalanced;
    var less := Removed(routes, i);
    assert forall k :: 0 <= k < |less| ==> less[k] == routes[if k < i then k else k + 1];
  }

  lemma AskedKeeps(routes: seq<Outgoing>, a: Ask)
    requires OnePerPair(routes) && AllBalanced(routes) && ProperAsk(a)
    ensures OnePerPair(Asked(routes, a)) && AllBalanced(Asked(routes, a))
  {
    hide SendBalanced, OnePerPair, AllBalanced;
    match Judge(routes, a.key, a.bound)
    case Known(i) => Activated(routes, i);
    case Late =>
    case Anew =>
      OthersAre(routes, a.key);
      hide Others;
      assert Others(routes, a.key) + [] == Others(routes, a.key);
      if a.created.Some? { OneMoreRoute(Others(routes, a.key), a.created.value); }
  }

  lemma {:induction false} HistoryKeeps(run: seq<seq<Outgoing>>, events: seq<Event>, n: nat)
    requires IsHistory(run, events) && n < |run|
    ensures OnePerPair(run[n]) && AllBalanced(run[n])
  {
    if n > 0 {
      HistoryKeeps(run, events, n - 1);
      assert Happens(run[n - 1], events[n - 1], run[n - 1 + 1]);
      match events[n - 1]
      case Asking(a) =>
        hide OnePerPair, AllBalanced, SendBalanced, Asked;
        AskedKeeps(run[n - 1], a);
      case Attempting(i, r) => hide SendBalanced, Asked;
      case Removing(i) =>
        hide OnePerPair, AllBalanced, SendBalanced, Asked;
        RemovedKeeps(run[n - 1], i);
    }
  }

  /** The pair of the key is served in the session of the key. */
  predicate Serves(routes: seq<Outgoing>, key: Key) {
    PairAt(routes, key) < |routes| && routes[PairAt(routes, key)].key.session == key.session
  }

  function NumberOf(routes: seq<Outgoing>, key: Key): nat
    requires Serves(routes, key)
  {
    routes[PairAt(routes, key)].key.route
  }

  /** The interest is for this pair and this session. */
  predicate For(e: Event, key: Key) { e.Asking? && SamePair(e.ask.key, key) && e.ask.key.session == key.session }

  lemma {:induction false} PairSame(routes: seq<Outgoing>, key: Key, other: Key)
    requires SamePair(key, other)
    ensures PairAt(routes, key) == PairAt(routes, other)
  {
    if routes != [] && !SamePair(routes[0].key, key) { PairSame(routes[1..], key, other); }
  }

  /** A pair that stays served: where its route is after an interest. */
  lemma AskServes(routes: seq<Outgoing>, a: Ask, key: Key)
    requires OnePerPair(routes) && AllBalanced(routes) && ProperAsk(a) && Serves(routes, key)
    requires Serves(Asked(routes, a), key)
    ensures var was, now := NumberOf(routes, key), NumberOf(Asked(routes, a), key);
      if For(Asking(a), key) && !a.bound then now == (if a.key.route > was then a.key.route else was)
      else now == was
  {
    var routes' := Asked(routes, a);
    AskedKeeps(routes, a);
    var i := PairAt(routes, key);
    if SamePair(a.key, key) {
      PairSame(routes, a.key, key);
      match Judge(routes, a.key, a.bound)
      case Known(k) =>
        PairIs(routes, key, k);
        PairIs(routes', key, k);
      case Late =>
      case Anew => NewServes(routes, a, key);
    } else {
      OtherServes(routes, a, key);
    }
  }

  lemma NewServes(routes: seq<Outgoing>, a: Ask, key: Key)
    requires OnePerPair(routes) && AllBalanced(routes) && ProperAsk(a) && SamePair(a.key, key)
    requires Judge(routes, a.key, a.bound).Anew? && PairAt(Asked(routes, a), key) < |Asked(routes, a)|
    ensures Asked(routes, a)[PairAt(Asked(routes, a), key)].key == a.key
  {
    OthersAre(routes, a.key);
    hide AllBalanced, SendBalanced, Others;
    var k := PairAt(Asked(routes, a), key);
    assert k >= |Others(routes, a.key)|;
  }

  lemma OtherServes(routes: seq<Outgoing>, a: Ask, key: Key)
    requires OnePerPair(routes) && AllBalanced(routes) && ProperAsk(a) && !SamePair(a.key, key)
    requires PairAt(routes, key) < |routes|
    ensures PairAt(Asked(routes, a), key) < |Asked(routes, a)|
    ensures Asked(routes, a)[PairAt(Asked(routes, a), key)].key == routes[PairAt(routes, key)].key
  {
    hide OnePerPair, AllBalanced, SendBalanced, Others;
    AskedKeeps(routes, a);
    var routes', i := Asked(routes, a), PairAt(routes, key);
    match Judge(routes, a.key, a.bound)
    case Known(k) => PairIs(routes', key, i);
    case Late =>
    case Anew =>
      var at := OthersHold(routes, a.key, i);
      PairIs(routes', key, at);
  }

  lemma OthersHold(routes: seq<Outgoing>, key: Key, i: nat) returns (at: nat)
    requires i < |routes| && !SamePair(routes[i].key, key)
    ensures at < |Others(routes, key)| && Others(routes, key)[at] == routes[i]
  {
    at := if PairAt(routes, key) < i then i - 1 else i;
  }

  lemma RemoveServes(routes: seq<Outgoing>, i: nat, key: Key)
    requires OnePerPair(routes) && AllBalanced(routes) && i < |routes| && Serves(routes, key)
    requires Serves(Removed(routes, i), key)
    ensures NumberOf(Removed(routes, i), key) == NumberOf(routes, key)
  {
    RemovedKeeps(routes, i);
    hide AllBalanced, SendBalanced;
    var less := Removed(routes, i);
    var k := PairAt(less, key);
    PairIs(routes, key, if k < i then k else k + 1);
  }

  /** The pair is served in this session from moment i to moment j. */
  ghost predicate ServedFrom(run: seq<seq<Outgoing>>, key: Key, i: nat, j: nat)
    requires j < |run|
  {
    forall k :: i <= k <= j ==> Serves(run[k], key)
  }

  /** The largest number asked for, by peers that are not receive-only, in the steps
      from i to j, starting from this one. */
  function Largest(events: seq<Event>, key: Key, i: nat, j: nat, first: nat): nat
    requires i <= j <= |events|
  {
    if i == j then first else
    var before := Largest(events, key, i, j - 1, first);
    if For(events[j - 1], key) && !events[j - 1].ask.bound && events[j - 1].ask.key.route > before
    then events[j - 1].ask.key.route else before
  }

  /** In every history: while a pair is served in one session, its route is the one
      with the largest number asked for. A late interest never brings an older route
      back. */
  lemma {:induction false} NewestIsServed(run: seq<seq<Outgoing>>, events: seq<Event>, key: Key, i: nat, j: nat)
    requires IsHistory(run, events) && i <= j < |run| && ServedFrom(run, key, i, j)
    ensures Serves(run[i], key) && Serves(run[j], key)
    ensures NumberOf(run[j], key) == Largest(events, key, i, j, NumberOf(run[i], key))
  {
    hide Happens, OnePerPair, AllBalanced, Serves, NumberOf;
    assert Serves(run[i], key) && Serves(run[j], key);
    if i < j {
      assert Serves(run[j - 1], key) && ServedFrom(run, key, i, j - 1);
      NewestIsServed(run, events, key, i, j - 1);
      HistoryKeeps(run, events, j - 1);
      HistoryKeeps(run, events, j);
      assert Happens(run[j - 1], events[j - 1], run[j - 1 + 1]);
      StepServes(run[j - 1], events[j - 1], run[j], key);
    }
  }

  lemma StepServes(routes: seq<Outgoing>, e: Event, routes': seq<Outgoing>, key: Key)
    requires OnePerPair(routes) && AllBalanced(routes) && OnePerPair(routes') && Happens(routes, e, routes')
    requires Serves(routes, key) && Serves(routes', key)
    ensures var was, now := NumberOf(routes, key), NumberOf(routes', key);
      if For(e, key) && !e.ask.bound && e.ask.key.route > was then now == e.ask.key.route else now == was
  {
    hide OnePerPair, AllBalanced, SendBalanced, Asked, Removed, Serves, NumberOf;
    match e
    case Asking(a) => AskServes(routes, a, key);
    case Attempting(k, r) => ReplaceServes(routes, k, r, key);
    case Removing(k) => RemoveServes(routes, k, key);
  }

  lemma ReplaceServes(routes: seq<Outgoing>, i: nat, r: Outgoing, key: Key)
    requires i < |routes| && OnePerPair(routes) && OnePerPair(routes[i := r]) && r.key == routes[i].key
    requires Serves(routes, key)
    ensures Serves(routes[i := r], key) && NumberOf(routes[i := r], key) == NumberOf(routes, key)
  {
    PairIs(routes[i := r], key, PairAt(routes, key));
  }

  /** An interest that is not late, with room and a reader that opens, is served under
      its own number; one that is known is served already. */
  lemma InterestIsServed(routes: seq<Outgoing>, a: Ask)
    requires OnePerPair(routes) && AllBalanced(routes) && ProperAsk(a) && a.room && a.created.Some?
    requires Serves(routes, a.key) ==> !a.bound && a.key.route >= NumberOf(routes, a.key)
    ensures Serves(Asked(routes, a), a.key) && NumberOf(Asked(routes, a), a.key) == a.key.route
  {
    var routes' := Asked(routes, a);
    AskedKeeps(routes, a);
    hide AllBalanced, SendBalanced;
    match Judge(routes, a.key, a.bound)
    case Known(k) => PairIs(routes', a.key, k);
    case Late => assert false;
    case Anew =>
      assert routes'[|routes'| - 1] == a.created.value;
      PairIs(routes', a.key, |routes'| - 1);
  }

  function Bid(route: nat, opens: bool): Ask {
    var key := Key(0, 0, 0, route);
    Ask(key, false, false, true, if opens then Some(NewOutgoing(key, 0, false, 0)) else None)
  }

  function Served(route: nat): seq<Outgoing> { [Bid(route, true).created.value] }

  lemma FirstIsServed(route: nat)
    ensures Asked([], Bid(route, true)) == Served(route) && ProperAsk(Bid(route, true))
    ensures var key := Key(0, 0, 0, 0); Serves(Served(route), key) && NumberOf(Served(route), key) == route
  {
    assert [] + Served(route) == Served(route);
  }

  lemma NewerTakesAway(route: nat, more: nat)
    requires route < more
    ensures Asked(Served(route), Bid(more, false)) == [] && ProperAsk(Bid(more, false))
  {
    assert FirstKey(Served(route), Bid(more, false).key) == 1;
    assert PairAt(Served(route), Bid(more, false).key) == 0;
  }

  /** The condition is needed: an interest whose reader does not open takes the route
      of its pair away, and a late one then begins an older route again. */
  lemma OlderMayReturn() returns (run: seq<seq<Outgoing>>, events: seq<Event>)
    ensures IsHistory(run, events) && |events| == 3 && events[0] == Asking(Bid(2, true))
    ensures events[1] == Asking(Bid(3, false)) && events[2] == Asking(Bid(1, true))
    ensures var key := Key(0, 0, 0, 0);
      && Serves(run[1], key) && Serves(run[3], key) && !Serves(run[2], key)
      && NumberOf(run[1], key) == 2 && NumberOf(run[3], key) == 1
  {
    hide Asked, ProperAsk, Served, Bid;
    run := [[], Served(2), [], Served(1)];
    events := [Asking(Bid(2, true)), Asking(Bid(3, false)), Asking(Bid(1, true))];
    FirstIsServed(2);
    NewerTakesAway(2, 3);
    FirstIsServed(1);
  }
}
