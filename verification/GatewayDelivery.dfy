/** Where the requests go: over every run of the link, and of the request table with
    it, each one that was sent is a job, is under way, or went down with its
    connection. */
module GatewayDelivery {
  import opened GatewayLink
  import T = RequestBatches
  import S = GatewaySessions

  // ---------------------------------------------------------------------
  // History of a link
  // ---------------------------------------------------------------------

  /** The move reads a request on a connection that has been greeted. */
  predicate Takes(l: Link, m: Move) {
    m.DoReceive? && ReceiverReads(l, m.i) && l.connections[m.i].toReceiver[0].Ask? && l.connections[m.i].receiver.ready
  }

  function Head(l: Link, m: Move): Frame
    requires Takes(l, m)
  {
    l.connections[m.i].toReceiver[0]
  }

  /** The requests read in the first n steps while the job queue had room. */
  function Taken(run: seq<Link>, moves: seq<Move>, n: nat): seq<Frame>
    requires n <= |run| && n <= |moves|
  {
    if n == 0 then [] else
    Taken(run, moves, n - 1) +
    if Takes(run[n - 1], moves[n - 1]) && !moves[n - 1].full then [Head(run[n - 1], moves[n - 1])] else []
  }

  /** Those read on connection c: with room in the job queue, and without. */
  function ReadOn(run: seq<Link>, moves: seq<Move>, n: nat, c: nat, full: bool): seq<Frame>
    requires n <= |run| && n <= |moves|
  {
    if n == 0 then [] else
    ReadOn(run, moves, n - 1, c, full) +
    if Takes(run[n - 1], moves[n - 1]) && moves[n - 1].i == c && moves[n - 1].full == full
    then [Head(run[n - 1], moves[n - 1])] else []
  }

  /** The requests sent in the first n steps, and those sent on connection c. */
  function Sent(moves: seq<Move>, n: nat): seq<Frame>
    requires n <= |moves|
  {
    if n == 0 then [] else
    Sent(moves, n - 1) + if moves[n - 1].DoSend? then [Ask(moves[n - 1].id, moves[n - 1].goal)] else []
  }

  function SentOn(moves: seq<Move>, n: nat, c: nat): seq<Frame>
    requires n <= |moves|
  {
    if n == 0 then [] else
    SentOn(moves, n - 1, c) +
    if moves[n - 1].DoSend? && moves[n - 1].i == c then [Ask(moves[n - 1].id, moves[n - 1].goal)] else []
  }

  function Asks(frames: seq<Frame>): seq<Frame> {
    if frames == [] then [] else (if frames[0].Ask? then [frames[0]] else []) + Asks(frames[1..])
  }

  function UnderWay(l: Link, c: nat): seq<Frame> {
    if c < |l.connections| then Asks(l.connections[c].toReceiver) else []
  }

  predicate Listens(l: Link, c: nat) { c < |l.connections| ==> l.connections[c].receiver.Open? }

  // ---------------------------------------------------------------------
  // One step
  // ---------------------------------------------------------------------

  lemma {:induction false} OneMoreAsk(frames: seq<Frame>, f: Frame)
    ensures Asks(frames + [f]) == Asks(frames) + if f.Ask? then [f] else []
  {
    if frames == [] {
      assert (frames + [f])[1..] == [];
    } else {
      OneMoreAsk(frames[1..], f);
      assert (frames + [f])[1..] == frames[1..] + [f];
    }
  }

  /** A request that is read with room in the job queue is the next job; nothing
      else makes one. */
  lemma StepJobs(l: Link, m: Move)
    requires Inv(l) && Enabled(l, m)
    ensures Act(l, m).jobs == l.jobs + if Takes(l, m) && !m.full then [Head(l, m)] else []
  {
    if Takes(l, m) { ReadIsNew(l, m.i); }
    hide Inv;
  }

  /** Requests enter at one end and leave at the other. */
  predicate Flow(way: seq<Frame>, sent: seq<Frame>, read: seq<Frame>, lost: seq<Frame>, way': seq<Frame>) {
    way + sent == read + lost + way'
  }

  lemma Flows(f: Frame, way: seq<Frame>)
    ensures Flow(way, [], [], [], way) && Flow(way, [f], [], [], way + [f])
    ensures Flow([f] + way, [], [f], [], way) && Flow([f] + way, [], [], [f], way)
  {
  }

  /** What a step adds to, and takes from, connection c. */
  predicate Moves(l: Link, l': Link, c: nat, sent: seq<Frame>, read: seq<Frame>, lost: seq<Frame>) {
    && Flow(UnderWay(l, c), sent, read, lost, UnderWay(l', c))
    && (Listens(l', c) ==> Listens(l, c) && lost == [])
    && (!Listens(l, c) ==> read == [] && lost == [])
    && |lost| <= 1 && (lost != [] ==> read == [])
  }

  function SentBy(m: Move, c: nat): seq<Frame> {
    if m.DoSend? && m.i == c then [Ask(m.id, m.goal)] else []
  }

  function ReadBy(l: Link, m: Move, c: nat, full: bool): seq<Frame> {
    if Takes(l, m) && m.i == c && m.full == full then [Head(l, m)] else []
  }

  lemma SendMoves(l: Link, m: Move, c: nat)
    requires Enabled(l, m) && m.DoSend?
    ensures Moves(l, Act(l, m), c, SentBy(m, c), [], [])
  {
    hide Flow;
    Flows(Ask(m.id, m.goal), UnderWay(l, c));
    if m.i == c { OneMoreAsk(l.connections[c].toReceiver, Ask(m.id, m.goal)); }
    hide Asks;
  }

  lemma ReceiveMoves(l: Link, m: Move, c: nat)
    requires Inv(l) && Enabled(l, m) && m.DoReceive?
    ensures Moves(l, Act(l, m), c, [], ReadBy(l, m, c, false), ReadBy(l, m, c, true))
  {
    if Takes(l, m) { ReadIsNew(l, m.i); }
    hide Inv;
    if l.connections[m.i].toReceiver[0].Hello? { HelloMoves(l, m.i, c); } else { AskMoves(l, m, c); }
  }

  lemma HelloMoves(l: Link, i: nat, c: nat)
    requires ReceiverReads(l, i) && l.connections[i].toReceiver[0].Hello?
    ensures Moves(l, ReceiverHello(l, i), c, [], [], [])
  {
    hide Flow;
    Flows(Hello, UnderWay(l, c));
    var frames := l.connections[i].toReceiver;
    assert Asks(frames) == Asks(frames[1..]);
    hide Asks;
  }

  predicate IsNew(l: Link, f: Frame) { f.Ask? && f.id > l.last && (f.goal != 0 ==> f.goal > l.lastGoal) }

  lemma AskLeaves(l: Link, i: nat, full: bool)
    requires ReceiverReads(l, i) && l.connections[i].toReceiver[0].Ask?
    requires l.connections[i].receiver.ready ==> IsNew(l, l.connections[i].toReceiver[0])
    ensures var c := l.connections[i];
      ReceiverAsk(l, i, full).connections == l.connections[i :=
        if !c.receiver.ready then c.(receiver := Closed)
        else if full then c.(toReceiver := c.toReceiver[1..], receiver := Closed)
        else c.(toReceiver := c.toReceiver[1..])]
  {
  }

  lemma AskMoves(l: Link, m: Move, c: nat)
    requires Enabled(l, m) && m.DoReceive? && l.connections[m.i].toReceiver[0].Ask?
    requires l.connections[m.i].receiver.ready ==> IsNew(l, l.connections[m.i].toReceiver[0])
    ensures Moves(l, ReceiverAsk(l, m.i, m.full), c, [], ReadBy(l, m, c, false), ReadBy(l, m, c, true))
  {
    hide ReceiverAsk, IsNew, Flow;
    AskLeaves(l, m.i, m.full);
    var frames := l.connections[m.i].toReceiver;
    Flows(frames[0], UnderWay(l, c));
    Flows(frames[0], Asks(frames[1..]));
    assert Asks(frames) == [frames[0]] + Asks(frames[1..]);
    hide Asks;
  }

  lemma ConnectMoves(l: Link, c: nat)
    ensures Moves(l, Connect(l), c, [], [], [])
  {
    hide Flow;
    Flows(Hello, UnderWay(l, c));
    assert Asks([Hello]) == [];
  }

  lemma GreetMoves(l: Link, i: nat, c: nat)
    requires SenderReads(l, i)
    ensures Moves(l, SenderHello(l, i), c, [], [], [])
  {
    hide Flow;
    Flows(Hello, UnderWay(l, c));
    var frames := l.connections[i].toReceiver;
    OneMoreAsk(frames, Hello);
    assert Asks(frames + [Hello]) == Asks(frames);
    hide Asks;
  }

  lemma DropMoves(l: Link, i: nat, c: nat)
    requires i < |l.connections|
    ensures Moves(l, DropSender(l, i), c, [], [], []) && Moves(l, DropReceiver(l, i), c, [], [], [])
  {
    hide Flow, Asks;
    Flows(Hello, UnderWay(l, c));
  }

  lemma StepMoves(l: Link, m: Move, c: nat)
    requires Inv(l) && Enabled(l, m)
    ensures Moves(l, Act(l, m), c, SentBy(m, c), ReadBy(l, m, c, false), ReadBy(l, m, c, true))
  {
    hide Inv, Moves, SenderHello;
    match m
    case DoConnect => ConnectMoves(l, c);
    case DoDropSender(i) => DropMoves(l, i, c);
    case DoDropReceiver(i) => DropMoves(l, i, c);
    case DoSenderHello(i) => GreetMoves(l, i, c);
    case DoSend(i, id, goal) => SendMoves(l, m, c);
    case DoReceive(i, full) => ReceiveMoves(l, m, c);
  }

  // ---------------------------------------------------------------------
  // Whole runs of the link
  // ---------------------------------------------------------------------

  /** In every run: the jobs are exactly the requests that were read, on connections
      that had been greeted, while the job queue had room, in that order. */
  lemma {:induction false} JobsAreTaken(run: seq<Link>, moves: seq<Move>, n: nat)
    requires IsRun(run, moves) && n < |run|
    ensures run[n].jobs == Taken(run, moves, n)
  {
    hide Act, Enabled, Inv, Takes, Head;
    if n > 0 {
      JobsAreTaken(run, moves, n - 1);
      RunKeepsInv(run, moves, n - 1);
      assert run[n - 1 + 1] == Act(run[n - 1], moves[n - 1]);
      StepJobs(run[n - 1], moves[n - 1]);
    }
  }

  /** In every run, on every connection: the requests sent are those that became
      jobs, then the one that was read when there was no room, then those under way.
      None is lost while the receiver keeps the connection. */
  lemma {:induction false} ConnectionsDeliver(run: seq<Link>, moves: seq<Move>, n: nat, c: nat)
    requires IsRun(run, moves) && n < |run|
    ensures var lost := ReadOn(run, moves, n, c, true);
      && SentOn(moves, n, c) == ReadOn(run, moves, n, c, false) + lost + UnderWay(run[n], c)
      && (Listens(run[n], c) ==> lost == []) && |lost| <= 1
  {
    hide Act, Enabled, Inv, Takes, Head, UnderWay, Listens, Flow;
    if n == 0 {
      NoConnections(run[0], c);
    } else {
      var l, m := run[n - 1], moves[n - 1];
      ConnectionsDeliver(run, moves, n - 1, c);
      RunKeepsInv(run, moves, n - 1);
      assert run[n - 1 + 1] == Act(l, m);
      StepMoves(l, m, c);
      Chain(SentOn(moves, n - 1, c), ReadOn(run, moves, n - 1, c, false), ReadOn(run, moves, n - 1, c, true),
            UnderWay(l, c), SentBy(m, c), ReadBy(l, m, c, false), ReadBy(l, m, c, true), UnderWay(run[n], c));
    }
  }

  lemma NoConnections(l: Link, c: nat)
    requires exists d :: l == Start(d)
    ensures UnderWay(l, c) == []
  {
  }

  /** Sequences that grow at one end and shrink at the other. */
  lemma Chain(sent: seq<Frame>, read: seq<Frame>, lost: seq<Frame>, way: seq<Frame>,
              sent': seq<Frame>, read': seq<Frame>, lost': seq<Frame>, way': seq<Frame>)
    requires sent == read + lost + way && Flow(way, sent', read', lost', way')
    requires lost == [] || (read' == [] && lost' == [])
    requires lost' != [] ==> read' == []
    ensures sent + sent' == (read + read') + (lost + lost') + way'
  {
    assert sent + sent' == read + lost + (way + sent');
    if lost == [] {
      assert read + lost + (read' + lost' + way') == (read + read') + (lost + lost') + way';
    } else {
      assert read + lost + (read' + lost' + way') == (read + read') + (lost + lost') + way';
    }
  }

  /** Every request read on a connection with room is a job. */
  lemma {:induction false} ReadIsJob(run: seq<Link>, moves: seq<Move>, n: nat, c: nat, f: Frame)
    requires n <= |run| && n <= |moves| && f in ReadOn(run, moves, n, c, false)
    ensures f in Taken(run, moves, n)
  {
    if f in ReadOn(run, moves, n - 1, c, false) { ReadIsJob(run, moves, n - 1, c, f); }
  }

  lemma {:induction false} SentOnSome(run: seq<Link>, moves: seq<Move>, n: nat, f: Frame) returns (c: nat)
    requires IsRun(run, moves) && n < |run| && f in Sent(moves, n)
    ensures c < |run[n].connections| && f in SentOn(moves, n, c)
  {
    var l, m := run[n - 1], moves[n - 1];
    assert run[n - 1 + 1] == Act(l, m);
    NoneVanishes(l, m);
    if f in Sent(moves, n - 1) { c := SentOnSome(run, moves, n - 1, f); } else { c := m.i; }
  }

  lemma NoneVanishes(l: Link, m: Move)
    requires Enabled(l, m)
    ensures |l.connections| <= |Act(l, m).connections|
  {
  }

  lemma {:induction false} OnlyAsks(frames: seq<Frame>, f: Frame)
    ensures f in Asks(frames) <==> f.Ask? && f in frames
  {
    if frames != [] {
      OnlyAsks(frames[1..], f);
      assert frames == [frames[0]] + frames[1..];
    }
  }

  /** In every run: a request that was sent is a job, or is under way on some
      connection, or was read on a connection that the receiver dropped for it. */
  lemma SentIsSomewhere(run: seq<Link>, moves: seq<Move>, n: nat, f: Frame) returns (c: nat)
    requires IsRun(run, moves) && n < |run| && f in Sent(moves, n)
    ensures c < |run[n].connections|
    ensures f in run[n].jobs || f in run[n].connections[c].toReceiver
      || (run[n].connections[c].receiver.Closed? && ReadOn(run, moves, n, c, true) == [f])
  {
    c := SentOnSome(run, moves, n, f);
    ConnectionsDeliver(run, moves, n, c);
    JobsAreTaken(run, moves, n);
    OnlyAsks(run[n].connections[c].toReceiver, f);
    hide IsRun, Taken, SentOn, Asks;
    var read, lost := ReadOn(run, moves, n, c, false), ReadOn(run, moves, n, c, true);
    assert f in read || f in lost || f in UnderWay(run[n], c);
    if f in read { ReadIsJob(run, moves, n, c, f); }
  }

  // ---------------------------------------------------------------------
  // Without interference
  // ---------------------------------------------------------------------

  predicate Leads(l: Link, moves: seq<Move>, l': Link)
    decreases |moves|
  {
    if moves == [] then l' == l else Enabled(l, moves[0]) && Leads(Act(l, moves[0]), moves[1..], l')
  }

  ghost predicate NobodyNamed(l: Link) {
    forall k :: 0 <= k < |l.connections| ==> !SenderNamed(l.connections[k]) && !ReceiverNamed(l.connections[k])
  }

  /** The lower host connects, the other end answers its HELLO, and it reads that. */
  function Handshake(l: Link): seq<Move> {
    var i := |l.connections|;
    if l.senderConnects then [DoConnect, DoReceive(i, false), DoSenderHello(i)]
    else [DoConnect, DoSenderHello(i), DoReceive(i, false)]
  }

  function With(l: Link, c: Connection): Link { l.(connections := l.connections + [c]) }

  lemma Replaced(l: Link, c: Connection, d: Connection)
    ensures With(l, c).(connections := With(l, c).connections[|l.connections| := d]) == With(l, d)
  {
    assert (l.connections + [c])[|l.connections| := d] == l.connections + [d];
  }

  /** The three steps of a handshake, and the connection after each. */
  function Stage(l: Link, k: nat): Link {
    var greeting, both := Open(true, false), Open(true, true);
    if k == 0 then Connect(l)
    else if k > 1 then With(l, Connection(both, both, [], 0))
    else if l.senderConnects then With(l, Connection(greeting, both, [], 1))
    else With(l, Connection(both, greeting, [Hello], 0))
  }

  lemma Answered(l: Link)
    requires NobodyNamed(l)
    ensures var m := Handshake(l)[1]; Enabled(Stage(l, 0), m) && Act(Stage(l, 0), m) == Stage(l, 1)
  {
    var c := Stage(l, 0).connections[|l.connections|];
    Replaced(l, c, Stage(l, 1).connections[|l.connections|]);
    assert forall k :: 0 <= k < |l.connections| ==> Stage(l, 0).connections[k] == l.connections[k];
    assert if l.senderConnects then c.toReceiver[1..] == [] else c.toReceiver + [Hello] == [Hello];
  }

  lemma AnswerRead(l: Link)
    ensures var m := Handshake(l)[2]; Enabled(Stage(l, 1), m) && Act(Stage(l, 1), m) == Stage(l, 2)
  {
    var c := Stage(l, 1).connections[|l.connections|];
    Replaced(l, c, Stage(l, 2).connections[|l.connections|]);
    assert c.toReceiver != [] ==> c.toReceiver[1..] == [];
  }

  /** A handshake that nothing disturbs leaves both ends ready, and nothing else
      changed. */
  lemma HandshakeCompletes(l: Link)
    requires NobodyNamed(l)
    ensures var both := Open(true, true);
      Leads(l, Handshake(l), l.(connections := l.connections + [Connection(both, both, [], 0)]))
  {
    var moves, done := Handshake(l), Stage(l, 2);
    assert CanConnect(l) && moves == [DoConnect] + moves[1..] && moves[1..] == [moves[1]] + moves[2..];
    Answered(l);
    AnswerRead(l);
    hide Handshake, Stage, SenderHello, ReceiverHello, ReceiverAsk;
    assert moves[1..][1..] == [moves[2]] && [moves[2]][1..] == [];
    assert Leads(done, [], done);
    assert Leads(Stage(l, 1), [moves[2]], done);
    assert Leads(Stage(l, 0), moves[1..], done);
  }

  /** On a ready connection a request that is sent and read becomes the next job. */
  lemma RequestArrives(l: Link, i: nat, id: Id, goal: nat)
    requires Inv(l) && i < |l.connections| && IsNext(l, id, goal)
    requires l.connections[i] == Connection(Open(true, true), Open(true, true), [], 0)
    ensures exists l' :: Leads(l, [DoSend(i, id, goal), DoReceive(i, false)], l') && l'.jobs == l.jobs + [Ask(id, goal)]
  {
    var moves := [DoSend(i, id, goal), DoReceive(i, false)];
    var l1 := Act(l, moves[0]);
    SendKeeps(l, i, id, goal);
    StepJobs(l1, moves[1]);
    var l2 := Act(l1, moves[1]);
    hide Inv, Act, Enabled;
    assert moves[1..] == [moves[1]] && [moves[1]][1..] == [];
    assert Leads(l2, [], l2);
    assert Leads(l1, [moves[1]], l2);
    assert Leads(l, moves, l2);
  }

  // ---------------------------------------------------------------------
  // With the request table
  // ---------------------------------------------------------------------

  /** What the table put on the wire to one host. */
  function To(wire: seq<T.Sent>, h: T.HostId): seq<Frame> {
    if wire == [] then [] else
    var e := wire[|wire| - 1];
    To(wire[..|wire| - 1], h) + if e.host == h then [Ask(e.id, e.goal)] else []
  }

  lemma {:induction false} OnTheWire(wire: seq<T.Sent>, h: T.HostId, k: nat)
    requires k < |wire| && wire[k].host == h
    ensures Ask(wire[k].id, wire[k].goal) in To(wire, h)
  {
    if k < |wire| - 1 { OnTheWire(wire[..|wire| - 1], h, k); }
  }

  /** The link's part of a run of both: the moves of the table show as sends. */
  lemma {:induction false} LinkRun(run: seq<S.Session>, moves: seq<S.Move>, n: nat)
    returns (links: seq<Link>, steps: seq<Move>)
    requires S.IsRun(run, moves) && n < |run|
    ensures IsRun(links, steps) && links[|steps|] == run[n].link
    ensures Sent(steps, |steps|) == To(run[n].table.wire, run[n].host)
  {
    hide S.Act, S.Enabled, S.Inv, IsRun, Sent, To;
    if n == 0 {
      links, steps := [run[0].link], [];
      NothingYet(run[0]);
    } else {
      links, steps := LinkRun(run, moves, n - 1);
      assert run[n - 1 + 1] == S.Act(run[n - 1], moves[n - 1]);
      SameHost(run[n - 1], moves[n - 1]);
      S.RunKeepsInv(run, moves, n - 1);
      links, steps := LinkStep(run[n - 1], moves[n - 1], links, steps);
    }
  }

  lemma NothingYet(s: S.Session)
    requires s.table == T.EMPTY_STATE && exists d :: s.link == Start(d)
    ensures IsRun([s.link], []) && Sent([], 0) == To(s.table.wire, s.host)
  {
  }

  lemma SameHost(s: S.Session, m: S.Move)
    requires S.Enabled(s, m)
    ensures S.Act(s, m).host == s.host
  {
  }

  lemma LinkStep(s: S.Session, m: S.Move, links: seq<Link>, steps: seq<Move>)
    returns (links': seq<Link>, steps': seq<Move>)
    requires S.Inv(s) && S.Enabled(s, m) && IsRun(links, steps) && links[|steps|] == s.link
    requires Sent(steps, |steps|) == To(s.table.wire, s.host)
    ensures IsRun(links', steps') && links'[|steps'|] == S.Act(s, m).link
    ensures Sent(steps', |steps'|) == To(S.Act(s, m).table.wire, s.host)
  {
    hide IsRun, Enabled, Act, Sent, To, T.Act, S.Inv;
    match m
    case AtLink(l) =>
      links', steps' := Append(links, steps, l);
    case AtTable(t) =>
      S.WireOnlyTransmits(s.table, t);
      if t.Transmitting? {
        var p := s.table.pending[t.i];
        WireGrows(s.table.wire, T.Sent(p.target.host, p.id, p.goal), s.host);
      }
      if S.Hands(s, t) {
        HandedIsNext(s, t);
        var p := s.table.pending[t.i];
        links', steps' := Append(links, steps, DoSend(t.connection, p.id, p.goal));
        SendActs(s.link, t.connection, p.id, p.goal);
      } else {
        links', steps' := links, steps;
      }
  }

  lemma SendActs(l: Link, i: nat, id: Id, goal: nat)
    requires Enabled(l, DoSend(i, id, goal))
    ensures Act(l, DoSend(i, id, goal)) == Send(l, i, id, goal)
  {
  }

  lemma HandedIsNext(s: S.Session, t: T.Move)
    requires S.Inv(s) && S.Enabled(s, S.AtTable(t)) && S.Hands(s, t)
    ensures Enabled(s.link, DoSend(t.connection, s.table.pending[t.i].id, s.table.pending[t.i].goal))
  {
    hide S.Inv, T.Enabled;
    S.TransmitIsNext(s, t.i, t.connection);
  }

  lemma WireGrows(wire: seq<T.Sent>, e: T.Sent, h: T.HostId)
    ensures To(wire + [e], h) == To(wire, h) + if e.host == h then [Ask(e.id, e.goal)] else []
  {
    assert (wire + [e])[..|wire + [e]| - 1] == wire;
  }

  lemma Append(links: seq<Link>, steps: seq<Move>, m: Move) returns (links': seq<Link>, steps': seq<Move>)
    requires IsRun(links, steps) && Enabled(links[|steps|], m)
    ensures IsRun(links', steps') && links'[|steps'|] == Act(links[|steps|], m)
    ensures Sent(steps', |steps'|) == Sent(steps, |steps|) + if m.DoSend? then [Ask(m.id, m.goal)] else []
  {
    links', steps' := links + [Act(links[|steps|], m)], steps + [m];
    SamePrefix(steps, m, |steps|);
    hide Enabled, Act;
  }

  lemma {:induction false} SamePrefix(steps: seq<Move>, m: Move, n: nat)
    requires n <= |steps|
    ensures Sent(steps + [m], n) == Sent(steps, n)
  {
    if n > 0 { SamePrefix(steps, m, n - 1); }
  }

  /** In every run of the table and the link: a request that the table put on the
      wire to the host is a job there, or under way, or was read on a connection that
      the receiver dropped for want of room. Together with SessionIsExact: at most
      once, and lost only with a connection. */
  lemma TransmittedIsSomewhere(run: seq<S.Session>, moves: seq<S.Move>, n: nat, k: nat)
    returns (links: seq<Link>, steps: seq<Move>, c: nat)
    requires S.IsRun(run, moves) && n < |run|
    requires k < |run[n].table.wire| && run[n].table.wire[k].host == run[n].host
    ensures IsRun(links, steps) && links[|steps|] == run[n].link && c < |run[n].link.connections|
    ensures var f, l := Ask(run[n].table.wire[k].id, run[n].table.wire[k].goal), run[n].link;
      f in l.jobs || f in l.connections[c].toReceiver
      || (l.connections[c].receiver.Closed? && ReadOn(links, steps, |steps|, c, true) == [f])
  {
    links, steps := LinkRun(run, moves, n);
    OnTheWire(run[n].table.wire, run[n].host, k);
    hide IsRun, S.IsRun, Sent, To, ReadOn;
    c := SentIsSomewhere(links, steps, |steps|, Ask(run[n].table.wire[k].id, run[n].table.wire[k].goal));
  }
}
