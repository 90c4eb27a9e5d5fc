/** The request table and the link to one host together: what the table transmits
    is what the link sends, so the receiver's jobs are the table's requests. */
module GatewaySessions {
  import opened Wire
  import T = RequestBatches
  import L = GatewayLink

  datatype Session = Session(host: T.HostId, table: T.State, link: L.Link)

  /** The last id, and the last goal, handed to a connection to the host. */
  function LastId(wire: seq<T.Sent>, h: T.HostId): nat {
    if wire == [] then 0
    else if wire[|wire| - 1].host == h then wire[|wire| - 1].id
    else LastId(wire[..|wire| - 1], h)
  }

  function LastGoal(wire: seq<T.Sent>, h: T.HostId): nat {
    if wire == [] then 0
    else if wire[|wire| - 1].host == h && wire[|wire| - 1].goal != 0 then wire[|wire| - 1].goal
    else LastGoal(wire[..|wire| - 1], h)
  }

  // ---------------------------------------------------------------------
  // Steps
  // ---------------------------------------------------------------------

  /** The table hands request i to the connection of that index. */
  predicate Hands(s: Session, m: T.Move) {
    m.Transmitting? && m.i < |s.table.pending| && s.table.pending[m.i].target.host == s.host
  }

  datatype Move = AtTable(table: T.Move) | AtLink(link: L.Move)

  /** Handing over needs a ready connection; nothing is asked of the numbers. */
  predicate Enabled(s: Session, m: Move) {
    match m
    case AtTable(t) => T.Enabled(s.table, t) && (Hands(s, t) ==> L.CanSend(s.link, t.connection))
    case AtLink(l) => !l.DoSend? && L.Enabled(s.link, l)
  }

  function Act(s: Session, m: Move): Session
    requires Enabled(s, m)
  {
    match m
    case AtTable(t) =>
      var done := s.(table := T.Act(s.table, t));
      if Hands(s, t)
      then done.(link := L.Send(s.link, t.connection, s.table.pending[t.i].id, s.table.pending[t.i].goal))
      else done
    case AtLink(l) => s.(link := L.Act(s.link, l))
  }

  ghost predicate IsRun(run: seq<Session>, moves: seq<Move>) {
    && |run| == |moves| + 1 && run[0].table == T.EMPTY_STATE && (exists d :: run[0].link == L.Start(d))
    && forall i :: 0 <= i < |moves| ==> Enabled(run[i], moves[i]) && run[i + 1] == Act(run[i], moves[i])
  }

  // ---------------------------------------------------------------------
  // What every step keeps
  // ---------------------------------------------------------------------

  ghost predicate Sends(wire: seq<T.Sent>, h: T.HostId, f: L.Frame) { f.Ask? ==> WasSent(wire, h, f.id, f.goal) }

  ghost predicate WasSent(wire: seq<T.Sent>, h: T.HostId, id: nat, goal: nat) {
    exists k :: 0 <= k < |wire| && wire[k].host == h && wire[k].id == id && wire[k].goal == goal
  }

  /** Requests under way, and jobs, were handed over by the table. */
  ghost predicate FromTable(wire: seq<T.Sent>, h: T.HostId, l: L.Link) {
    && (forall c, k :: 0 <= c < |l.connections| && 0 <= k < |l.connections[c].toReceiver| ==>
          Sends(wire, h, l.connections[c].toReceiver[k]))
    && (forall k :: 0 <= k < |l.jobs| ==> Sends(wire, h, l.jobs[k]))
  }

  ghost predicate Inv(s: Session) {
    && T.Inv(s.table) && L.Inv(s.link) && FromTable(s.table.wire, s.host, s.link)
    && s.link.sent == LastId(s.table.wire, s.host) && s.link.sentGoal == LastGoal(s.table.wire, s.host)
  }

  lemma {:induction false} LastIsOnWire(wire: seq<T.Sent>, h: T.HostId)
    ensures LastId(wire, h) == 0 || exists k :: 0 <= k < |wire| && wire[k].host == h && wire[k].id == LastId(wire, h)
    ensures LastGoal(wire, h) == 0 || exists k ::
        0 <= k < |wire| && wire[k].host == h && wire[k].goal == LastGoal(wire, h)
  {
    if wire != [] {
      var n := |wire| - 1;
      LastIsOnWire(wire[..n], h);
      assert wire[n].host == wire[n].host;
    }
  }

  /** The first unsent request to the host has the next numbers. */
  lemma TransmitIsNext(s: Session, i: nat, connection: nat)
    requires Inv(s) && T.Enabled(s.table, T.Transmitting(i, connection)) && s.table.pending[i].target.host == s.host
    ensures L.IsNext(s.link, s.table.pending[i].id, s.table.pending[i].goal)
  {
    LastIsOnWire(s.table.wire, s.host);
    hide L.Inv, FromTable, T.BatchesAre, T.SelectedAre, T.PendingAre, T.Distinct, T.QueuedAre, LastId, LastGoal;
  }

  lemma LastAfter(wire: seq<T.Sent>, e: T.Sent, h: T.HostId)
    ensures LastId(wire + [e], h) == if e.host == h then e.id else LastId(wire, h)
    ensures LastGoal(wire + [e], h) == if e.host == h && e.goal != 0 then e.goal else LastGoal(wire, h)
  {
    assert (wire + [e])[..|wire + [e]| - 1] == wire;
  }

  lemma StillSent(wire: seq<T.Sent>, e: T.Sent, h: T.HostId, l: L.Link)
    requires FromTable(wire, h, l)
    ensures FromTable(wire + [e], h, l)
  {
    forall f: L.Frame | Sends(wire, h, f) ensures Sends(wire + [e], h, f) {
      if f.Ask? {
        var k :| 0 <= k < |wire| && wire[k].host == h && wire[k].id == f.id && wire[k].goal == f.goal;
        assert (wire + [e])[k] == wire[k];
      }
    }
  }

  lemma SendIsFromTable(wire: seq<T.Sent>, h: T.HostId, l: L.Link, i: nat, id: nat, goal: nat)
    requires FromTable(wire, h, l) && L.CanSend(l, i) && Sends(wire, h, L.Ask(id, goal))
    ensures FromTable(wire, h, L.Send(l, i, id, goal))
  {
    hide Sends;
  }

  lemma LinkIsFromTable(wire: seq<T.Sent>, h: T.HostId, l: L.Link, m: L.Move)
    requires FromTable(wire, h, l) && L.Enabled(l, m) && !m.DoSend?
    ensures FromTable(wire, h, L.Act(l, m))
    ensures L.Act(l, m).sent == l.sent && L.Act(l, m).sentGoal == l.sentGoal
  {
    assert Sends(wire, h, L.Hello);
    hide Sends;
    if m.DoReceive? {
      ReceiveIsFromTable(wire, h, l, m.i, m.full);
    } else {
      hide L.ReceiverAsk, L.ReceiverHello;
    }
  }

  lemma ReceiveIsFromTable(wire: seq<T.Sent>, h: T.HostId, l: L.Link, i: nat, full: bool)
    requires FromTable(wire, h, l) && L.ReceiverReads(l, i)
    ensures var l' := if l.connections[i].toReceiver[0].Hello? then L.ReceiverHello(l, i)
        else L.ReceiverAsk(l, i, full);
      FromTable(wire, h, l') && l'.sent == l.sent && l'.sentGoal == l.sentGoal
  {
    hide Sends;
  }

  lemma WireOnlyTransmits(s: T.State, m: T.Move)
    requires T.Enabled(s, m)
    ensures T.Act(s, m).wire == if m.Transmitting?
        then s.wire + [T.Sent(s.pending[m.i].target.host, s.pending[m.i].id, s.pending[m.i].goal)] else s.wire
  {
    hide T.Requests, T.Objection;
  }

  lemma ActKeeps(s: Session, m: Move)
    requires Inv(s) && Enabled(s, m)
    ensures Inv(Act(s, m))
  {
    match m
    case AtTable(t) => TableKeeps(s, t);
    case AtLink(l) =>
      hide T.Inv, L.Inv, FromTable, L.Act, L.Enabled;
      L.ActKeeps(s.link, l);
      LinkIsFromTable(s.table.wire, s.host, s.link, l);
  }

  lemma TableKeeps(s: Session, t: T.Move)
    requires Inv(s) && Enabled(s, AtTable(t))
    ensures Inv(Act(s, AtTable(t)))
  {
    hide T.Inv, L.Inv, FromTable, T.Act, LastId, LastGoal, L.Send;
    var wire, h := s.table.wire, s.host;
    T.ActKeeps(s.table, t);
    WireOnlyTransmits(s.table, t);
    if t.Transmitting? {
      var p := s.table.pending[t.i];
      var e := T.Sent(p.target.host, p.id, p.goal);
      LastAfter(wire, e, h);
      StillSent(wire, e, h, s.link);
      if Hands(s, t) { HandOver(s, t.i, t.connection, e); }
    }
  }

  lemma HandOver(s: Session, i: nat, connection: nat, e: T.Sent)
    requires Inv(s) && T.Enabled(s.table, T.Transmitting(i, connection)) && L.CanSend(s.link, connection)
    requires s.table.pending[i].target.host == s.host
    requires e == T.Sent(s.host, s.table.pending[i].id, s.table.pending[i].goal)
    ensures var l := L.Send(s.link, connection, e.id, e.goal);
      && L.Inv(l) && FromTable(s.table.wire + [e], s.host, l)
      && l.sent == LastId(s.table.wire + [e], s.host) && l.sentGoal == LastGoal(s.table.wire + [e], s.host)
  {
    var wire := s.table.wire + [e];
    TransmitIsNext(s, i, connection);
    L.SendKeeps(s.link, connection, e.id, e.goal);
    LastAfter(s.table.wire, e, s.host);
    StillSent(s.table.wire, e, s.host, s.link);
    assert wire[|s.table.wire|] == e;
    assert Sends(wire, s.host, L.Ask(e.id, e.goal));
    SendIsFromTable(wire, s.host, s.link, connection, e.id, e.goal);
    hide T.Inv, L.Inv, FromTable, LastId, LastGoal;
  }

  lemma StartHolds(s: Session)
    requires s.table == T.EMPTY_STATE && exists d :: s.link == L.Start(d)
    ensures Inv(s)
  {
    EmptyHolds();
    hide T.Inv;
  }

  lemma EmptyHolds()
    ensures T.Inv(T.EMPTY_STATE) && T.EMPTY_STATE.wire == []
  {
    var start := [T.Moment(T.Taking, T.EMPTY_STATE)];
    assert T.IsRun(start);
    T.RunKeepsInv(start, 0);
  }

  lemma {:induction false} RunKeepsInv(run: seq<Session>, moves: seq<Move>, i: nat)
    requires IsRun(run, moves) && i < |run|
    ensures Inv(run[i])
  {
    hide Act, Enabled, Inv;
    if i == 0 {
      StartHolds(run[0]);
    } else {
      RunKeepsInv(run, moves, i - 1);
      assert run[i - 1 + 1] == Act(run[i - 1], moves[i - 1]);
      ActKeeps(run[i - 1], moves[i - 1]);
    }
  }

  /** In every run of the request table and the link: the jobs at the receiver are
      requests that the table transmitted, none of them twice, in the order of their
      ids and goals, and none is taken for a replay. */
  lemma SessionIsExact(run: seq<Session>, moves: seq<Move>, i: nat)
    requires IsRun(run, moves) && i < |run|
    ensures var l, wire := run[i].link, run[i].table.wire;
      && l.ignored == 0 && L.JobsAscend(l.jobs, l.last, l.lastGoal)
      && forall k :: 0 <= k < |l.jobs| ==> l.jobs[k].Ask? && WasSent(wire, run[i].host, l.jobs[k].id, l.jobs[k].goal)
  {
    RunKeepsInv(run, moves, i);
    hide T.Inv, WasSent;
    assert forall k :: 0 <= k < |run[i].link.jobs| ==> Sends(run[i].table.wire, run[i].host, run[i].link.jobs[k]);
  }
}
