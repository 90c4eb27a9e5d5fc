/** What a receiver has believed of one host, over whole runs of owners, network
    and receiver: the order of its announcements, and which of them, repeated, can
    bring a lost peer back. */
module PeerHistory {
  import opened Wire
  import opened NetworkTypes
  import opened EndpointMetadata
  import opened PeerTable
  import opened MetadataTransfer

  predicate Known(t: Table, h: Host) { Find(t.peers, h) < |t.peers| }

  function EntryOf(t: Table, h: Host): (e: Entry)
    requires Known(t, h)
    ensures e.host == h
  {
    t.peers[Find(t.peers, h)]
  }

  /** What announcements decide about an entry. */
  predicate SameNews(e: Entry, f: Entry) {
    && e.host == f.host && Current(e) == Current(f) && e.profile == f.profile && e.sequence == f.sequence
    && e.revision == f.revision && e.size == f.size && e.count == f.count && e.retired == f.retired
    && e.lastSeen == f.lastSeen && e.address == f.address
  }

  /** The announcement of this host that a step brings to the receiver. */
  function Announcing(l: Label, c: Config, h: Host): Option<Announcement> {
    if l.Delivering? && l.arrived.Announces? && l.arrived.announcement.host == h && h != c.host
    then Some(l.arrived.announcement) else None
  }

  /** The step takes its announcement into the host's entry. */
  predicate Takes(w: World, l: Label, c: Config, h: Host)
    requires Announcing(l, c, h).Some?
  {
    Known(w.table, h) ==> Announced(EntryOf(w.table, h), l.arrived.announcement, l.from, w.now, c.timeout).taken
  }

  /** What a step adds to the history of the host's entry. */
  function More(w: World, l: Label, c: Config, h: Host): seq<Announcement> {
    match Announcing(l, c, h)
    case Some(p) => if Takes(w, l, c, h) then [p] else []
    case None => []
  }

  /** Everything heard of a host in the first n steps. */
  function Heard(steps: seq<Label>, c: Config, h: Host, n: nat): set<Announcement>
    requires n <= |steps|
  {
    if n == 0 then {} else
    Heard(steps, c, h, n - 1) + match Announcing(steps[n - 1], c, h) case Some(p) => {p} case None => {}
  }

  /** What was taken into the host's entry, in order, in the first n steps; nothing
      when the host has no entry, since eviction forgets. */
  function Taken(run: seq<World>, steps: seq<Label>, c: Config, h: Host, n: nat): seq<Announcement>
    requires n < |run| && |run| == |steps| + 1
  {
    if n == 0 || !Known(run[n].table, h) then [] else
    Taken(run, steps, c, h, n - 1) + More(run[n - 1], steps[n - 1], c, h)
  }

  // ---------------------------------------------------------------------
  // One step and one entry
  // ---------------------------------------------------------------------

  lemma FindIs(peers: seq<Entry>, h: Host, i: nat)
    requires OnePerHost(peers) && i < |peers| && peers[i].host == h
    ensures Find(peers, h) == i
  {
  }

  /** What a step may do to the entry e of the host. */
  ghost predicate Follows(w: World, l: Label, c: Config, h: Host, f: Entry)
    requires Known(w.table, h)
  {
    var e := EntryOf(w.table, h);
    if Announcing(l, c, h).Some? && Takes(w, l, c, h)
    then SameNews(Announced(e, l.arrived.announcement, l.from, w.now, c.timeout).entry, f)
    else SameNews(e, f)
  }

  lemma AnnounceAtNews(t: Table, i: nat, p: Announcement, from: Address, now: nat, timeout: nat)
    requires i < |t.peers|
    ensures SameNews(Announced(t.peers[i], p, from, now, timeout).entry,
        AnnounceAt(t, i, p, from, now, timeout).peers[i])
  {
    hide Announced;
  }

  lemma RespondNews(t: Table, p: Response, from: Address, now: nat, c: Config, i: nat)
    requires i < |t.peers|
    ensures |Respond(t, p, from, now, c).peers| == |t.peers|
        && SameNews(t.peers[i], Respond(t, p, from, now, c).peers[i])
  {
    hide Complete, DecodeList;
  }

  /** An announcement of the host itself. */
  lemma OwnAnnouncement(w: World, w': World, c: Config, p: Announcement, from: Address)
    requires Inv(w, c) && Inv(w', c) && Announces(p) in w.net && p.host != c.host
    requires AnnounceStep(w.table, p, from, w.now, c, w'.table) && Known(w'.table, p.host)
    ensures Known(w.table, p.host) ==>
      Follows(w, Delivering(Announces(p), from), c, p.host, EntryOf(w'.table, p.host))
    ensures !Known(w.table, p.host) ==>
      SameNews(Announced(EMPTY, p, from, w.now, c.timeout).entry, EntryOf(w'.table, p.host))
  {
    hide EntryTrue, EntryOk, Truthful, LogsOk, MakesRoom, Full, Announced;
    assert Truthful(Announces(p), w.logs);
    var t, u := w.table, w'.table;
    var i := Find(t.peers, p.host);
    if i < |t.peers| {
      AnnounceAtNews(t, i, p, from, w.now, c.timeout);
      OwnEntryOk(w, c, p, from);
      FindIs(u.peers, p.host, i);
    } else if !Full(t.peers, c.maxPeers) {
      var room :| MakesRoom(t.peers, c.maxPeers, room) && u == AnnounceNew(t, room, p, from, w.now, c.timeout);
      AnnounceAtNews(t.(peers := room + [EMPTY]), |room|, p, from, w.now, c.timeout);
      NewEntryHost(p, from, w.now, c.timeout, w.logs);
      FindIs(u.peers, p.host, |room|);
    }
  }

  lemma NewEntryHost(p: Announcement, from: Address, now: nat, timeout: nat, logs: Logs)
    requires Truthful(Announces(p), logs)
    ensures ValidAnnouncement(p) && Announced(EMPTY, p, from, now, timeout).entry.host == p.host
  {
  }

  lemma OwnEntryOk(w: World, c: Config, p: Announcement, from: Address)
    requires Inv(w, c) && Known(w.table, p.host) && Announces(p) in w.net
    ensures var e := EntryOf(w.table, p.host);
      && ValidAnnouncement(p) && EntryOk(e, w.now, c.timeout)
      && var r := Announced(e, p, from, w.now, c.timeout);
         r.entry.host == p.host && (!r.taken ==> r.entry == e)
  {
    hide EntryTrue;
    assert Truthful(Announces(p), w.logs);
    AnnouncedOk(EntryOf(w.table, p.host), p, from, w.now, c.timeout);
  }

  /** An announcement of another host leaves this one's entry, or evicts it. */
  lemma OtherAnnouncement(w: World, w': World, c: Config, p: Announcement, from: Address, h: Host)
    requires Inv(w, c) && Inv(w', c) && Announces(p) in w.net && p.host != h
    requires AnnounceStep(w.table, p, from, w.now, c, w'.table) && Known(w'.table, h)
    ensures Known(w.table, h) && EntryOf(w'.table, h) == EntryOf(w.table, h)
  {
    hide EntryTrue, EntryOk, Truthful, LogsOk, MakesRoom, Full, Announced;
    assert Truthful(Announces(p), w.logs);
    var t, u := w.table, w'.table;
    var i, j := Find(t.peers, p.host), Find(u.peers, h);
    if i < |t.peers| {
      AnnounceAtNews(t, i, p, from, w.now, c.timeout);
      OwnEntryOk(w, c, p, from);
      FindIs(t.peers, h, j);
    } else if !Full(t.peers, c.maxPeers) {
      var room :| MakesRoom(t.peers, c.maxPeers, room) && u == AnnounceNew(t, room, p, from, w.now, c.timeout);
      AnnounceAtNews(t.(peers := room + [EMPTY]), |room|, p, from, w.now, c.timeout);
      NewEntryHost(p, from, w.now, c.timeout, w.logs);
      assert j < |room| && u.peers[j] == room[j];
      RoomIsFromTable(t.peers, c.maxPeers, room, j);
      var k: nat :| k < |t.peers| && t.peers[k] == room[j];
      FindIs(t.peers, h, k);
    }
  }

  lemma TickNews(w: World, w': World, c: Config, h: Host)
    requires Inv(w, c) && Tick(w, w', c) && Known(w'.table, h)
    ensures Known(w.table, h) && SameNews(EntryOf(w.table, h), EntryOf(w'.table, h))
  {
    hide EntryTrue, EntryOk, Truthful, LogsOk;
    var j := Find(w'.table.peers, h);
    assert w'.table.peers[j] == TickEntry(w.table.peers[j], w'.now, c);
    FindIs(w.table.peers, h, j);
  }

  lemma AnswerNews(w: World, w': World, c: Config, p: Response, from: Address, h: Host)
    requires Inv(w, c) && w'.table == Respond(w.table, p, from, w.now, c) && Known(w'.table, h)
    ensures Known(w.table, h) && SameNews(EntryOf(w.table, h), EntryOf(w'.table, h))
  {
    hide EntryTrue, EntryOk, Truthful, LogsOk, Respond;
    var j := Find(w'.table.peers, h);
    RespondSize(w.table, p, from, w.now, c);
    RespondNews(w.table, p, from, w.now, c, j);
    FindIs(w.table.peers, h, j);
  }

  lemma RespondSize(t: Table, p: Response, from: Address, now: nat, c: Config)
    ensures |Respond(t, p, from, now, c).peers| == |t.peers|
  {
    hide Complete, DecodeList;
  }

  /** A host that has an entry after a step had one before, and it changed by
      nothing but a taken announcement, or it is new by its first one. */
  lemma StepNews(w: World, w': World, c: Config, l: Label, h: Host)
    requires Inv(w, c) && Inv(w', c) && Next(w, w', c, l) && Known(w'.table, h)
    ensures Known(w.table, h) ==> Follows(w, l, c, h, EntryOf(w'.table, h))
    ensures !Known(w.table, h) ==>
      && Announcing(l, c, h).Some? && ValidAnnouncement(l.arrived.announcement)
      && SameNews(Announced(EMPTY, l.arrived.announcement, l.from, w.now, c.timeout).entry, EntryOf(w'.table, h))
  {
    hide Inv, AnnounceStep, Respond, Announced, Tick;
    match l
    case Delivering(Announces(p), from) =>
      if p.host != c.host {
        if p.host == h {
          OwnAnnouncement(w, w', c, p, from);
          TrueIsValid(w, c, p);
        } else {
          OtherAnnouncement(w, w', c, p, from, h);
        }
      }
    case Delivering(Answers(p), from) => AnswerNews(w, w', c, p, from, h);
    case Ticking => TickNews(w, w', c, h);
    case _ =>
  }

  lemma TrueIsValid(w: World, c: Config, p: Announcement)
    requires Inv(w, c) && Announces(p) in w.net
    ensures ValidAnnouncement(p)
  {
    hide EntryTrue, TableOk, LogsOk;
    assert Truthful(Announces(p), w.logs);
  }

  // ---------------------------------------------------------------------
  // Runs
  // ---------------------------------------------------------------------

  lemma KnownIsOk(w: World, c: Config, h: Host)
    requires Inv(w, c) && Known(w.table, h)
    ensures EntryOk(EntryOf(w.table, h), w.now, c.timeout)
  {
    hide EntryTrue, EntryOk, Truthful, LogsOk;
  }

  lemma ToldSame(e: Entry, f: Entry, taken: seq<Announcement>)
    requires SameNews(e, f) && Told(e, taken)
    ensures Told(f, taken)
  {
  }

  /** One step of the history. */
  lemma TakeOne(w: World, c: Config, l: Label, h: Host, taken: seq<Announcement>)
    requires Inv(w, c) && Known(w.table, h) && Told(EntryOf(w.table, h), taken) && Believable(taken)
    requires Announcing(l, c, h).Some? && Takes(w, l, c, h) && ValidAnnouncement(l.arrived.announcement)
    ensures var p := l.arrived.announcement;
      && Told(Announced(EntryOf(w.table, h), p, l.from, w.now, c.timeout).entry, taken + [p])
      && Believable(taken + [p])
  {
    KnownIsOk(w, c, h);
    hide Inv, Told, Announced, EntryOk;
    var p := l.arrived.announcement;
    NotEmptyHistory(EntryOf(w.table, h), taken);
    TakenIsTold(EntryOf(w.table, h), taken, p, l.from, w.now, c.timeout);
    assert (taken + [p])[..|taken + [p]| - 1] == taken;
  }

  lemma NotEmptyHistory(e: Entry, taken: seq<Announcement>)
    requires Told(e, taken)
    ensures taken != []
  {
  }

  lemma {:induction false} UnknownTookNothing(run: seq<World>, steps: seq<Label>, c: Config, h: Host, n: nat)
    requires n < |run| && |run| == |steps| + 1 && !Known(run[n].table, h)
    ensures Taken(run, steps, c, h, n) == []
  {
  }

  /** In every run each entry is what the announcements taken into it say, and each
      of those was one to take after the ones before it. */
  lemma {:induction false} HistoryTells(run: seq<World>, steps: seq<Label>, c: Config, h: Host, n: nat)
    requires IsRun(run, steps, c) && n < |run| && Known(run[n].table, h)
    ensures Told(EntryOf(run[n].table, h), Taken(run, steps, c, h, n)) && Believable(Taken(run, steps, c, h, n))
  {
    hide Inv, Next, Announced, Told, Believable, ValidAnnouncement, Takes, Follows;
    var w, w', l := run[n - 1], run[n], steps[n - 1];
    RunKeepsInv(run, steps, c, n - 1);
    RunKeepsInv(run, steps, c, n);
    StepNews(w, w', c, l, h);
    if Known(w.table, h) {
      HistoryTells(run, steps, c, h, n - 1);
      Continued(w, w', c, l, h, Taken(run, steps, c, h, n - 1));
    } else {
      UnknownTookNothing(run, steps, c, h, n - 1);
      Begun(w, w', c, l, h);
      assert [] + More(w, l, c, h) == More(w, l, c, h);
    }
  }

  lemma Continued(w: World, w': World, c: Config, l: Label, h: Host, taken: seq<Announcement>)
    requires Inv(w, c) && Next(w, w', c, l) && Known(w.table, h) && Known(w'.table, h)
    requires Told(EntryOf(w.table, h), taken) && Believable(taken) && Follows(w, l, c, h, EntryOf(w'.table, h))
    ensures Told(EntryOf(w'.table, h), taken + More(w, l, c, h)) && Believable(taken + More(w, l, c, h))
  {
    hide Inv, Announced, Told, Believable, ValidAnnouncement;
    var e, f := EntryOf(w.table, h), EntryOf(w'.table, h);
    if Announcing(l, c, h).Some? && Takes(w, l, c, h) {
      var p := l.arrived.announcement;
      TrueIsValid(w, c, p);
      TakeOne(w, c, l, h, taken);
      ToldSame(Announced(e, p, l.from, w.now, c.timeout).entry, f, taken + [p]);
    } else {
      assert taken + [] == taken;
      ToldSame(e, f, taken);
    }
  }

  lemma Begun(w: World, w': World, c: Config, l: Label, h: Host)
    requires !Known(w.table, h) && Known(w'.table, h)
    requires Announcing(l, c, h).Some? && ValidAnnouncement(l.arrived.announcement)
    requires SameNews(Announced(EMPTY, l.arrived.announcement, l.from, w.now, c.timeout).entry, EntryOf(w'.table, h))
    ensures Told(EntryOf(w'.table, h), More(w, l, c, h)) && Believable(More(w, l, c, h))
  {
    hide Announced, Told;
    var p := l.arrived.announcement;
    FirstIsTold(p, l.from, w.now, c.timeout);
    ToldSame(Announced(EMPTY, p, l.from, w.now, c.timeout).entry, EntryOf(w'.table, h), [p]);
    assert More(w, l, c, h) == [p];
  }

  lemma TakenStep(run: seq<World>, steps: seq<Label>, c: Config, h: Host, n: nat)
    requires 0 < n < |run| && |run| == |steps| + 1 && Known(run[n].table, h)
    ensures var more := More(run[n - 1], steps[n - 1], c, h);
      |more| <= 1 && Taken(run, steps, c, h, n) == Taken(run, steps, c, h, n - 1) + more
  {
  }

  /** The entry keeps one incarnation from state i to state j. */
  predicate Keeps(run: seq<World>, h: Host, i: nat, j: nat)
    requires i <= j < |run|
  {
    && Known(run[i].table, h)
    && forall k :: i <= k <= j ==>
      Known(run[k].table, h) && Current(EntryOf(run[k].table, h)) == Current(EntryOf(run[i].table, h))
  }

  /** In every run: while an entry keeps its incarnation its sequence and revision
      do not go back, and every announcement taken meanwhile made the sequence
      strictly larger. */
  lemma {:induction false} IncarnationAscends(run: seq<World>, steps: seq<Label>, c: Config, h: Host, i: nat, j: nat)
    requires IsRun(run, steps, c) && i <= j < |run| && Keeps(run, h, i, j)
    ensures var e, f := EntryOf(run[i].table, h), EntryOf(run[j].table, h);
      var before, after := Taken(run, steps, c, h, i), Taken(run, steps, c, h, j);
      && before <= after && e.revision <= f.revision
      && (if before == after then e.sequence == f.sequence else e.sequence < f.sequence)
  {
    hide Next, Start, Told, Believable, Known, EntryOf, Taken, More;
    assert Known(run[i].table, h) && Known(run[j].table, h);
    if i < j {
      assert Known(run[j - 1].table, h);
      IncarnationAscends(run, steps, c, h, i, j - 1);
      HistoryTells(run, steps, c, h, j - 1);
      HistoryTells(run, steps, c, h, j);
      TakenStep(run, steps, c, h, j);
      var more := More(run[j - 1], steps[j - 1], c, h);
      Ascends(EntryOf(run[j - 1].table, h), EntryOf(run[j].table, h), Taken(run, steps, c, h, j - 1), more);
    }
  }

  lemma Ascends(e: Entry, f: Entry, taken: seq<Announcement>, more: seq<Announcement>)
    requires Told(e, taken) && Told(f, taken + more) && Believable(taken + more) && |more| <= 1
        && Current(e) == Current(f)
    ensures e.revision <= f.revision && (if more == [] then e.sequence == f.sequence else e.sequence < f.sequence)
  {
    if more == [] {
      assert taken + more == taken;
    } else {
      assert (taken + more)[..|taken + more| - 1] == taken;
    }
  }

  /** In every run: an announcement p, heard before or not, that reaches the
      receiver while its host is lost brings the peer back if and only if what was
      taken into the entry says so. */
  lemma ReplayRevivesIff(run: seq<World>, steps: seq<Label>, c: Config, n: nat, p: Announcement)
    requires IsRun(run, steps, c) && n < |steps| && steps[n].Delivering? && steps[n].arrived == Announces(p)
    requires p.host != c.host && Known(run[n].table, p.host) && EntryOf(run[n].table, p.host).lost
    ensures Known(run[n + 1].table, p.host) && Taken(run, steps, c, p.host, n) != []
    ensures !EntryOf(run[n + 1].table, p.host).lost <==> Revives(Taken(run, steps, c, p.host, n), p)
  {
    var h, w, w' := p.host, run[n], run[n + 1];
    var taken := Taken(run, steps, c, h, n);
    assert Next(w, w', c, steps[n]);
    RunKeepsInv(run, steps, c, n);
    RunKeepsInv(run, steps, c, n + 1);
    HistoryTells(run, steps, c, h, n);
    TrueIsValid(w, c, p);
    KnownIsOk(w, c, h);
    NotEmptyHistory(EntryOf(w.table, h), taken);
    RevivesIff(EntryOf(w.table, h), taken, p, steps[n].from, w.now, c.timeout);
    OwnEntryOk(w, c, p, steps[n].from);
    var i := Find(w.table.peers, h);
    hide Inv, Announced, Told, Revives, EntryOk, ValidAnnouncement;
    AnnounceAtLost(w.table, i, p, steps[n].from, w.now, c.timeout);
    TableIsOk(w', c);
    FindIs(w'.table.peers, h, i);
  }

  /** The announcement was heard and not taken, or the host has had no entry since. */
  ghost predicate InVain(run: seq<World>, steps: seq<Label>, c: Config, n: nat, p: Announcement)
    requires n < |run| && |run| == |steps| + 1
  {
    exists k :: 0 <= k < n && Announcing(steps[k], c, p.host) == Some(p)
      && (!Takes(run[k], steps[k], c, p.host) || LostSince(run, p.host, k, n))
  }

  ghost predicate LostSince(run: seq<World>, h: Host, k: nat, n: nat)
    requires k <= n < |run|
  {
    exists m :: k < m <= n && !Known(run[m].table, h)
  }

  lemma {:induction false} HeardAt(steps: seq<Label>, c: Config, h: Host, n: nat, p: Announcement) returns (k: nat)
    requires n <= |steps| && p in Heard(steps, c, h, n)
    ensures k < n && Announcing(steps[k], c, h) == Some(p)
  {
    if Announcing(steps[n - 1], c, h) == Some(p) { k := n - 1; } else { k := HeardAt(steps, c, h, n - 1, p); }
  }

  /** While the host has an entry, what was taken into it stays in its history. */
  lemma {:induction false} TakenStays(run: seq<World>, steps: seq<Label>, c: Config, h: Host, k: nat, n: nat)
    requires |run| == |steps| + 1 && k <= n < |run| && !LostSince(run, h, k, n)
    ensures Taken(run, steps, c, h, k) <= Taken(run, steps, c, h, n)
  {
    hide Known, More;
    if k < n {
      assert !LostSince(run, h, k, n - 1);
      TakenStays(run, steps, c, h, k, n - 1);
      assert Known(run[n].table, h);
      TakenStep(run, steps, c, h, n);
    }
  }

  lemma HeardInVain(run: seq<World>, steps: seq<Label>, c: Config, n: nat, p: Announcement)
    requires |run| == |steps| + 1 && n < |run| && p in Heard(steps, c, p.host, n)
        && p !in Taken(run, steps, c, p.host, n)
    ensures InVain(run, steps, c, n, p)
  {
    var k := HeardAt(steps, c, p.host, n, p);
    if Takes(run[k], steps[k], c, p.host) && !LostSince(run, p.host, k, n) { KeptIsTaken(run, steps, c, k, n, p); }
  }

  lemma KeptIsTaken(run: seq<World>, steps: seq<Label>, c: Config, k: nat, n: nat, p: Announcement)
    requires |run| == |steps| + 1 && k < n < |run| && Announcing(steps[k], c, p.host) == Some(p)
    requires Takes(run[k], steps[k], c, p.host) && !LostSince(run, p.host, k, n)
    ensures p in Taken(run, steps, c, p.host, n)
  {
    hide Known, Takes, Taken, EntryOf;
    assert Known(run[k + 1].table, p.host);
    assert More(run[k], steps[k], c, p.host) == [p];
    TakenStep(run, steps, c, p.host, k + 1);
    assert !LostSince(run, p.host, k + 1, n);
    TakenStays(run, steps, c, p.host, k + 1, n);
    LastIsIn(Taken(run, steps, c, p.host, k), p, Taken(run, steps, c, p.host, n));
  }

  lemma LastIsIn(before: seq<Announcement>, p: Announcement, after: seq<Announcement>)
    requires before + [p] <= after
    ensures p in after
  {
    assert (before + [p])[|before|] == p;
  }

  /** In every run: of the announcements already heard, exactly three kinds bring
      their lost host back when they come again. One of an incarnation that is
      unknown to the present entry, because it was refused or taken into an entry that
      has been evicted; one of an incarnation displaced so long ago that the list of
      eight has forgotten it; and, of the current incarnation, a later one than the
      last taken. */
  lemma RepeatedRevivesIff(run: seq<World>, steps: seq<Label>, c: Config, n: nat, p: Announcement)
    requires IsRun(run, steps, c) && n < |steps| && steps[n].Delivering? && steps[n].arrived == Announces(p)
    requires p.host != c.host && Known(run[n].table, p.host) && EntryOf(run[n].table, p.host).lost
    requires p in Heard(steps, c, p.host, n)
    ensures Known(run[n + 1].table, p.host) && Taken(run, steps, c, p.host, n) != []
    ensures var taken := Taken(run, steps, c, p.host, n);
      var current, displaced := Claimed(Last(taken)), Displaced(taken);
      var unknown := Claimed(p) != current && Claimed(p) !in displaced;
      var forgotten := Claimed(p) != current && Claimed(p) in displaced && Claimed(p) !in LastOnes(displaced);
      var later := Claimed(p) == current && Continues(Last(taken), p);
      && (!EntryOf(run[n + 1].table, p.host).lost <==> unknown || forgotten || later)
      && (unknown ==> InVain(run, steps, c, n, p))
  {
    hide Next, Known, EntryOf, Taken, Displaced, Continues;
    ReplayRevivesIff(run, steps, c, n, p);
    var taken := Taken(run, steps, c, p.host, n);
    if p in taken { TakenOrDisplaced(taken, p); } else { HeardInVain(run, steps, c, n, p); }
    LastOnesAre(Displaced(taken), Claimed(p));
  }

  lemma LastOnesAre(s: seq<Incarnation>, x: Incarnation)
    ensures x in LastOnes(s) ==> x in s
  {
  }

  lemma TableIsOk(w: World, c: Config)
    requires Inv(w, c)
    ensures OnePerHost(w.table.peers)
  {
  }

  lemma AnnounceAtLost(t: Table, i: nat, p: Announcement, from: Address, now: nat, timeout: nat)
    requires i < |t.peers|
    ensures var r, f := Announced(t.peers[i], p, from, now, timeout), AnnounceAt(t, i, p, from, now, timeout).peers[i];
      f.lost == r.entry.lost && f.host == r.entry.host
  {
    hide Announced;
  }

  /** In every run: as long as at most eight incarnations were displaced from the
      host's present entry, no repetition of an announcement that was taken into this
      entry brings it back. */
  lemma TakenReplayIsHarmless(run: seq<World>, steps: seq<Label>, c: Config, n: nat, p: Announcement)
    requires IsRun(run, steps, c) && n < |steps| && steps[n].Delivering? && steps[n].arrived == Announces(p)
    requires p.host != c.host && Known(run[n].table, p.host) && EntryOf(run[n].table, p.host).lost
    requires p in Taken(run, steps, c, p.host, n) && |Displaced(Taken(run, steps, c, p.host, n))| <= RETIRED_MAX
    ensures Known(run[n + 1].table, p.host) && EntryOf(run[n + 1].table, p.host).lost
  {
    hide Next, Known, EntryOf, Taken, Displaced, Revives, Told, Believable;
    ReplayRevivesIff(run, steps, c, n, p);
    HistoryTells(run, steps, c, p.host, n);
    TakenNeverRevives(Taken(run, steps, c, p.host, n), p);
  }
}
