/** When a peer counts as present: over whole runs, what the last heartbeat taken
    decides about an entry, and which heartbeats are taken. */
module PeerPresence {
  import opened Wire
  import opened NetworkTypes
  import opened EndpointMetadata
  import opened PeerTable
  import opened MetadataTransfer
  import opened PeerHistory

  /** When an announcement was taken, and where it came from. */
  datatype Hearing = Hearing(at: nat, from: Address)

  /** The last announcement taken into the host's entry in the first n steps. */
  function LastHeard(run: seq<World>, steps: seq<Label>, c: Config, h: Host, n: nat): Option<Hearing>
    requires n < |run| && |run| == |steps| + 1
  {
    if n == 0 || !Known(run[n].table, h) then None
    else if More(run[n - 1], steps[n - 1], c, h) != [] then Some(Hearing(run[n - 1].now, steps[n - 1].from))
    else LastHeard(run, steps, c, h, n - 1)
  }

  /** A tick found the host silent for the timeout, and nothing was taken since. */
  predicate FoundSilent(run: seq<World>, steps: seq<Label>, c: Config, h: Host, n: nat)
    requires n < |run| && |run| == |steps| + 1
  {
    && n > 0 && Known(run[n].table, h) && More(run[n - 1], steps[n - 1], c, h) == []
    && var heard := LastHeard(run, steps, c, h, n);
       || FoundSilent(run, steps, c, h, n - 1)
       || (steps[n - 1].Ticking? && heard.Some? && run[n].now - heard.value.at >= c.timeout)
  }

  // ---------------------------------------------------------------------
  // One step
  // ---------------------------------------------------------------------

  /** A taken announcement renews the entry, whatever it was before. */
  lemma TakingRenews(e: Entry, p: Announcement, from: Address, now: nat, timeout: nat)
    ensures var r := Announced(e, p, from, now, timeout);
      if r.taken then r.entry.lastSeen == now && r.entry.address == from && !r.entry.lost
      else r.entry.lastSeen == e.lastSeen && r.entry.address == e.address && r.entry.lost == e.lost
  {
  }

  lemma NewIsTaken(p: Announcement, from: Address, now: nat, timeout: nat)
    requires ValidAnnouncement(p)
    ensures Announced(EMPTY, p, from, now, timeout).taken
  {
  }

  predicate LostAfter(w: World, w': World, c: Config, l: Label, h: Host)
    requires Known(w.table, h)
  {
    More(w, l, c, h) == [] && (EntryOf(w.table, h).lost
      || (l.Ticking? && w'.now - EntryOf(w.table, h).lastSeen >= c.timeout))
  }

  lemma OwnLost(w: World, w': World, c: Config, p: Announcement, from: Address)
    requires Inv(w, c) && Inv(w', c) && Announces(p) in w.net && p.host != c.host && Known(w.table, p.host)
    requires AnnounceStep(w.table, p, from, w.now, c, w'.table) && Known(w'.table, p.host)
    ensures EntryOf(w'.table, p.host).lost == LostAfter(w, w', c, Delivering(Announces(p), from), p.host)
  {
    hide EntryTrue, EntryOk, Truthful, LogsOk, Announced;
    var i := Find(w.table.peers, p.host);
    AnnounceAtLost(w.table, i, p, from, w.now, c.timeout);
    TakingRenews(w.table.peers[i], p, from, w.now, c.timeout);
    OwnEntryOk(w, c, p, from);
    FindIs(w'.table.peers, p.host, i);
  }

  lemma TickLost(w: World, w': World, c: Config, h: Host)
    requires Inv(w, c) && Tick(w, w', c) && Known(w.table, h) && Known(w'.table, h)
    ensures EntryOf(w'.table, h).lost == LostAfter(w, w', c, Ticking, h)
  {
    hide EntryTrue, EntryOk, Truthful, LogsOk;
    var j := Find(w'.table.peers, h);
    assert w'.table.peers[j] == TickEntry(w.table.peers[j], w'.now, c);
    FindIs(w.table.peers, h, j);
  }

  lemma AnswerLost(w: World, w': World, c: Config, p: Response, from: Address, h: Host)
    requires Inv(w, c) && w'.table == Respond(w.table, p, from, w.now, c) && Known(w.table, h) && Known(w'.table, h)
    ensures EntryOf(w'.table, h).lost == EntryOf(w.table, h).lost
  {
    hide EntryTrue, EntryOk, Truthful, LogsOk, Respond;
    var j := Find(w'.table.peers, h);
    RespondSize(w.table, p, from, w.now, c);
    RespondNews(w.table, p, from, w.now, c, j);
    RespondLost(w.table, p, from, w.now, c, j);
    FindIs(w.table.peers, h, j);
  }

  lemma RespondLost(t: Table, p: Response, from: Address, now: nat, c: Config, i: nat)
    requires i < |t.peers|
    ensures |Respond(t, p, from, now, c).peers| == |t.peers|
        && t.peers[i].lost == Respond(t, p, from, now, c).peers[i].lost
  {
    hide Complete, DecodeList;
  }

  lemma StepLost(w: World, w': World, c: Config, l: Label, h: Host)
    requires Inv(w, c) && Inv(w', c) && Next(w, w', c, l) && Known(w.table, h) && Known(w'.table, h)
    ensures EntryOf(w'.table, h).lost == LostAfter(w, w', c, l, h)
  {
    hide Inv, AnnounceStep, Respond, Announced, Tick;
    match l
    case Delivering(Announces(p), from) =>
      if p.host != c.host {
        if p.host == h {
          OwnLost(w, w', c, p, from);
        } else {
          OtherAnnouncement(w, w', c, p, from, h);
        }
      }
    case Delivering(Answers(p), from) => AnswerLost(w, w', c, p, from, h);
    case Ticking => TickLost(w, w', c, h);
    case _ =>
  }

  lemma NewIsPresent(w: World, w': World, c: Config, l: Label, h: Host)
    requires Inv(w, c) && Inv(w', c) && Next(w, w', c, l) && !Known(w.table, h) && Known(w'.table, h)
    requires Announcing(l, c, h).Some?
    ensures !EntryOf(w'.table, h).lost
  {
    hide EntryTrue, EntryOk, Truthful, LogsOk, MakesRoom, Full, Announced;
    var p, t := l.arrived.announcement, w.table;
    TrueIsValid(w, c, p);
    assert AnnounceStep(t, p, l.from, w.now, c, w'.table);
    var room :| MakesRoom(t.peers, c.maxPeers, room) && w'.table == AnnounceNew(t, room, p, l.from, w.now, c.timeout);
    AnnounceAtLost(t.(peers := room + [EMPTY]), |room|, p, l.from, w.now, c.timeout);
    TakingRenews(EMPTY, p, l.from, w.now, c.timeout);
    NewIsTaken(p, l.from, w.now, c.timeout);
    NewEntryHost(p, l.from, w.now, c.timeout, w.logs);
    FindIs(w'.table.peers, h, |room|);
  }

  /** The times of one step. */
  lemma StepTimes(w: World, w': World, c: Config, l: Label, h: Host)
    requires Inv(w, c) && Inv(w', c) && Next(w, w', c, l) && Known(w'.table, h)
    ensures var f := EntryOf(w'.table, h);
      if More(w, l, c, h) != [] then f.lastSeen == w.now && f.address == l.from && !f.lost
      else Known(w.table, h) && var e := EntryOf(w.table, h);
        && f.lastSeen == e.lastSeen && f.address == e.address && f.lost == LostAfter(w, w', c, l, h)
  {
    hide Inv, Next, Announced, ValidAnnouncement;
    StepNews(w, w', c, l, h);
    if Known(w.table, h) {
      if Announcing(l, c, h).Some? {
        TakingRenews(EntryOf(w.table, h), l.arrived.announcement, l.from, w.now, c.timeout);
      }
      StepLost(w, w', c, l, h);
    } else {
      TakingRenews(EMPTY, l.arrived.announcement, l.from, w.now, c.timeout);
      NewIsTaken(l.arrived.announcement, l.from, w.now, c.timeout);
      NewIsPresent(w, w', c, l, h);
    }
  }

  // ---------------------------------------------------------------------
  // Runs
  // ---------------------------------------------------------------------

  /** In every run: an entry's time and address are those of the last announcement
      taken into it, and it is lost exactly if a tick since then found it silent for
      the timeout. */
  lemma {:induction false} PresenceIsLastHeard(run: seq<World>, steps: seq<Label>, c: Config, h: Host, n: nat)
    requires IsRun(run, steps, c) && n < |run| && Known(run[n].table, h)
    ensures var e, heard := EntryOf(run[n].table, h), LastHeard(run, steps, c, h, n);
      && heard == Some(Hearing(e.lastSeen, e.address)) && (e.lost <==> FoundSilent(run, steps, c, h, n))
  {
    hide Inv, Next, More, EntryOf, Announced;
    assert n > 0;
    var w, w', l := run[n - 1], run[n], steps[n - 1];
    assert Next(run[n - 1], run[n - 1 + 1], c, steps[n - 1]);
    RunKeepsInv(run, steps, c, n - 1);
    RunKeepsInv(run, steps, c, n);
    StepTimes(w, w', c, l, h);
    if More(w, l, c, h) == [] {
      PresenceIsLastHeard(run, steps, c, h, n - 1);
    }
  }

  /** In every run: after a tick a host is lost if and only if no announcement was
      taken within the timeout before it. */
  lemma LostAfterTickIff(run: seq<World>, steps: seq<Label>, c: Config, h: Host, n: nat)
    requires IsRun(run, steps, c) && n < |steps| && steps[n].Ticking? && Known(run[n + 1].table, h)
    ensures LastHeard(run, steps, c, h, n + 1).Some?
    ensures EntryOf(run[n + 1].table, h).lost <==>
      run[n + 1].now - LastHeard(run, steps, c, h, n + 1).value.at >= c.timeout
  {
    PresenceIsLastHeard(run, steps, c, h, n + 1);
    RunKeepsInv(run, steps, c, n + 1);
    KnownIsOk(run[n + 1], c, h);
    hide IsRun, Inv;
    assert More(run[n], steps[n], c, h) == [];
  }

  /** In every run, for a host with an entry, live or lost: an announcement is taken
      if and only if it is one to take after those taken before and, until the timeout
      has passed since the last of them, is of the same incarnation and comes from the
      same address. If it is taken the host is present, and heard now. */
  lemma HeartbeatTakenIff(run: seq<World>, steps: seq<Label>, c: Config, n: nat, p: Announcement)
    requires IsRun(run, steps, c) && n < |steps| && steps[n].Delivering? && steps[n].arrived == Announces(p)
    requires p.host != c.host && Known(run[n].table, p.host)
    ensures Taken(run, steps, c, p.host, n) != [] && LastHeard(run, steps, c, p.host, n).Some?
    ensures Known(run[n + 1].table, p.host)
    ensures var taken, heard := Taken(run, steps, c, p.host, n), LastHeard(run, steps, c, p.host, n).value;
      var e, f, now := EntryOf(run[n].table, p.host), EntryOf(run[n + 1].table, p.host), run[n].now;
      if Revives(taken, p) && (now - heard.at >= c.timeout
          || (Claimed(p) == Claimed(Last(taken)) && steps[n].from == heard.from))
      then
        && Taken(run, steps, c, p.host, n + 1) == taken + [p]
        && f.lastSeen == now && f.address == steps[n].from && !f.lost
      else Taken(run, steps, c, p.host, n + 1) == taken && f == e
  {
    hide Inv, Next, Announced, Told, Revives, EntryOk, ValidAnnouncement, Known, EntryOf;
    hide Taken, LastHeard, More, Believable;
    var h, w, w', l := p.host, run[n], run[n + 1], steps[n];
    assert Next(w, w', c, l);
    RunKeepsInv(run, steps, c, n);
    RunKeepsInv(run, steps, c, n + 1);
    HistoryTells(run, steps, c, h, n);
    PresenceIsLastHeard(run, steps, c, h, n);
    var taken := Taken(run, steps, c, h, n);
    Delivered(w, w', c, p, l.from);
    IsTakenIff(w, w', c, l, p, taken);
    StepTimes(w, w', c, l, h);
    TakenStep(run, steps, c, h, n + 1);
  }

  lemma IsTakenIff(w: World, w': World, c: Config, l: Label, p: Announcement, taken: seq<Announcement>)
    requires Inv(w, c) && Next(w, w', c, l) && l.Delivering? && l.arrived == Announces(p)
    requires p.host != c.host && Known(w.table, p.host) && Told(EntryOf(w.table, p.host), taken)
    ensures var e := EntryOf(w.table, p.host);
      && taken != []
      && More(w, l, c, p.host) ==
        if Revives(taken, p) && (w.now - e.lastSeen >= c.timeout
            || (Claimed(p) == Claimed(Last(taken)) && l.from == e.address)) then [p] else []
  {
    TrueIsValid(w, c, p);
    KnownIsOk(w, c, p.host);
    hide Inv, Announced, Told, Revives, EntryOk, ValidAnnouncement, EntryOf;
    NotEmptyHistory(EntryOf(w.table, p.host), taken);
    TakenIff(EntryOf(w.table, p.host), taken, p, l.from, w.now, c.timeout);
  }

  /** The entry stays in the table, and is the same if nothing is taken. */
  lemma Delivered(w: World, w': World, c: Config, p: Announcement, from: Address)
    requires Inv(w, c) && Inv(w', c) && Next(w, w', c, Delivering(Announces(p), from))
    requires p.host != c.host && Known(w.table, p.host)
    ensures Known(w'.table, p.host)
    ensures More(w, Delivering(Announces(p), from), c, p.host) == [] ==>
      EntryOf(w'.table, p.host) == EntryOf(w.table, p.host)
  {
    hide EntryTrue, EntryOk, Truthful, LogsOk, Announced;
    var i := Find(w.table.peers, p.host);
    assert w'.table == AnnounceAt(w.table, i, p, from, w.now, c.timeout);
    AnnounceAtLost(w.table, i, p, from, w.now, c.timeout);
    OwnEntryOk(w, c, p, from);
    FindIs(w'.table.peers, p.host, i);
  }

  /** What a fetch of the endpoint list has so far. */
  predicate SameFetch(e: Entry, f: Entry) {
    && f.ready == e.ready && f.endpoints == e.endpoints && f.staging == e.staging
    && f.requestId == e.requestId && f.nextRequest == e.nextRequest
  }

  /** The fetch begins anew, under a number never used before. */
  predicate FreshFetch(t: Table, u: Table, f: Entry) {
    && !f.ready && f.endpoints == [] && f.staging == []
    && if t.counter == U64_MAX then !u.running else u.counter == t.counter + 1 == f.requestId && f.nextRequest == 0
  }

  lemma FetchAfter(t: Table, i: nat, p: Announcement, from: Address, now: nat, timeout: nat)
    requires i < |t.peers| && Announced(t.peers[i], p, from, now, timeout).taken
    ensures var u := AnnounceAt(t, i, p, from, now, timeout);
      if Announced(t.peers[i], p, from, now, timeout).refresh then FreshFetch(t, u, u.peers[i])
      else SameFetch(t.peers[i], u.peers[i]) && u.counter == t.counter && u.running == t.running
  {
    SameBefore(t.peers[i], p, from, now, timeout);
    hide Announced;
  }

  lemma SameBefore(e: Entry, p: Announcement, from: Address, now: nat, timeout: nat)
    ensures SameFetch(e, Announced(e, p, from, now, timeout).entry)
  {
  }

  /** In every run: a taken announcement restarts the fetch of the endpoint list if
      and only if the host was lost, or its incarnation, address or revision is not
      that of the last one; otherwise the fetch, or its result, stays. */
  lemma RefetchIff(run: seq<World>, steps: seq<Label>, c: Config, n: nat, p: Announcement)
    requires IsRun(run, steps, c) && n < |steps| && steps[n].Delivering? && steps[n].arrived == Announces(p)
    requires p.host != c.host && Known(run[n].table, p.host)
    requires Taken(run, steps, c, p.host, n + 1) != Taken(run, steps, c, p.host, n)
    ensures Taken(run, steps, c, p.host, n) != [] && LastHeard(run, steps, c, p.host, n).Some?
    ensures Known(run[n + 1].table, p.host)
    ensures var last, heard := Last(Taken(run, steps, c, p.host, n)), LastHeard(run, steps, c, p.host, n).value;
      var e, f := EntryOf(run[n].table, p.host), EntryOf(run[n + 1].table, p.host);
      if e.lost || Claimed(p) != Claimed(last) || steps[n].from != heard.from || p.revision != last.revision
      then FreshFetch(run[n].table, run[n + 1].table, f)
      else SameFetch(e, f) && run[n + 1].table.counter == run[n].table.counter
  {
    var h, w, w', l := p.host, run[n], run[n + 1], steps[n];
    assert Next(w, w', c, l);
    RunKeepsInv(run, steps, c, n);
    RunKeepsInv(run, steps, c, n + 1);
    HistoryTells(run, steps, c, h, n);
    PresenceIsLastHeard(run, steps, c, h, n);
    TrueIsValid(w, c, p);
    KnownIsOk(w, c, h);
    HeartbeatTakenIff(run, steps, c, n, p);
    var e, taken := EntryOf(w.table, h), Taken(run, steps, c, h, n);
    TakenIff(e, taken, p, l.from, w.now, c.timeout);
    RefreshIff(e, taken, p, l.from, w.now, c.timeout);
    hide IsRun, Announced, Told, Revives, EntryOk, EntryTrue, Truthful, LogsOk, ValidAnnouncement;
    hide FreshFetch, SameFetch;
    var i := Find(w.table.peers, h);
    FetchAfter(w.table, i, p, l.from, w.now, c.timeout);
    OwnEntryOk(w, c, p, l.from);
    AnnounceAtLost(w.table, i, p, l.from, w.now, c.timeout);
    FindIs(w'.table.peers, h, i);
  }

  // ---------------------------------------------------------------------
  // Fetching makes progress
  // ---------------------------------------------------------------------

  /** The last piece makes the list complete. */
  lemma LastPieceCompletes(e: Entry, p: Response, from: Address, logs: Logs)
    requires LogsOk(logs) && e.host == p.host && Truthful(Answers(p), logs) && EntryTrue(e, logs)
    requires Expected(e, p, from) && |e.staging| + |p.chunk| == e.size
    ensures Complete(e, p, e.staging + p.chunk)
  {
    hide ValidList, EncodeList, DecodeList;
    var o := Owner(p.host, p.boot, p.session);
    var list :| Published(logs, o, p.revision, list) && Quotes(p, list);
    var was :| Published(logs, o, e.revision, was) && MetadataTransfer.Holds(e, was);
    OneList(logs, o, p.revision, list, was);
    assert Publishable(o, list);
    var bytes := EncodeList(list).value;
    Grows(e.staging, p.chunk, bytes);
    assert e.staging + p.chunk == bytes;
    DecodeOfEncode(list);
  }

  /** An answer that is expected brings the fetch one piece further, and the last one
      makes the entry ready; any other answer changes nothing. */
  predicate Advances(e: Entry, f: Entry, p: Response, from: Address) {
    if !Expected(e, p, from) then f == e
    else if |e.staging| + |p.chunk| == e.size then f.ready
    else !f.ready && f.staging == e.staging + p.chunk && f.requestId == e.requestId && f.size == e.size
  }

  lemma AnswerAdvances(w: World, w': World, c: Config, p: Response, from: Address)
    requires Inv(w, c) && Inv(w', c) && Next(w, w', c, Delivering(Answers(p), from)) && p.host != c.host
    requires Known(w.table, p.host)
    ensures ValidResponse(p) && Known(w'.table, p.host)
    ensures Advances(EntryOf(w.table, p.host), EntryOf(w'.table, p.host), p, from)
  {
    var i := Find(w.table.peers, p.host);
    var e := w.table.peers[i];
    assert Truthful(Answers(p), w.logs) && EntryTrue(e, w.logs);
    if Expected(e, p, from) && |e.staging| + |p.chunk| == e.size { LastPieceCompletes(e, p, from, w.logs); }
    hide EntryTrue, EntryOk, LogsOk, Complete, DecodeList, Published, Quotes;
    RespondNews(w.table, p, from, w.now, c, i);
    RespondedAt(w.table, i, p, from, w.now, c.retry);
    FindIs(w'.table.peers, p.host, i);
  }

  lemma RespondedAt(t: Table, i: nat, p: Response, from: Address, now: nat, retry: nat)
    requires i < |t.peers|
    requires var e := t.peers[i];
      Expected(e, p, from) && |e.staging| + |p.chunk| == e.size ==> Complete(e, p, e.staging + p.chunk)
    ensures Advances(t.peers[i], RespondAt(t, i, p, from, now, retry).peers[i], p, from)
  {
    hide Complete, DecodeList;
  }

  /** In every run: an answer advances the fetch as it should, and what is ready is
      what the owner published. */
  lemma FetchAdvances(run: seq<World>, steps: seq<Label>, c: Config, n: nat, p: Response)
    requires IsRun(run, steps, c) && n < |steps| && steps[n].Delivering? && steps[n].arrived == Answers(p)
    requires p.host != c.host && Known(run[n].table, p.host)
    ensures ValidResponse(p) && Known(run[n + 1].table, p.host)
    ensures Advances(EntryOf(run[n].table, p.host), EntryOf(run[n + 1].table, p.host), p, steps[n].from)
  {
    hide Inv, Next, Advances, EntryOf, Known;
    assert Next(run[n], run[n + 1], c, steps[n]);
    RunKeepsInv(run, steps, c, n);
    RunKeepsInv(run, steps, c, n + 1);
    AnswerAdvances(run[n], run[n + 1], c, p, steps[n].from);
  }

  /** Step k brings the host's entry the piece that it asked for. */
  predicate Serves(run: seq<World>, steps: seq<Label>, c: Config, h: Host, k: nat)
    requires |run| == |steps| + 1 && k < |steps|
  {
    && h != c.host && Known(run[k].table, h) && steps[k].Delivering? && steps[k].arrived.Answers?
    && steps[k].arrived.response.host == h
    && Expected(EntryOf(run[k].table, h), steps[k].arrived.response, steps[k].from)
  }

  /** In every run: a fetch that begins at state i, and gets the pieces it asks for, has
      the whole list after as many pieces of 1024 bytes as it takes, and not before. */
  lemma {:induction false} FetchCompletes(run: seq<World>, steps: seq<Label>, c: Config, h: Host, i: nat, j: nat)
    requires IsRun(run, steps, c) && i <= j < |run| && Known(run[i].table, h)
    requires var e := EntryOf(run[i].table, h); !e.ready && e.staging == [] && e.size > 0
    requires forall k :: i <= k < j ==> Serves(run, steps, c, h, k)
    ensures Known(run[j].table, h)
    ensures var e, f, pieces := EntryOf(run[i].table, h), EntryOf(run[j].table, h), j - i;
      if pieces * CHUNK_SIZE >= e.size then f.ready
      else !f.ready && |f.staging| == pieces * CHUNK_SIZE && f.size == e.size
  {
    hide Next, Start, Known, EntryOf;
    if i < j {
      FetchCompletes(run, steps, c, h, i, j - 1);
      assert Serves(run, steps, c, h, j - 1);
      FetchAdvances(run, steps, c, j - 1, steps[j - 1].arrived.response);
    }
  }
}
