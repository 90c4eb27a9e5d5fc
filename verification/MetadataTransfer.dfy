/** Fetching endpoint lists over a network that loses, repeats, delays and
    reorders datagrams: a ready entry holds exactly what its owner published. */
module MetadataTransfer {
  import opened Wire
  import opened NetworkTypes
  import opened EndpointMetadata
  import opened PeerTable

  datatype Owner = Owner(host: Host, boot: Host, session: u64)

  datatype Datagram = Announces(announcement: Announcement) | Answers(response: Response)

  /** For each session of each host, the lists published under revisions 1, 2, ... */
  type Logs = map<Owner, seq<seq<Metadata>>>

  /** What was published; every datagram ever sent; one receiver. */
  datatype World = World(logs: Logs, net: set<Datagram>, table: Table, now: nat)

  predicate Publishable(o: Owner, list: seq<Metadata>) {
    ValidList(list, o.host, o.boot) && EncodeList(list).Ok?
  }

  ghost predicate LogsOk(logs: Logs) {
    forall o, r :: o in logs && 0 <= r < |logs[o]| ==> Publishable(o, logs[o][r])
  }

  /** The list that a session published under a revision. */
  predicate Published(logs: Logs, o: Owner, revision: nat, list: seq<Metadata>) {
    o in logs && 0 < revision <= |logs[o]| && logs[o][revision - 1] == list
  }

  predicate Describes(p: Announcement, list: seq<Metadata>) {
    EncodeList(list).Ok? && p.size == |EncodeList(list).value| && p.count == |list|
  }

  predicate Quotes(p: Response, list: seq<Metadata>) {
    EncodeList(list).Ok?
    && var bytes := EncodeList(list).value;
       p.size == |bytes| && p.offset + |p.chunk| <= |bytes| && p.chunk == bytes[p.offset..p.offset + |p.chunk|]
  }

  /** Honest senders speak of lists that they published. */
  ghost predicate Truthful(d: Datagram, logs: Logs) {
    match d
    case Announces(p) =>
      ValidAnnouncement(p) && exists list ::
          Published(logs, Owner(p.host, p.boot, p.session), p.revision, list) && Describes(p, list)
    case Answers(p) =>
      ValidResponse(p) && exists list ::
          Published(logs, Owner(p.host, p.boot, p.session), p.revision, list) && Quotes(p, list)
  }

  predicate PrefixOf(part: seq<byte>, whole: seq<byte>) {
    |part| < |whole| && part == whole[..|part|] && |part| % CHUNK_SIZE == 0
  }

  /** What the receiver holds against what was published. */
  predicate Holds(e: Entry, list: seq<Metadata>) {
    EncodeList(list).Ok?
    && var bytes := EncodeList(list).value;
       && e.size == |bytes| && e.count == |list|
       && (if e.ready then e.endpoints == list && e.staging == [] else PrefixOf(e.staging, bytes))
  }

  ghost predicate EntryTrue(e: Entry, logs: Logs) {
    exists list :: Published(logs, Owner(e.host, e.boot, e.session), e.revision, list) && Holds(e, list)
  }

  ghost predicate Inv(w: World, c: Config) {
    && LogsOk(w.logs) && (forall d :: d in w.net ==> Truthful(d, w.logs))
    && TableOk(w.table, w.now, c) && c.maxPeers > 0
    && forall i :: 0 <= i < |w.table.peers| ==> EntryTrue(w.table.peers[i], w.logs)
  }

  // ---------------------------------------------------------------------
  // Steps
  // ---------------------------------------------------------------------

  /** A session starts, or publishes its next list. */
  predicate Publish(w: World, w': World, o: Owner, list: seq<Metadata>) {
    Publishable(o, list) && w' == w.(logs := w.logs[o := (if o in w.logs then w.logs[o] else []) + [list]])
  }

  ghost predicate Send(w: World, w': World, d: Datagram) {
    Truthful(d, w.logs) && w' == w.(net := w.net + {d})
  }

  /** Any datagram ever sent may arrive now, from any address. */
  ghost predicate Deliver(w: World, w': World, c: Config, d: Datagram, from: Address) {
    && d in w.net && w'.logs == w.logs && w'.net == w.net && w'.now == w.now
    && match d
       case Announces(p) =>
         if p.host == c.host then w'.table == w.table else AnnounceStep(w.table, p, from, w.now, c, w'.table)
       case Answers(p) => w'.table == Respond(w.table, p, from, w.now, c)
  }

  ghost predicate Tick(w: World, w': World, c: Config) {
    w'.logs == w.logs && w'.net == w.net && w'.now >= w.now && TickStep(w.table, w'.now, c, w'.table)
  }

  predicate Wait(w: World, w': World) { w'.now >= w.now && w' == w.(now := w'.now) }

  datatype Label =
    | Publishing(owner: Owner, list: seq<Metadata>)
    | Sending(sent: Datagram)
    | Delivering(arrived: Datagram, from: Address)
    | Ticking
    | Waiting

  ghost predicate Next(w: World, w': World, c: Config, l: Label) {
    match l
    case Publishing(o, list) => Publish(w, w', o, list)
    case Sending(d) => Send(w, w', d)
    case Delivering(d, from) => Deliver(w, w', c, d, from)
    case Ticking => Tick(w, w', c)
    case Waiting => Wait(w, w')
  }

  ghost predicate Start(w: World, c: Config) {
    w.logs == map[] && w.net == {} && w.table.peers == [] && c.maxPeers > 0
  }

  /** Step i, labelled steps[i - 1], leads from run[i - 1] to run[i]. */
  ghost predicate IsRun(run: seq<World>, steps: seq<Label>, c: Config) {
    && |run| == |steps| + 1 && Start(run[0], c)
    && forall i :: 0 <= i < |steps| ==> Next(run[i], run[i + 1], c, steps[i])
  }

  // ---------------------------------------------------------------------
  // Publishing and sending
  // ---------------------------------------------------------------------

  lemma PublishedStays(w: World, w': World, o: Owner, list: seq<Metadata>, q: Owner, revision: nat, was: seq<Metadata>)
    requires Publish(w, w', o, list) && Published(w.logs, q, revision, was)
    ensures Published(w'.logs, q, revision, was)
  {
  }

  lemma TruthStays(w: World, w': World, o: Owner, list: seq<Metadata>, d: Datagram)
    requires Publish(w, w', o, list) && Truthful(d, w.logs)
    ensures Truthful(d, w'.logs)
  {
    hide Publishable, Describes, Quotes, Publish, Published, ValidAnnouncement, ValidResponse;
    match d
    case Announces(p) =>
      var q := Owner(p.host, p.boot, p.session);
      var was :| Published(w.logs, q, p.revision, was) && Describes(p, was);
      PublishedStays(w, w', o, list, q, p.revision, was);
    case Answers(p) =>
      var q := Owner(p.host, p.boot, p.session);
      var was :| Published(w.logs, q, p.revision, was) && Quotes(p, was);
      PublishedStays(w, w', o, list, q, p.revision, was);
  }

  lemma EntryStays(w: World, w': World, o: Owner, list: seq<Metadata>, e: Entry)
    requires Publish(w, w', o, list) && EntryTrue(e, w.logs)
    ensures EntryTrue(e, w'.logs)
  {
    hide Publishable, Holds, Publish, Published;
    var q := Owner(e.host, e.boot, e.session);
    var was :| Published(w.logs, q, e.revision, was) && Holds(e, was);
    PublishedStays(w, w', o, list, q, e.revision, was);
  }

  lemma PublishKeeps(w: World, w': World, c: Config, o: Owner, list: seq<Metadata>)
    requires Inv(w, c) && Publish(w, w', o, list)
    ensures Inv(w', c)
  {
    hide Publishable, Truthful, EntryTrue, TableOk;
    forall d | d in w'.net ensures Truthful(d, w'.logs) { TruthStays(w, w', o, list, d); }
    forall i | 0 <= i < |w'.table.peers| ensures EntryTrue(w'.table.peers[i], w'.logs) {
      EntryStays(w, w', o, list, w.table.peers[i]);
    }
    assert LogsOk(w'.logs);
  }

  // ---------------------------------------------------------------------
  // Announcements
  // ---------------------------------------------------------------------

  lemma OneList(logs: Logs, o: Owner, revision: nat, a: seq<Metadata>, b: seq<Metadata>)
    requires Published(logs, o, revision, a) && Published(logs, o, revision, b)
    ensures a == b
  {
  }

  /** Entry i after a truthful announcement. */
  lemma AnnounceAtTrue(t: Table, i: nat, p: Announcement, from: Address, now: nat, timeout: nat, logs: Logs)
    requires i < |t.peers| && Truthful(Announces(p), logs)
    requires t.peers[i] == EMPTY
        || (EntryOk(t.peers[i], now, timeout) && t.peers[i].host == p.host && EntryTrue(t.peers[i], logs))
    ensures EntryTrue(AnnounceAt(t, i, p, from, now, timeout).peers[i], logs)
  {
    var e := t.peers[i];
    var r := Announced(e, p, from, now, timeout);
    AnnouncedOk(e, p, from, now, timeout);
    if r.taken && r.refresh {
      RefreshedTrue(t, i, p, from, now, timeout, logs);
    } else if r.taken {
      RepeatedTrue(e, p, from, now, timeout, logs);
    }
  }

  lemma RefreshedTrue(t: Table, i: nat, p: Announcement, from: Address, now: nat, timeout: nat, logs: Logs)
    requires i < |t.peers| && Truthful(Announces(p), logs)
    requires Announced(t.peers[i], p, from, now, timeout).taken && Announced(t.peers[i], p, from, now, timeout).refresh
    ensures EntryTrue(AnnounceAt(t, i, p, from, now, timeout).peers[i], logs)
  {
    hide EncodeList;
    var list :| Published(logs, Owner(p.host, p.boot, p.session), p.revision, list) && Describes(p, list);
    Fresh(AnnounceAt(t, i, p, from, now, timeout).peers[i], list);
  }

  lemma RepeatedTrue(e: Entry, p: Announcement, from: Address, now: nat, timeout: nat, logs: Logs)
    requires EntryOk(e, now, timeout) && e.host == p.host && EntryTrue(e, logs) && Truthful(Announces(p), logs)
    requires Announced(e, p, from, now, timeout).taken && !Announced(e, p, from, now, timeout).refresh
    ensures EntryTrue(Announced(e, p, from, now, timeout).entry, logs)
  {
    hide EncodeList, ValidAnnouncement;
    var f := Announced(e, p, from, now, timeout).entry;
    Unchanged(e, p, from, now, timeout);
    var o := Owner(p.host, p.boot, p.session);
    var was :| Published(logs, Owner(e.host, e.boot, e.session), e.revision, was) && Holds(e, was);
    assert Holds(f, was) && Published(logs, o, f.revision, was);
  }

  lemma Fresh(e: Entry, list: seq<Metadata>)
    requires !e.ready && e.staging == [] && EncodeList(list).Ok? && e.size == |EncodeList(list).value|
        && e.count == |list|
    requires e.size >= 2
    ensures Holds(e, list)
  {
  }

  /** Without a refresh the announcement repeats what is known. */
  lemma Unchanged(e: Entry, p: Announcement, from: Address, now: nat, timeout: nat)
    requires EntryOk(e, now, timeout)
    requires Announced(e, p, from, now, timeout).taken && !Announced(e, p, from, now, timeout).refresh
    ensures Current(e) == Claimed(p) && e.revision == p.revision
    ensures var f := Announced(e, p, from, now, timeout).entry;
      f.ready == e.ready && f.endpoints == e.endpoints && f.staging == e.staging && f.size == e.size == p.size
          && f.count == e.count
  {
  }

  lemma AnnounceTrue(w: World, p: Announcement, from: Address, c: Config, u: Table)
    requires Inv(w, c) && Truthful(Announces(p), w.logs) && AnnounceStep(w.table, p, from, w.now, c, u)
    ensures TableOk(u, w.now, c) && forall i :: 0 <= i < |u.peers| ==> EntryTrue(u.peers[i], w.logs)
  {
    AnnounceKeeps(w.table, p, from, w.now, c, u);
    hide EntryTrue, EntryOk, Truthful, LogsOk, MakesRoom, Full, AnnounceAt;
    var t := w.table;
    var n := Find(t.peers, p.host);
    if n < |t.peers| {
      AnnounceAtTrue(t, n, p, from, w.now, c.timeout, w.logs);
    } else if !Full(t.peers, c.maxPeers) {
      var room :| MakesRoom(t.peers, c.maxPeers, room) && u == AnnounceNew(t, room, p, from, w.now, c.timeout);
      AnnounceNewTrue(t, room, p, from, w.now, c, w.logs);
    }
  }

  lemma AnnounceNewTrue(t: Table, room: seq<Entry>, p: Announcement, from: Address, now: nat, c: Config, logs: Logs)
    requires MakesRoom(t.peers, c.maxPeers, room) && Truthful(Announces(p), logs)
    requires forall i :: 0 <= i < |t.peers| ==> EntryTrue(t.peers[i], logs)
    ensures var u := AnnounceNew(t, room, p, from, now, c.timeout);
      forall i :: 0 <= i < |u.peers| ==> EntryTrue(u.peers[i], logs)
  {
    hide EntryTrue, EntryOk, Truthful, MakesRoom, AnnounceAt;
    var u := AnnounceNew(t, room, p, from, now, c.timeout);
    AnnounceAtTrue(t.(peers := room + [EMPTY]), |room|, p, from, now, c.timeout, logs);
    forall i | 0 <= i < |u.peers| ensures EntryTrue(u.peers[i], logs) {
      if i < |room| { RoomIsFromTable(t.peers, c.maxPeers, room, i); }
    }
  }

  lemma RoomIsFromTable(peers: seq<Entry>, most: nat, room: seq<Entry>, i: nat)
    requires MakesRoom(peers, most, room) && i < |room|
    ensures room[i] in peers
  {
  }

  // ---------------------------------------------------------------------
  // Answers
  // ---------------------------------------------------------------------

  lemma Grows(staging: seq<byte>, chunk: seq<byte>, bytes: seq<byte>)
    requires PrefixOf(staging, bytes) && |staging| + |chunk| <= |bytes|
    requires chunk == bytes[|staging|..|staging| + |chunk|]
    ensures staging + chunk == bytes[..|staging| + |chunk|]
  {
  }

  lemma Aligned(offset: nat, size: nat, length: nat)
    requires offset % CHUNK_SIZE == 0 && offset < size && offset + length < size
    requires length == if size - offset < CHUNK_SIZE then size - offset else CHUNK_SIZE
    ensures (offset + length) % CHUNK_SIZE == 0
  {
  }

  /** The next piece of the right list: still a prefix, or the list itself. */
  lemma RespondAtTrue(t: Table, i: nat, p: Response, from: Address, now: nat, retry: nat, logs: Logs)
    requires LogsOk(logs) && i < |t.peers| && t.peers[i].host == p.host
    requires Truthful(Answers(p), logs) && EntryTrue(t.peers[i], logs)
    ensures EntryTrue(RespondAt(t, i, p, from, now, retry).peers[i], logs)
  {
    hide ValidList, EncodeList, DecodeList;
    var e := t.peers[i];
    if Expected(e, p, from) {
      var o := Owner(p.host, p.boot, p.session);
      var list :| Published(logs, o, p.revision, list) && Quotes(p, list);
      var was :| Published(logs, o, e.revision, was) && Holds(e, was);
      OneList(logs, o, p.revision, list, was);
      assert Publishable(o, list);
      var bytes, all := EncodeList(list).value, e.staging + p.chunk;
      Grows(e.staging, p.chunk, bytes);
      if |all| == e.size {
        assert all == bytes;
        DecodeOfEncode(list);
        assert Complete(e, p, all);
      } else {
        Aligned(p.offset, p.size, |p.chunk|);
      }
      var f := RespondAt(t, i, p, from, now, retry).peers[i];
      assert Holds(f, list);
      assert Published(logs, Owner(f.host, f.boot, f.session), f.revision, list);
    }
  }

  lemma AnswerTrue(w: World, p: Response, from: Address, c: Config)
    requires Inv(w, c) && Truthful(Answers(p), w.logs)
    ensures var u := Respond(w.table, p, from, w.now, c);
      TableOk(u, w.now, c) && forall i :: 0 <= i < |u.peers| ==> EntryTrue(u.peers[i], w.logs)
  {
    RespondKeeps(w.table, p, from, w.now, c);
    hide EntryTrue, EntryOk, Truthful, RespondAt;
    var n := Find(w.table.peers, p.host);
    if p.host != c.host && n < |w.table.peers| { RespondAtTrue(w.table, n, p, from, w.now, c.retry, w.logs); }
  }

  // ---------------------------------------------------------------------
  // Time
  // ---------------------------------------------------------------------

  lemma TickEntryTrue(e: Entry, now: nat, c: Config, logs: Logs)
    requires EntryTrue(e, logs) && LogsOk(logs)
    ensures EntryTrue(TickEntry(e, now, c), logs)
  {
    hide EncodeList, ValidList;
    var f := TickEntry(e, now, c);
    var list :| Published(logs, Owner(e.host, e.boot, e.session), e.revision, list) && Holds(e, list);
    NotEmpty(list);
    assert Published(logs, Owner(f.host, f.boot, f.session), f.revision, list) && Holds(f, list);
  }

  lemma NotEmpty(list: seq<Metadata>)
    requires EncodeList(list).Ok?
    ensures |EncodeList(list).value| >= 2
  {
    EncodeListIs(list);
    One(2);
  }

  lemma TickTrue(w: World, w': World, c: Config)
    requires Inv(w, c) && Tick(w, w', c)
    ensures Inv(w', c)
  {
    TickKeeps(w.table, w.now, w'.now, c, w'.table);
    hide EntryTrue, EntryOk, TickEntry, Truthful, LogsOk;
    forall i | 0 <= i < |w'.table.peers| ensures EntryTrue(w'.table.peers[i], w'.logs) {
      TickEntryTrue(w.table.peers[i], w'.now, c, w.logs);
    }
  }

  // ---------------------------------------------------------------------
  // Runs
  // ---------------------------------------------------------------------

  lemma DeliverTrue(w: World, w': World, c: Config, d: Datagram, from: Address)
    requires Inv(w, c) && Deliver(w, w', c, d, from)
    ensures Inv(w', c)
  {
    hide EntryTrue, Truthful, LogsOk, TableOk, AnnounceStep, Respond;
    match d
    case Announces(p) => if p.host != c.host { AnnounceTrue(w, p, from, c, w'.table); }
    case Answers(p) => AnswerTrue(w, p, from, c);
  }

  lemma NextKeeps(w: World, w': World, c: Config, l: Label)
    requires Inv(w, c) && Next(w, w', c, l)
    ensures Inv(w', c)
  {
    hide EntryTrue, Truthful, LogsOk, TableOk, Publish, Send, Deliver, Tick;
    match l
    case Publishing(o, list) => PublishKeeps(w, w', c, o, list);
    case Sending(d) => SendKeeps(w, w', c, d);
    case Delivering(d, from) => DeliverTrue(w, w', c, d, from);
    case Ticking => TickTrue(w, w', c);
    case Waiting => WaitKeeps(w.table, w.now, w'.now, c);
  }

  lemma SendKeeps(w: World, w': World, c: Config, d: Datagram)
    requires Inv(w, c) && Send(w, w', d)
    ensures Inv(w', c)
  {
    hide EntryTrue, Truthful, LogsOk, TableOk;
  }

  lemma {:induction false} RunKeepsInv(run: seq<World>, steps: seq<Label>, c: Config, i: nat)
    requires IsRun(run, steps, c) && i < |run|
    ensures Inv(run[i], c)
  {
    hide Next;
    if i > 0 {
      RunKeepsInv(run, steps, c, i - 1);
      NextKeeps(run[i - 1], run[i], c, steps[i - 1]);
    }
  }

  /** In every run, at every moment: a ready entry holds the list its owner
      published under that revision in that session, and an entry that is not ready
      holds a chunk-aligned proper prefix of that list's bytes. */
  lemma TransferIsExact(run: seq<World>, steps: seq<Label>, c: Config, i: nat, k: nat)
    requires IsRun(run, steps, c) && i < |run| && k < |run[i].table.peers|
    ensures var e, logs := run[i].table.peers[k], run[i].logs;
      var o := Owner(e.host, e.boot, e.session);
      && o in logs && 0 < e.revision <= |logs[o]| && EncodeList(logs[o][e.revision - 1]).Ok?
      && (e.ready ==> e.endpoints == logs[o][e.revision - 1])
      && (!e.ready ==> PrefixOf(e.staging, EncodeList(logs[o][e.revision - 1]).value))
  {
    RunKeepsInv(run, steps, c, i);
    hide EncodeList, TableOk, Truthful;
    assert EntryTrue(run[i].table.peers[k], run[i].logs);
  }

  // ---------------------------------------------------------------------
  // The publishing object is an honest sender
  // ---------------------------------------------------------------------

  /** What MakeAnnouncement promises of its packet makes it truthful. */
  lemma AnnouncementIsTruthful(logs: Logs, o: Owner, bytes: seq<byte>, p: Announcement)
    requires o in logs && o == Owner(p.host, p.boot, p.session) && 0 < p.revision <= |logs[o]| && ValidAnnouncement(p)
    requires EncodeList(logs[o][p.revision - 1]) == Ok(bytes) && p.size == |bytes|
        && p.count == |logs[o][p.revision - 1]|
    ensures Truthful(Announces(p), logs)
  {
    hide EncodeList;
    assert Published(logs, o, p.revision, logs[o][p.revision - 1]) && Describes(p, logs[o][p.revision - 1]);
  }

  /** What Answer promises of its packet makes it truthful. */
  lemma AnswerIsTruthful(logs: Logs, o: Owner, bytes: seq<byte>, p: Response)
    requires o in logs && o == Owner(p.host, p.boot, p.session) && 0 < p.revision <= |logs[o]| && ValidResponse(p)
    requires EncodeList(logs[o][p.revision - 1]) == Ok(bytes) && p.size == |bytes|
    requires p.offset + |p.chunk| <= |bytes| && p.chunk == bytes[p.offset..p.offset + |p.chunk|]
    ensures Truthful(Answers(p), logs)
  {
    hide EncodeList;
    assert Published(logs, o, p.revision, logs[o][p.revision - 1]) && Quotes(p, logs[o][p.revision - 1]);
  }
}
