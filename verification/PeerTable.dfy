/** The discovery peer table: which announcements are believed, when a peer is
    lost, and which incarnation of a host is current. Time is in milliseconds. */
module PeerTable {
  import opened Wire
  import opened NetworkTypes
  import opened EndpointMetadata

  const CHUNK_SIZE := 1024
  const RETIRED_MAX := 8

  type Address = nat
  datatype Incarnation = Incarnation(boot: Host, session: u64)

  /** An announcement that passed the packet decoder. */
  datatype Announcement = Announcement(
    host: Host, boot: Host, session: u64, sequence: u64, revision: u64, size: u32, count: u16, profile: nat)

  predicate ValidAnnouncement(p: Announcement) {
    && ValidHost(p.host) && ValidHost(p.boot) && p.session != 0 && p.sequence != 0 && p.revision != 0
    && 2 <= p.size <= MAX_METADATA && p.count <= MAX_ENDPOINTS
  }

  datatype Entry = Entry(
    host: Host, boot: Host, session: u64, profile: nat, address: Address, lastSeen: nat, lost: bool,
    sequence: u64, revision: u64, size: u32, count: u16,
    ready: bool, endpoints: seq<Metadata>, staging: seq<byte>,
    requestId: u64, nextRequest: nat, nextResponse: nat, retired: seq<Incarnation>)

  const EMPTY := Entry(ZERO_HOST, ZERO_HOST, 0, 0, 0, 0, false, 0, 0, 0, 0, false, [], [], 0, 0, 0, [])

  datatype Config = Config(host: Host, timeout: nat, retry: nat, maxPeers: nat)

  function Current(e: Entry): Incarnation { Incarnation(e.boot, e.session) }
  function Claimed(p: Announcement): Incarnation { Incarnation(p.boot, p.session) }

  // ---------------------------------------------------------------------
  // One announcement against one entry
  // ---------------------------------------------------------------------

  predicate Displaces(e: Entry, p: Announcement) { e.session != 0 && Claimed(p) != Current(e) }

  function Remember(retired: seq<Incarnation>, i: Incarnation): seq<Incarnation> {
    var more := retired + [i];
    if |more| > RETIRED_MAX then more[1..] else more
  }

  function Retire(e: Entry): Entry {
    e.(retired := Remember(e.retired, Current(e)), sequence := 0, revision := 0, nextResponse := 0)
  }

  /** The entry afterwards, whether the announcement was taken, and whether the
      metadata must be fetched again. */
  datatype Heard = Heard(entry: Entry, taken: bool, refresh: bool)

  function Announced(e: Entry, p: Announcement, from: Address, now: nat, timeout: nat): Heard {
    var changed := Displaces(e, p);
    if e.session != 0 && !changed && e.profile != p.profile then Heard(e, false, false) else
    if changed && (now - e.lastSeen < timeout || Claimed(p) in e.retired) then Heard(e, false, false) else
    var f := if changed then Retire(e) else e;
    if p.sequence <= f.sequence || p.revision < f.revision then Heard(f, false, false) else
    var contradicts := f.sequence != 0 && p.revision == f.revision && (f.size != p.size || f.count != p.count);
    if contradicts then Heard(f, false, false) else
    var moved := f.sequence != 0 && f.address != from;
    if moved && now - f.lastSeen < timeout then Heard(f, false, false) else
    var refresh := f.session == 0 || changed || moved || f.lost || p.revision != f.revision;
    Heard(f.(host := p.host, boot := p.boot, session := p.session, profile := p.profile, address := from,
        lastSeen := now,
             lost := false, sequence := p.sequence, revision := p.revision, size := p.size, count := p.count),
          true, refresh)
  }

  // ---------------------------------------------------------------------
  // The table
  // ---------------------------------------------------------------------

  datatype Table = Table(peers: seq<Entry>, counter: u64, running: bool)

  /** Only entry i differs. */
  ghost predicate OnlyAt(t: Table, i: nat, u: Table) {
    |u.peers| == |t.peers| && forall k :: 0 <= k < |t.peers| && k != i ==> u.peers[k] == t.peers[k]
  }

  function BeginMetadata(t: Table, i: nat): (u: Table)
    requires i < |t.peers|
    ensures OnlyAt(t, i, u)
  {
    var e := t.peers[i].(ready := false, endpoints := [], staging := []);
    if t.counter == U64_MAX then t.(peers := t.peers[i := e], running := false)
    else t.(peers := t.peers[i := e.(requestId := t.counter + 1, nextRequest := 0)], counter := t.counter + 1)
  }

  /** The index of the host's entry, or the number of peers. */
  function Find(peers: seq<Entry>, host: Host): (i: nat)
    ensures i <= |peers|
    ensures i < |peers| ==> peers[i].host == host
    ensures forall k :: 0 <= k < i ==> peers[k].host != host
  {
    if peers == [] then 0
    else if peers[0].host == host then 0
    else 1 + Find(peers[1..], host)
  }

  /** Entry i is the first of the lost entries heard longest ago. */
  ghost predicate IsOldestLost(peers: seq<Entry>, i: nat) {
    && i < |peers| && peers[i].lost
    && (forall k :: 0 <= k < |peers| && peers[k].lost ==> peers[i].lastSeen <= peers[k].lastSeen)
    && (forall k :: 0 <= k < i && peers[k].lost ==> peers[i].lastSeen < peers[k].lastSeen)
  }

  /** Room for a new host, if there is any. */
  ghost predicate MakesRoom(peers: seq<Entry>, most: nat, room: seq<Entry>) {
    if |peers| < most then room == peers
    else exists i: nat :: IsOldestLost(peers, i) && room == peers[..i] + peers[i + 1..]
  }

  ghost predicate Full(peers: seq<Entry>, most: nat) {
    |peers| >= most && forall k :: 0 <= k < |peers| ==> !peers[k].lost
  }

  function AnnounceAt(t: Table, i: nat, p: Announcement, from: Address, now: nat, timeout: nat): (u: Table)
    requires i < |t.peers|
    ensures OnlyAt(t, i, u)
  {
    var r := Announced(t.peers[i], p, from, now, timeout);
    var heard := t.(peers := t.peers[i := r.entry]);
    if r.taken && r.refresh then BeginMetadata(heard, i) else heard
  }

  function AnnounceNew(t: Table, room: seq<Entry>, p: Announcement, from: Address, now: nat, timeout: nat): Table {
    AnnounceAt(t.(peers := room + [EMPTY]), |room|, p, from, now, timeout)
  }

  /** What one announcement does to the table. */
  ghost predicate AnnounceStep(t: Table, p: Announcement, from: Address, now: nat, c: Config, u: Table) {
    var i := Find(t.peers, p.host);
    if i < |t.peers| then u == AnnounceAt(t, i, p, from, now, c.timeout)
    else if Full(t.peers, c.maxPeers) then u == t
    else exists room :: MakesRoom(t.peers, c.maxPeers, room) && u == AnnounceNew(t, room, p, from, now, c.timeout)
  }

  /** A metadata response that passed the packet decoder. */
  datatype Response = Response(
    host: Host, boot: Host, session: u64, requestId: u64, revision: u64, offset: u32, size: u32, chunk: seq<byte>)

  predicate ValidResponse(p: Response) {
    && ValidHost(p.host) && ValidHost(p.boot) && p.session != 0 && p.requestId != 0 && p.revision != 0
    && 2 <= p.size <= MAX_METADATA && p.offset < p.size && p.offset % CHUNK_SIZE == 0
    && |p.chunk| == if p.size - p.offset < CHUNK_SIZE then p.size - p.offset else CHUNK_SIZE
  }

  predicate Expected(e: Entry, p: Response, from: Address) {
    && !e.lost && e.boot == p.boot && e.session == p.session && e.address == from
    && !e.ready && p.requestId == e.requestId && p.revision == e.revision && p.size == e.size && p.offset == |e.staging|
  }

  predicate Complete(e: Entry, p: Response, all: seq<byte>) {
    DecodeList(all).Ok? && |DecodeList(all).value| == e.count && ValidList(DecodeList(all).value, p.host, p.boot)
  }

  function RespondAt(t: Table, i: nat, p: Response, from: Address, now: nat, retry: nat): (u: Table)
    requires i < |t.peers|
    ensures OnlyAt(t, i, u)
  {
    hide DecodeList;
    var e := t.peers[i];
    if !Expected(e, p, from) then t else
    var all := e.staging + p.chunk;
    if |all| != e.size then t.(peers := t.peers[i := e.(staging := all, nextRequest := 0)])
    else if Complete(e, p, all) then
      t.(peers := t.peers[i := e.(endpoints := DecodeList(all).value, ready := true, staging := [])])
    else
      var again := BeginMetadata(t.(peers := t.peers[i := e.(staging := all)]), i);
      again.(peers := again.peers[i := again.peers[i].(nextRequest := now + retry)])
  }

  function Respond(t: Table, p: Response, from: Address, now: nat, c: Config): Table {
    var i := Find(t.peers, p.host);
    if p.host == c.host || i == |t.peers| then t else RespondAt(t, i, p, from, now, c.retry)
  }

  function TickEntry(e: Entry, now: nat, c: Config): Entry {
    var f := if !e.lost && now - e.lastSeen >= c.timeout
        then e.(lost := true, ready := false, endpoints := [], staging := [])
             else e;
    if !f.lost && !f.ready && now >= f.nextRequest then f.(nextRequest := now + c.retry) else f
  }

  ghost predicate TickStep(t: Table, now: nat, c: Config, u: Table) {
    && u.counter == t.counter && u.running == t.running && |u.peers| == |t.peers|
    && forall i :: 0 <= i < |t.peers| ==> u.peers[i] == TickEntry(t.peers[i], now, c)
  }

  // ---------------------------------------------------------------------
  // What every step keeps
  // ---------------------------------------------------------------------

  predicate EntryOk(e: Entry, now: nat, timeout: nat) {
    && ValidHost(e.host) && e.session != 0 && e.sequence != 0 && e.revision != 0 && e.lastSeen <= now
    && (e.lost ==> now - e.lastSeen >= timeout && !e.ready && e.staging == [])
    && |e.retired| <= RETIRED_MAX && Current(e) !in e.retired
  }

  ghost predicate OnePerHost(peers: seq<Entry>) {
    forall i, j :: 0 <= i < j < |peers| ==> peers[i].host != peers[j].host
  }

  ghost predicate TableOk(t: Table, now: nat, c: Config) {
    && |t.peers| <= c.maxPeers && OnePerHost(t.peers)
    && forall i :: 0 <= i < |t.peers| ==> EntryOk(t.peers[i], now, c.timeout)
  }

  lemma RememberKeeps(retired: seq<Incarnation>, i: Incarnation, x: Incarnation)
    requires x !in retired && x != i
    ensures x !in Remember(retired, i)
  {
    assert x !in retired + [i];
  }

  /** A taken announcement leaves a good entry; one that is not taken changes
      nothing. */
  lemma AnnouncedOk(e: Entry, p: Announcement, from: Address, now: nat, timeout: nat)
    requires ValidAnnouncement(p) && (e == EMPTY || EntryOk(e, now, timeout))
    ensures var r := Announced(e, p, from, now, timeout);
      && (r.taken ==> EntryOk(r.entry, now, timeout) && r.entry.host == p.host && Current(r.entry) == Claimed(p))
      && (!r.taken ==> r.entry == e)
      && (e == EMPTY ==> r.taken)
  {
    if Displaces(e, p) && Claimed(p) !in e.retired { RememberKeeps(e.retired, Current(e), Claimed(p)); }
  }

  lemma RemovedOk(t: Table, i: nat, now: nat, c: Config)
    requires TableOk(t, now, c) && i < |t.peers|
    ensures TableOk(t.(peers := t.peers[..i] + t.peers[i + 1..]), now, c)
  {
    var room := t.peers[..i] + t.peers[i + 1..];
    assert forall k :: 0 <= k < |room| ==> room[k] == t.peers[if k < i then k else k + 1];
  }

  lemma ReplacedOk(t: Table, i: nat, e: Entry, now: nat, c: Config)
    requires i < |t.peers| && EntryOk(e, now, c.timeout) && |t.peers| <= c.maxPeers
    requires forall k :: 0 <= k < |t.peers| && k != i ==>
        EntryOk(t.peers[k], now, c.timeout) && t.peers[k].host != e.host
    requires forall j, k :: 0 <= j < k < |t.peers| && j != i && k != i ==> t.peers[j].host != t.peers[k].host
    ensures TableOk(t.(peers := t.peers[i := e]), now, c)
  {
  }

  lemma BeginOk(t: Table, i: nat, now: nat, c: Config)
    requires i < |t.peers| && TableOk(t, now, c)
    ensures TableOk(BeginMetadata(t, i), now, c)
  {
    ReplacedOk(t, i, BeginMetadata(t, i).peers[i], now, c);
  }

  lemma AnnounceAtOk(t: Table, i: nat, p: Announcement, from: Address, now: nat, c: Config)
    requires ValidAnnouncement(p) && i < |t.peers| && |t.peers| <= c.maxPeers
    requires t.peers[i] == EMPTY || (EntryOk(t.peers[i], now, c.timeout) && t.peers[i].host == p.host)
    requires forall k :: 0 <= k < |t.peers| && k != i ==>
        EntryOk(t.peers[k], now, c.timeout) && t.peers[k].host != p.host
    requires forall j, k :: 0 <= j < k < |t.peers| && j != i && k != i ==> t.peers[j].host != t.peers[k].host
    ensures TableOk(AnnounceAt(t, i, p, from, now, c.timeout), now, c)
  {
    hide Announced;
    var r := Announced(t.peers[i], p, from, now, c.timeout);
    AnnouncedOk(t.peers[i], p, from, now, c.timeout);
    ReplacedOk(t, i, r.entry, now, c);
    if r.taken && r.refresh { BeginOk(t.(peers := t.peers[i := r.entry]), i, now, c); }
  }

  lemma RoomOk(t: Table, room: seq<Entry>, host: Host, now: nat, c: Config)
    requires TableOk(t, now, c) && MakesRoom(t.peers, c.maxPeers, room) && c.maxPeers > 0
    requires forall k :: 0 <= k < |t.peers| ==> t.peers[k].host != host
    ensures TableOk(t.(peers := room), now, c) && |room| < c.maxPeers
    ensures forall k :: 0 <= k < |room| ==> room[k].host != host
  {
    hide EntryOk;
    if |t.peers| >= c.maxPeers {
      var i: nat :| IsOldestLost(t.peers, i) && room == t.peers[..i] + t.peers[i + 1..];
      RemovedOk(t, i, now, c);
      hide TableOk, IsOldestLost;
      assert forall j :: 0 <= j < |room| ==> room[j] == t.peers[if j < i then j else j + 1];
    }
  }

  lemma AnnounceNewOk(t: Table, room: seq<Entry>, p: Announcement, from: Address, now: nat, c: Config)
    requires ValidAnnouncement(p) && TableOk(t.(peers := room), now, c) && |room| < c.maxPeers
    requires forall k :: 0 <= k < |room| ==> room[k].host != p.host
    ensures TableOk(AnnounceNew(t, room, p, from, now, c.timeout), now, c)
  {
    hide EntryOk, AnnounceAt;
    assert forall k :: 0 <= k < |room| ==> (room + [EMPTY])[k] == room[k];
    AnnounceAtOk(t.(peers := room + [EMPTY]), |room|, p, from, now, c);
  }

  /** One entry per host, never more than the configured number, and every entry
      sound, whatever is announced. */
  lemma AnnounceKeeps(t: Table, p: Announcement, from: Address, now: nat, c: Config, u: Table)
    requires ValidAnnouncement(p) && TableOk(t, now, c) && c.maxPeers > 0 && AnnounceStep(t, p, from, now, c, u)
    ensures TableOk(u, now, c)
  {
    hide EntryOk, AnnounceAt, AnnounceNew, MakesRoom, Full;
    var i := Find(t.peers, p.host);
    if i < |t.peers| {
      AnnounceAtOk(t, i, p, from, now, c);
    } else if !Full(t.peers, c.maxPeers) {
      var room :| MakesRoom(t.peers, c.maxPeers, room) && u == AnnounceNew(t, room, p, from, now, c.timeout);
      RoomOk(t, room, p.host, now, c);
      AnnounceNewOk(t, room, p, from, now, c);
    }
  }

  lemma RespondKeeps(t: Table, p: Response, from: Address, now: nat, c: Config)
    requires ValidResponse(p) && TableOk(t, now, c)
    ensures TableOk(Respond(t, p, from, now, c), now, c)
  {
    var i := Find(t.peers, p.host);
    if p.host != c.host && i < |t.peers| {
      RespondAtOk(t, i, p, from, now, c);
      hide EntryOk, RespondAt;
      var u := RespondAt(t, i, p, from, now, c.retry);
      ReplacedOk(t, i, u.peers[i], now, c);
      assert u.peers == t.peers[i := u.peers[i]];
    }
  }

  lemma RespondAtOk(t: Table, i: nat, p: Response, from: Address, now: nat, c: Config)
    requires i < |t.peers| && EntryOk(t.peers[i], now, c.timeout)
    ensures var f := RespondAt(t, i, p, from, now, c.retry).peers[i];
      EntryOk(f, now, c.timeout) && f.host == t.peers[i].host
  {
    hide Complete, DecodeList;
  }

  lemma TickKeeps(t: Table, before: nat, now: nat, c: Config, u: Table)
    requires TableOk(t, before, c) && before <= now && TickStep(t, now, c, u)
    ensures TableOk(u, now, c)
  {
    forall i | 0 <= i < |u.peers| ensures EntryOk(u.peers[i], now, c.timeout) && u.peers[i].host == t.peers[i].host {
      assert EntryOk(t.peers[i], before, c.timeout);
    }
  }

  /** Time passing without a tick. */
  lemma WaitKeeps(t: Table, before: nat, now: nat, c: Config)
    requires TableOk(t, before, c) && before <= now
    ensures TableOk(t, now, c)
  {
    forall i | 0 <= i < |t.peers| ensures EntryOk(t.peers[i], now, c.timeout) {
      assert EntryOk(t.peers[i], before, c.timeout);
    }
  }

  // ---------------------------------------------------------------------
  // Which announcements are believed
  // ---------------------------------------------------------------------

  lemma AnnounceAtKeepsRecent(t: Table, i: nat, p: Announcement, from: Address, now: nat, timeout: nat, k: nat)
    requires i < |t.peers| && k < |t.peers| && t.peers[k].session != 0 && now - t.peers[k].lastSeen < timeout
    requires i == k ==> t.peers[i].host == p.host
    ensures var u := AnnounceAt(t, i, p, from, now, timeout);
      |u.peers| == |t.peers| && u.peers[k].host == t.peers[k].host && Current(u.peers[k]) == Current(t.peers[k])
  {
  }

  ghost predicate Holds(peers: seq<Entry>, host: Host, current: Incarnation) {
    exists k :: 0 <= k < |peers| && peers[k].host == host && Current(peers[k]) == current
  }

  lemma RoomKeepsRecent(t: Table, room: seq<Entry>, now: nat, c: Config, i: nat) returns (at: nat)
    requires TableOk(t, now, c) && MakesRoom(t.peers, c.maxPeers, room)
    requires i < |t.peers| && now - t.peers[i].lastSeen < c.timeout
    ensures at < |room| && room[at] == t.peers[i]
  {
    at := i;
    if |t.peers| >= c.maxPeers {
      var k: nat :| IsOldestLost(t.peers, k) && room == t.peers[..k] + t.peers[k + 1..];
      assert EntryOk(t.peers[k], now, c.timeout);
      at := if i < k then i else i - 1;
    }
  }

  /** An incarnation heard within the timeout is neither displaced nor evicted. */
  lemma RecentIsKept(t: Table, p: Announcement, from: Address, now: nat, c: Config, u: Table, i: nat)
    requires TableOk(t, now, c) && AnnounceStep(t, p, from, now, c, u)
    requires i < |t.peers| && now - t.peers[i].lastSeen < c.timeout
    ensures Holds(u.peers, t.peers[i].host, Current(t.peers[i]))
  {
    hide AnnounceAt, MakesRoom, Full;
    var n := Find(t.peers, p.host);
    assert EntryOk(t.peers[i], now, c.timeout);
    if n < |t.peers| {
      AnnounceAtKeepsRecent(t, n, p, from, now, c.timeout, i);
      assert u.peers[i].host == t.peers[i].host;
    } else if !Full(t.peers, c.maxPeers) {
      var room :| MakesRoom(t.peers, c.maxPeers, room) && u == AnnounceNew(t, room, p, from, now, c.timeout);
      var at := RoomKeepsRecent(t, room, now, c, i);
      AnnounceAtKeepsRecent(t.(peers := room + [EMPTY]), |room|, p, from, now, c.timeout, at);
      assert u.peers[at].host == t.peers[i].host;
    }
  }

  // ---------------------------------------------------------------------
  // Replays
  // ---------------------------------------------------------------------

  function Last(taken: seq<Announcement>): Announcement
    requires taken != []
  {
    taken[|taken| - 1]
  }

  /** The incarnations that a history of taken announcements displaced, oldest first. */
  function Displaced(taken: seq<Announcement>): seq<Incarnation> {
    if |taken| <= 1 then [] else
    var front := taken[..|taken| - 1];
    Displaced(front) + if Claimed(Last(taken)) != Claimed(Last(front)) then [Claimed(Last(front))] else []
  }

  function LastOnes(s: seq<Incarnation>): seq<Incarnation> {
    if |s| <= RETIRED_MAX then s else s[|s| - RETIRED_MAX..]
  }

  /** The entry is what the announcements taken into it say. */
  ghost predicate Told(e: Entry, taken: seq<Announcement>) {
    && taken != []
    && var p := Last(taken);
    && Current(e) == Claimed(p) && e.host == p.host && e.profile == p.profile
    && e.sequence == p.sequence && e.revision == p.revision && e.size == p.size && e.count == p.count
    && e.retired == LastOnes(Displaced(taken))
  }

  /** A later announcement of the same incarnation, consistent with this one. */
  predicate Continues(p: Announcement, q: Announcement) {
    && q.profile == p.profile && q.sequence > p.sequence && q.revision >= p.revision
    && (q.revision == p.revision ==> q.size == p.size && q.count == p.count)
  }

  /** What may be taken into an entry that has timed out. */
  predicate Revives(taken: seq<Announcement>, p: Announcement)
    requires taken != []
  {
    if Claimed(p) == Claimed(Last(taken)) then Continues(Last(taken), p) else Claimed(p) !in LastOnes(Displaced(taken))
  }

  /** Each announcement was one to take after those before it. */
  predicate Believable(taken: seq<Announcement>) {
    |taken| <= 1 || (Believable(taken[..|taken| - 1]) && Revives(taken[..|taken| - 1], Last(taken)))
  }

  lemma DisplacedMore(taken: seq<Announcement>, p: Announcement)
    requires taken != []
    ensures Displaced(taken + [p]) == Displaced(taken) + if Claimed(p) != Claimed(Last(taken))
        then [Claimed(Last(taken))] else []
  {
    assert (taken + [p])[..|taken + [p]| - 1] == taken;
  }

  lemma RememberLast(displaced: seq<Incarnation>, i: Incarnation)
    ensures Remember(LastOnes(displaced), i) == LastOnes(displaced + [i])
  {
    var more := displaced + [i];
    if |more| > RETIRED_MAX + 1 {
      assert LastOnes(displaced) + [i] == more[|more| - RETIRED_MAX - 1..];
    }
  }

  /** A taken announcement continues the history of the entry, and was one that may
      be taken; the retired list stays the last eight displaced incarnations. */
  lemma TakenIsTold(e: Entry, taken: seq<Announcement>, p: Announcement, from: Address, now: nat, timeout: nat)
    requires ValidAnnouncement(p) && EntryOk(e, now, timeout) && Told(e, taken) && p.host == e.host
    requires Announced(e, p, from, now, timeout).taken
    ensures Told(Announced(e, p, from, now, timeout).entry, taken + [p]) && Revives(taken, p)
  {
    DisplacedMore(taken, p);
    RememberLast(Displaced(taken), Current(e));
  }

  lemma FirstIsTold(p: Announcement, from: Address, now: nat, timeout: nat)
    requires ValidAnnouncement(p)
    ensures Announced(EMPTY, p, from, now, timeout).taken && Told(Announced(EMPTY, p, from, now, timeout).entry, [p])
  {
  }

  /** A lost peer is brought back exactly by the announcements of an incarnation
      that is neither the current one nor among the last eight displaced, and by
      later, consistent ones of the current incarnation. */
  lemma RevivesIff(e: Entry, taken: seq<Announcement>, p: Announcement, from: Address, now: nat, timeout: nat)
    requires ValidAnnouncement(p) && EntryOk(e, now, timeout) && Told(e, taken) && e.lost
    ensures Announced(e, p, from, now, timeout).taken <==> Revives(taken, p)
    ensures Announced(e, p, from, now, timeout).entry.lost <==> !Revives(taken, p)
  {
  }

  /** Live or lost, an announcement is taken exactly if it is one to take after the
      others and, until the timeout has passed since the last one, is of the same
      incarnation and comes from the same address. */
  lemma TakenIff(e: Entry, taken: seq<Announcement>, p: Announcement, from: Address, now: nat, timeout: nat)
    requires ValidAnnouncement(p) && EntryOk(e, now, timeout) && Told(e, taken)
    ensures Announced(e, p, from, now, timeout).taken <==>
      && Revives(taken, p)
      && (now - e.lastSeen >= timeout || (Claimed(p) == Claimed(Last(taken)) && from == e.address))
  {
  }

  /** The endpoint list is fetched again exactly if the entry was lost, or the
      incarnation, the address or the revision is another one. */
  lemma RefreshIff(e: Entry, taken: seq<Announcement>, p: Announcement, from: Address, now: nat, timeout: nat)
    requires ValidAnnouncement(p) && EntryOk(e, now, timeout) && Told(e, taken)
    requires Announced(e, p, from, now, timeout).taken
    ensures Announced(e, p, from, now, timeout).refresh <==>
      || e.lost || Claimed(p) != Claimed(Last(taken)) || from != e.address || p.revision != Last(taken).revision
  {
  }

  /** Everything taken is of the current incarnation or of a displaced one. */
  lemma {:induction false} TakenOrDisplaced(taken: seq<Announcement>, p: Announcement)
    requires p in taken
    ensures Claimed(p) == Claimed(Last(taken)) || Claimed(p) in Displaced(taken)
  {
    if |taken| > 1 && p != Last(taken) { TakenOrDisplaced(taken[..|taken| - 1], p); }
  }

  /** With at most eight changes no incarnation returns, so what was taken of the
      current one was taken in order. */
  lemma {:induction false} TakenInOrder(taken: seq<Announcement>, p: Announcement)
    requires Believable(taken) && |Displaced(taken)| <= RETIRED_MAX && p in taken && Claimed(p) == Claimed(Last(taken))
    ensures p.sequence <= Last(taken).sequence
  {
    if |taken| > 1 && p != Last(taken) {
      var front := taken[..|taken| - 1];
      assert p in front;
      TakenOrDisplaced(front, p);
      if Claimed(Last(taken)) == Claimed(Last(front)) { TakenInOrder(front, p); }
    }
  }

  /** While at most eight incarnations were displaced from the entry, nothing that
      was taken into it can bring it back. */
  lemma TakenNeverRevives(taken: seq<Announcement>, p: Announcement)
    requires Believable(taken) && |Displaced(taken)| <= RETIRED_MAX && p in taken
    ensures !Revives(taken, p)
  {
    TakenOrDisplaced(taken, p);
    if Claimed(p) == Claimed(Last(taken)) { TakenInOrder(taken, p); }
  }

  /** A host that was evicted to make room is forgotten altogether: any valid
      announcement of it, also a repeated one, is taken. */
  lemma ForgottenHostIsTaken(t: Table, p: Announcement, from: Address, now: nat, c: Config, u: Table)
    requires ValidAnnouncement(p) && TableOk(t, now, c) && AnnounceStep(t, p, from, now, c, u)
    requires Find(t.peers, p.host) == |t.peers| && !Full(t.peers, c.maxPeers)
    ensures Holds(u.peers, p.host, Claimed(p))
  {
    hide TableOk, MakesRoom, Full;
    var room :| MakesRoom(t.peers, c.maxPeers, room) && u == AnnounceNew(t, room, p, from, now, c.timeout);
    AnnouncedOk(EMPTY, p, from, now, c.timeout);
    hide Announced;
    assert (room + [EMPTY])[|room|] == EMPTY;
    assert u.peers[|room|].host == p.host;
  }

  const SOME_HOST: seq<byte> := [1, 0, 0, 0, 0, 0, 0, 0, 0, 0, 0, 0, 0, 0, 0, 0]

  function Hello(session: u64): Announcement
  {
    Announcement(SOME_HOST, SOME_HOST, session, 1, 1, 2, 0, 0)
  }

  /** n timeouts. */
  function Later(n: nat, timeout: nat): nat { if n == 0 then 0 else Later(n - 1, timeout) + timeout }

  /** The entry after sessions 1 to n were heard one timeout apart. */
  function After(n: nat, timeout: nat): Entry
    requires n <= 10
  {
    if n == 0 then EMPTY else Announced(After(n - 1, timeout), Hello(n), 0, Later(n, timeout), timeout).entry
  }

  function Hellos(n: nat): (s: seq<Announcement>)
    requires n <= 10
    ensures |s| == n && forall i :: 0 <= i < n ==> s[i] == Hello(i + 1)
  {
    if n == 0 then [] else Hellos(n - 1) + [Hello(n)]
  }

  lemma {:induction false} DisplacedHellos(n: nat)
    requires 1 <= n <= 10
    ensures |Displaced(Hellos(n))| == n - 1
    ensures forall i :: 0 <= i < n - 1 ==> Displaced(Hellos(n))[i] == Claimed(Hello(i + 1))
  {
    if n > 1 {
      DisplacedHellos(n - 1);
      DisplacedMore(Hellos(n - 1), Hello(n));
    }
  }

  lemma {:induction false} AfterIs(n: nat, timeout: nat)
    requires 1 <= n <= 10
    ensures var e := After(n, timeout);
      Told(e, Hellos(n)) && EntryOk(e, Later(n, timeout), timeout) && e.lastSeen == Later(n, timeout) && !e.lost
  {
    assert SOME_HOST[0] != 0;
    if n == 1 {
      assert After(0, timeout) == EMPTY;
      assert Hellos(1) == [Hello(1)];
      AnnouncedOk(EMPTY, Hello(1), 0, Later(1, timeout), timeout);
      FirstIsTold(Hello(1), 0, Later(1, timeout), timeout);
    } else {
      AfterIs(n - 1, timeout);
      NextSession(After(n - 1, timeout), n, Later(n, timeout), timeout);
    }
  }

  lemma HelloIsValid(n: u64)
    requires n > 0
    ensures ValidAnnouncement(Hello(n))
  {
    assert SOME_HOST[0] != 0;
  }

  lemma NewSession(e: Entry, p: Announcement, from: Address, now: nat, timeout: nat)
    requires ValidAnnouncement(p) && EntryOk(e, e.lastSeen, timeout) && !e.lost && now == e.lastSeen + timeout
    requires Claimed(p) != Current(e) && Claimed(p) !in e.retired
    ensures EntryOk(e, now, timeout)
    ensures var r := Announced(e, p, from, now, timeout);
      r.taken && EntryOk(r.entry, now, timeout) && r.entry.lastSeen == now && !r.entry.lost
  {
    AnnouncedOk(e, p, from, now, timeout);
  }

  lemma NextSession(e: Entry, n: nat, now: nat, timeout: nat)
    requires 2 <= n <= 10 && Told(e, Hellos(n - 1)) && EntryOk(e, e.lastSeen, timeout) && !e.lost
        && now == e.lastSeen + timeout
    ensures var f := Announced(e, Hello(n), 0, now, timeout).entry;
      Told(f, Hellos(n)) && EntryOk(f, now, timeout) && f.lastSeen == now && !f.lost
  {
    HelloIsValid(n);
    DisplacedHellos(n - 1);
    NewSession(e, Hello(n), 0, now, timeout);
    hide Announced, EntryOk, Told, ValidAnnouncement;
    TakenIsTold(e, Hellos(n - 1), Hello(n), 0, now, timeout);
  }

  /** So replays can revive: after ten sessions, when the tenth has timed out, a
      repeated announcement of the first is taken. */
  lemma OldReplayRevives(c: Config)
    ensures var e := After(10, c.timeout);
      var now := e.lastSeen + c.timeout;
      var lost := TickEntry(e, now, c);
      lost.lost && Hello(1) in Hellos(10) && Announced(lost, Hello(1), 0, now, c.timeout).taken
  {
    AfterIs(10, c.timeout);
    DisplacedHellos(10);
    HelloIsValid(1);
    hide After, Later, Displaced;
    var e := After(10, c.timeout);
    var now := e.lastSeen + c.timeout;
    assert Hellos(10)[0] == Hello(1);
    TimedOut(e, Hellos(10), now, c);
    hide Told, EntryOk, Announced, TickEntry, ValidAnnouncement;
    RevivesIff(TickEntry(e, now, c), Hellos(10), Hello(1), 0, now, c.timeout);
  }

  /** An entry whose time is over is lost, and keeps its history. */
  lemma TimedOut(e: Entry, taken: seq<Announcement>, now: nat, c: Config)
    requires EntryOk(e, e.lastSeen, c.timeout) && Told(e, taken) && !e.lost && now == e.lastSeen + c.timeout
    ensures var f := TickEntry(e, now, c); f.lost && EntryOk(f, now, c.timeout) && Told(f, taken)
  {
  }

  /** A table with one seat: whoever is heard first takes it, or takes it over from a
      host that is lost, and is lost itself after a timeout. */
  lemma OneSeat(t: Table, p: Announcement, now: nat, c: Config) returns (u: Table, v: Table)
    requires ValidAnnouncement(p) && c.maxPeers == 1 && |t.peers| <= 1
    requires |t.peers| == 1 ==> t.peers[0].lost && t.peers[0].host != p.host
    ensures AnnounceStep(t, p, 0, now, c, u) && TickStep(u, now + c.timeout, c, v)
    ensures |v.peers| == 1 && v.peers[0].lost && v.peers[0].host == p.host
    ensures EntryOk(v.peers[0], now + c.timeout, c.timeout) && Told(v.peers[0], [p])
  {
    if t.peers != [] {
      assert IsOldestLost(t.peers, 0) && [] == t.peers[..0] + t.peers[1..];
    }
    assert MakesRoom(t.peers, 1, []) && !Full(t.peers, 1);
    u := AnnounceNew(t, [], p, 0, now, c.timeout);
    NewEntry(t, p, now, c);
    hide AnnounceNew, Told, EntryOk;
    var e := u.peers[0];
    TimedOut(e, [p], now + c.timeout, c);
    v := u.(peers := [TickEntry(e, now + c.timeout, c)]);
  }

  lemma NewEntry(t: Table, p: Announcement, now: nat, c: Config)
    requires ValidAnnouncement(p)
    ensures var u := AnnounceNew(t, [], p, 0, now, c.timeout);
      && |u.peers| == 1 && u.peers[0].host == p.host && !u.peers[0].lost && u.peers[0].lastSeen == now
      && EntryOk(u.peers[0], now, c.timeout) && Told(u.peers[0], [p])
  {
    AnnouncedOk(EMPTY, p, 0, now, c.timeout);
    FirstIsTold(p, 0, now, c.timeout);
    assert [] + [EMPTY] == [EMPTY];
  }

  /** So can any that was taken into an entry that was evicted since, after a single
      change of session: p is heard and its host lost; another host takes the place and
      is lost; q, of another incarnation of the first host, is heard and lost; and p is
      heard again. */
  lemma EvictedReplayRevives(p: Announcement, other: Announcement, q: Announcement, c: Config)
      returns (t0: Table, t1: Table, t2: Table, t3: Table, t4: Table, t5: Table, t6: Table, t7: Table)
    requires ValidAnnouncement(p) && ValidAnnouncement(other) && ValidAnnouncement(q) && c.maxPeers == 1
    requires p.host == q.host != other.host && Claimed(p) != Claimed(q)
    ensures t0.peers == []
    ensures AnnounceStep(t0, p, 0, 0, c, t1) && TickStep(t1, c.timeout, c, t2)
    ensures AnnounceStep(t2, other, 0, c.timeout, c, t3) && TickStep(t3, c.timeout + c.timeout, c, t4)
    ensures AnnounceStep(t4, q, 0, c.timeout + c.timeout, c, t5)
    ensures TickStep(t5, c.timeout + c.timeout + c.timeout, c, t6)
    ensures AnnounceStep(t6, p, 0, c.timeout + c.timeout + c.timeout, c, t7)
    ensures |t6.peers| == |t7.peers| == 1 && t6.peers[0].lost && !t7.peers[0].lost
  {
    hide AnnounceStep, TickStep, EntryOk, Told, ValidAnnouncement;
    t0 := Table([], 0, true);
    t1, t2 := OneSeat(t0, p, 0, c);
    t3, t4 := OneSeat(t2, other, c.timeout, c);
    t5, t6 := OneSeat(t4, q, c.timeout + c.timeout, c);
    t7 := SeatRevived(t6, q, p, c.timeout + c.timeout + c.timeout, c);
  }

  lemma SeatRevived(t: Table, q: Announcement, p: Announcement, now: nat, c: Config) returns (u: Table)
    requires |t.peers| == 1 && t.peers[0].lost && t.peers[0].host == p.host && ValidAnnouncement(p)
    requires EntryOk(t.peers[0], now, c.timeout) && Told(t.peers[0], [q]) && Claimed(p) != Claimed(q)
    ensures AnnounceStep(t, p, 0, now, c, u) && |u.peers| == 1 && !u.peers[0].lost
  {
    assert Displaced([q]) == [];
    RevivesIff(t.peers[0], [q], p, 0, now, c.timeout);
    hide Told, EntryOk, Announced;
    assert Find(t.peers, p.host) == 0;
    u := AnnounceAt(t, 0, p, 0, now, c.timeout);
  }

  /** So can one that was refused when it first came: session 2 is heard while
      session 1 is alive, and again when that one is lost. */
  lemma RefusedReplayRevives(c: Config)
    requires c.timeout > 0
    ensures var e := After(1, c.timeout);
      var now := e.lastSeen + c.timeout;
      var lost := TickEntry(e, now, c);
      && !Announced(e, Hello(2), 0, e.lastSeen, c.timeout).taken
      && lost.lost && Announced(lost, Hello(2), 0, now, c.timeout).taken
  {
    AfterIs(1, c.timeout);
    var e := After(1, c.timeout);
    var now := e.lastSeen + c.timeout;
    assert SOME_HOST[0] != 0;
    RevivesIff(TickEntry(e, now, c), Hellos(1), Hello(2), 0, now, c.timeout);
  }
}
