/** The discovery object: the peer table updated in place, and the endpoint list
    this host publishes. */
module PeerDiscovery {
  import opened Wire
  import opened NetworkTypes
  import opened EndpointMetadata
  import opened PeerTable

  class Peers {
    const config: Config
    var peers: seq<Entry>
    var requestCounter: u64
    var running: bool

    ghost function State(): Table
      reads this
    {
      Table(peers, requestCounter, running)
    }

    ghost predicate Valid(now: nat)
      reads this
    {
      TableOk(State(), now, config) && config.maxPeers > 0
    }

    constructor (config: Config, now: nat)
      requires config.maxPeers > 0
      ensures Valid(now) && peers == [] && running && this.config == config
    {
      this.config := config;
      peers, requestCounter, running := [], 0, true;
    }

    method FindPeer(host: Host) returns (i: nat)
      ensures i == Find(peers, host)
    {
      i := 0;
      while i < |peers| && peers[i].host != host
        invariant i <= |peers| && forall k :: 0 <= k < i ==> peers[k].host != host
      {
        i := i + 1;
      }
    }

    /** The entry to evict, or the number of peers if none is lost. */
    method OldestLost() returns (oldest: nat)
      ensures oldest < |peers| ==> IsOldestLost(peers, oldest)
      ensures oldest >= |peers| ==> oldest == |peers| && forall k :: 0 <= k < |peers| ==> !peers[k].lost
    {
      oldest := |peers|;
      for i := 0 to |peers|
        invariant oldest < i || oldest == |peers|
        invariant oldest == |peers| ==> forall k :: 0 <= k < i ==> !peers[k].lost
        invariant oldest < |peers| ==> peers[oldest].lost
        invariant oldest < |peers| ==> forall k :: 0 <= k < i && peers[k].lost ==>
            peers[oldest].lastSeen <= peers[k].lastSeen
        invariant oldest < |peers| ==> forall k :: 0 <= k < oldest && peers[k].lost ==>
            peers[oldest].lastSeen < peers[k].lastSeen
      {
        if peers[i].lost && (oldest == |peers| || peers[i].lastSeen < peers[oldest].lastSeen) { oldest := i; }
      }
    }

    method BeginMetadataAt(i: nat)
      requires i < |peers|
      modifies this
      ensures State() == BeginMetadata(old(State()), i)
    {
      peers := peers[i := peers[i].(ready := false, endpoints := [], staging := [])];
      if requestCounter == U64_MAX {
        running := false;
        return;
      }
      requestCounter := requestCounter + 1;
      peers := peers[i := peers[i].(requestId := requestCounter, nextRequest := 0)];
    }

    method AnnounceTo(i: nat, p: Announcement, from: Address, now: nat)
      requires i < |peers|
      modifies this
      ensures State() == AnnounceAt(old(State()), i, p, from, now, config.timeout)
    {
      hide BeginMetadata;
      var e := peers[i];
      var changed := e.session != 0 && (e.session != p.session || e.boot != p.boot);
      if e.session != 0 && !changed && e.profile != p.profile { return; }
      if changed {
        if now - e.lastSeen < config.timeout { return; }
        if Incarnation(p.boot, p.session) in e.retired { return; }
        var retired := e.retired + [Incarnation(e.boot, e.session)];
        if |retired| > RETIRED_MAX { retired := retired[1..]; }
        e := e.(retired := retired, sequence := 0, revision := 0, nextResponse := 0);
        peers := peers[i := e];
      }
      if p.sequence <= e.sequence || p.revision < e.revision { return; }
      if e.sequence != 0 && p.revision == e.revision && (e.size != p.size || e.count != p.count) { return; }
      var moved := e.sequence != 0 && e.address != from;
      if moved && now - e.lastSeen < config.timeout { return; }
      var refresh := e.session == 0 || changed || moved || e.lost || p.revision != e.revision;
      e := e.(profile := p.profile, host := p.host, boot := p.boot, session := p.session, lastSeen := now,
          lost := false,
              revision := p.revision, address := from, sequence := p.sequence, size := p.size, count := p.count);
      peers := peers[i := e];
      assert peers == old(peers)[i := e];
      if refresh { BeginMetadataAt(i); }
    }

    /** An empty entry at the end, if there is room or a lost peer to forget. */
    method NewPeer() returns (ok: bool)
      requires |peers| <= config.maxPeers
      modifies this`peers
      ensures !ok ==> peers == old(peers) && Full(peers, config.maxPeers)
      ensures ok ==> |peers| > 0 && peers[|peers| - 1] == EMPTY && !Full(old(peers), config.maxPeers)
                     && MakesRoom(old(peers), config.maxPeers, peers[..|peers| - 1])
    {
      ghost var before := peers;
      if |peers| == config.maxPeers {
        var oldest := OldestLost();
        if oldest == |peers| { return false; }
        peers := peers[..oldest] + peers[oldest + 1..];
        assert peers == before[..oldest] + before[oldest + 1..];
      }
      ghost var room := peers;
      peers := peers + [EMPTY];
      assert peers[..|peers| - 1] == room;
      return true;
    }

    method Announce(p: Announcement, from: Address, now: nat)
      requires ValidAnnouncement(p) && Valid(now)
      modifies this
      ensures AnnounceStep(old(State()), p, from, now, config, State()) && Valid(now)
    {
      hide EntryOk, AnnounceAt, MakesRoom, Full, OnePerHost;
      var i := FindPeer(p.host);
      ghost var before := State();
      if i == |peers| {
        var ok := NewPeer();
        if !ok { return; }
        i := |peers| - 1;
        ghost var room := peers[..i];
        assert peers == room + [EMPTY];
        AnnounceTo(i, p, from, now);
        assert State() == AnnounceNew(before, room, p, from, now, config.timeout);
      } else {
        AnnounceTo(i, p, from, now);
      }
      AnnounceKeeps(before, p, from, now, config, State());
    }

    /** A metadata response arriving on the unicast socket. */
    method ReceiveResponse(p: Response, from: Address, now: nat)
      requires ValidResponse(p) && Valid(now)
      modifies this
      ensures State() == Respond(old(State()), p, from, now, config) && Valid(now)
    {
      RespondKeeps(State(), p, from, now, config);
      if p.host == config.host { return; }
      var i := FindPeer(p.host);
      if i == |peers| { return; }
      RespondTo(i, p, from, now);
    }

    method RespondTo(i: nat, p: Response, from: Address, now: nat)
      requires i < |peers|
      modifies this
      ensures State() == RespondAt(old(State()), i, p, from, now, config.retry)
    {
      hide DecodeList, ValidList;
      var e := peers[i];
      if e.lost || e.boot != p.boot || e.session != p.session || e.address != from { return; }
      if e.ready || p.requestId != e.requestId || p.revision != e.revision || p.size != e.size
          || p.offset != |e.staging| { return; }
      e := e.(staging := e.staging + p.chunk);
      peers := peers[i := e];
      if |e.staging| == e.size {
        var decoded := DecodeList(e.staging);
        if decoded.Err? || |decoded.value| != e.count || !ValidList(decoded.value, p.host, p.boot) {
          BeginMetadataAt(i);
          peers := peers[i := peers[i].(nextRequest := now + config.retry)];
          return;
        }
        peers := peers[i := e.(endpoints := decoded.value, ready := true, staging := [])];
      } else {
        peers := peers[i := e.(nextRequest := 0)];
      }
    }

    /** Losing silent peers and scheduling metadata requests. */
    method Tick(before: nat, now: nat)
      requires Valid(before) && before <= now
      modifies this
      ensures TickStep(old(State()), now, config, State()) && Valid(now)
    {
      ghost var was := State();
      for i := 0 to |peers|
        invariant |peers| == |was.peers| && requestCounter == was.counter && running == was.running
        invariant forall k :: 0 <= k < i ==> peers[k] == TickEntry(was.peers[k], now, config)
        invariant forall k :: i <= k < |peers| ==> peers[k] == was.peers[k]
      {
        var e := peers[i];
        if !e.lost && now - e.lastSeen >= config.timeout {
          e := e.(lost := true, ready := false, endpoints := [], staging := []);
        }
        if !e.lost && !e.ready && now >= e.nextRequest { e := e.(nextRequest := now + config.retry); }
        peers := peers[i := e];
      }
      TickKeeps(was, before, now, config, State());
    }
  }

  // ---------------------------------------------------------------------
  // The publishing side
  // ---------------------------------------------------------------------

  /** A request that passed the packet decoder. */
  datatype Request = Request(requestId: u64, revision: u64, offset: u32)

  predicate ValidRequest(p: Request) { p.requestId != 0 && p.revision != 0 && p.offset % CHUNK_SIZE == 0 }

  class Publisher {
    const host: Host
    const boot: Host
    const session: u64
    var base: seq<Metadata>
    var consumers: seq<Metadata>
    var metadata: seq<byte>
    var endpointCount: nat
    var revision: u64
    var sequence: u64
    var running: bool
    /** The list published under each revision; revisions start at 1. */
    ghost var published: seq<seq<Metadata>>

    ghost predicate Valid()
      reads this
    {
      && session != 0 && ValidList(base + consumers, host, boot) && EncodeList(base + consumers) == Ok(metadata)
      && endpointCount == |base + consumers| <= MAX_ENDPOINTS && 2 <= |metadata| <= MAX_METADATA
      && revision == |published| && revision > 0 && published[revision - 1] == base + consumers
    }

    /** Start, once the list has been found valid and small enough. */
    constructor (host: Host, boot: Host, session: u64, endpoints: seq<Metadata>)
      requires session != 0 && ValidList(endpoints, host, boot) && EncodeList(endpoints).Ok?
      ensures Valid() && published == [endpoints] && running && sequence == 0
      ensures this.host == host && this.boot == boot && this.session == session
    {
      hide EncodeList, ValidList;
      this.host, this.boot, this.session := host, boot, session;
      base, consumers, metadata, endpointCount := endpoints, [], EncodeList(endpoints).value, |endpoints|;
      revision, sequence, running, published := 1, 0, true, [endpoints];
      new;
      EncodedSize(endpoints);
      assert base + consumers == endpoints;
    }

    /** An endpoint list replaces the published one. */
    method UpdateMetadata(endpoints: seq<Metadata>) returns (error: Option<Errno>)
      requires Valid()
      modifies this`base, this`metadata, this`endpointCount, this`revision, this`published
      ensures Valid()
      ensures error.None? ==>
          base == endpoints && (published == old(published) || published == old(published) + [endpoints + consumers])
      ensures error.Some? ==> base == old(base) && metadata == old(metadata) && published == old(published)
      ensures error.None? <==>
        && running && ValidList(endpoints, host, boot) && ValidList(endpoints + consumers, host, boot)
        && EncodeList(endpoints + consumers).Ok?
        && (endpoints == old(base) || old(revision) != U64_MAX)
    {
      hide ValidList, EncodeList;
      if endpoints + consumers == base + consumers { SameFront(endpoints, base, consumers); }
      if !running { return Some(ENOTCONN); }
      if !ValidList(endpoints, host, boot) { return Some(EINVAL); }
      var all := endpoints + consumers;
      if !ValidList(all, host, boot) { return Some(EINVAL); }
      var bytes := EncodeList(all);
      if bytes.Err? { return Some(bytes.error); }
      if bytes.value == metadata {
        EncodesOne(all, base + consumers);
        return None;
      }
      if revision == U64_MAX { return Some(EOVERFLOW); }
      EncodedSize(all);
      metadata, base, endpointCount, revision := bytes.value, endpoints, |all|, revision + 1;
      published := published + [all];
      return None;
    }

    method RegisterConsumer(session: u64, endpoint: Metadata) returns (error: Option<Errno>)
      requires Valid()
      modifies this`consumers, this`metadata, this`endpointCount, this`revision, this`published
      ensures Valid()
      ensures error.None? ==>
          consumers == old(consumers) + [endpoint] && published == old(published) + [base + consumers]
      ensures error.Some? ==> consumers == old(consumers) && metadata == old(metadata) && published == old(published)
      ensures error.None? <==>
        && running && this.session == session
        && endpoint.kind == TOPIC && endpoint.role == CONSUMER && endpoint.scope == REMOTE && |old(consumers)| < 64
        && ValidList(base + (old(consumers) + [endpoint]), host, boot)
        && EncodeList(base + (old(consumers) + [endpoint])).Ok? && old(revision) != U64_MAX
    {
      hide ValidList, EncodeList;
      if !running || this.session != session { return Some(ESTALE); }
      if endpoint.kind != TOPIC || endpoint.role != CONSUMER || endpoint.scope != REMOTE { return Some(EINVAL); }
      if |consumers| >= 64 { return Some(ENOSPC); }
      var all := base + consumers + [endpoint];
      assert all == base + (consumers + [endpoint]);
      if !ValidList(all, host, boot) { return Some(EINVAL); }
      var bytes := EncodeList(all);
      if bytes.Err? { return Some(bytes.error); }
      if revision == U64_MAX { return Some(EOVERFLOW); }
      EncodedSize(all);
      consumers, metadata, endpointCount, revision := consumers + [endpoint], bytes.value, |all|, revision + 1;
      published := published + [all];
      return None;
    }

    method FindConsumer(endpoint: Endpoint) returns (i: nat)
      ensures i <= |consumers| && (i < |consumers| ==> consumers[i].identity == endpoint)
      ensures forall k :: 0 <= k < i ==> consumers[k].identity != endpoint
    {
      i := 0;
      while i < |consumers| && consumers[i].identity != endpoint
        invariant i <= |consumers| && forall k :: 0 <= k < i ==> consumers[k].identity != endpoint
      {
        i := i + 1;
      }
    }

    method UnregisterConsumer(session: u64, endpoint: Endpoint) returns (error: Option<Errno>)
      requires Valid()
      modifies this`consumers, this`metadata, this`endpointCount, this`revision, this`published
      ensures Valid()
      ensures error.None? ==>
        && published == old(published) + [base + consumers]
        && exists i :: 0 <= i < |old(consumers)| && old(consumers)[i].identity == endpoint
             && (forall k :: 0 <= k < i ==> old(consumers)[k].identity != endpoint)
             && consumers == old(consumers)[..i] + old(consumers)[i + 1..]
      ensures error.Some? ==> consumers == old(consumers) && metadata == old(metadata) && published == old(published)
      ensures error.None? <==>
        && running && this.session == session && old(revision) != U64_MAX
        && exists i :: 0 <= i < |old(consumers)| && old(consumers)[i].identity == endpoint
    {
      hide EncodeList, ValidList;
      if !running || this.session != session { return Some(ESTALE); }
      var i := FindConsumer(endpoint);
      if i == |consumers| { return Some(ENOENT); }
      assert consumers[i].identity == endpoint;
      var next := consumers[..i] + consumers[i + 1..];
      var all := base + next;
      WithoutOne(base, consumers, i, host, boot);
      var bytes := EncodeList(all);
      error := Failure(bytes);
      if error.Some? { return; }
      if revision == U64_MAX { return Some(EOVERFLOW); }
      EncodedSize(all);
      consumers, metadata, endpointCount, revision := next, bytes.value, |all|, revision + 1;
      published := published + [all];
      return None;
    }

    /** What is announced describes the list of the current revision. */
    method MakeAnnouncement(profile: nat) returns (p: Option<Announcement>)
      requires Valid()
      modifies this`sequence
      ensures p.None? <==> old(sequence) == U64_MAX
      ensures p.Some? ==>
        && sequence == old(sequence) + 1 && p.value.host == host && p.value.boot == boot && p.value.session == session
        && p.value.sequence == sequence && p.value.revision == revision == |published| > 0
        && p.value.size == |metadata| && p.value.count == |published[|published| - 1]| && p.value.profile == profile
        && ValidAnnouncement(p.value) && EncodeList(published[|published| - 1]) == Ok(metadata)
    {
      hide EncodeList, ValidMetadata;
      if sequence == U64_MAX { return None; }
      sequence := sequence + 1;
      return Some(Announcement(host, boot, session, sequence, revision, |metadata|, endpointCount, profile));
    }

    /** A piece of the current list, for a request that asks for it. */
    method Answer(p: Request, now: nat, notBefore: nat) returns (r: Option<Response>)
      requires Valid() && ValidRequest(p)
      ensures r.Some? <==> p.revision == revision && p.offset < |metadata| && now >= notBefore
      ensures r.Some? ==>
        && r.value.host == host && r.value.boot == boot && r.value.session == session
        && r.value.requestId == p.requestId && r.value.offset == p.offset
        && r.value.revision == revision && r.value.size == |metadata| && ValidResponse(r.value)
        && EncodeList(published[revision - 1]) == Ok(metadata)
        && r.value.offset + |r.value.chunk| <= |metadata|
        && r.value.chunk == metadata[r.value.offset..r.value.offset + |r.value.chunk|]
    {
      hide EncodeList, ValidMetadata;
      if p.revision != revision || p.offset >= |metadata| || now < notBefore { return None; }
      var length := if |metadata| - p.offset < CHUNK_SIZE then |metadata| - p.offset else CHUNK_SIZE;
      return Some(Response(host, boot, session, p.requestId, revision, p.offset, |metadata|,
          metadata[p.offset..p.offset + length]));
    }
  }

  function Failure(r: Result<seq<byte>>): Option<Errno> {
    match r
    case Ok(_) => None
    case Err(e) => Some(e)
  }

  lemma SameFront(a: seq<Metadata>, b: seq<Metadata>, tail: seq<Metadata>)
    requires a + tail == b + tail
    ensures a == b
  {
    assert |a| == |b|;
    assert (a + tail)[..|a|] == a && (b + tail)[..|b|] == b;
  }

  /** The codec is injective: equal bytes, equal lists. */
  lemma EncodesOne(a: seq<Metadata>, b: seq<Metadata>)
    requires EncodeList(a).Ok? && EncodeList(a) == EncodeList(b)
    ensures a == b
  {
    hide EncodeList;
    DecodeOfEncode(a);
    DecodeOfEncode(b);
  }

  lemma EncodedSize(list: seq<Metadata>)
    requires EncodeList(list).Ok?
    ensures 2 <= |EncodeList(list).value| <= MAX_METADATA && |list| <= MAX_ENDPOINTS
  {
    EncodeListIs(list);
    One(2);
  }

  lemma WithoutOne(base: seq<Metadata>, consumers: seq<Metadata>, i: nat, host: Host, boot: Host)
    requires i < |consumers| && ValidList(base + consumers, host, boot) && EncodeList(base + consumers).Ok?
    ensures ValidList(base + (consumers[..i] + consumers[i + 1..]), host, boot)
    ensures EncodeList(base + (consumers[..i] + consumers[i + 1..])).Ok?
  {
    hide ValidMetadata, EncodeList;
    var all, less := base + consumers, base + (consumers[..i] + consumers[i + 1..]);
    FewerEncode(all, |base| + i);
    assert all[..|base| + i] + all[|base| + i + 1..] == less;
    assert forall k :: 0 <= k < |less| ==> less[k] == all[if k < |base| + i then k else k + 1];
  }
}
