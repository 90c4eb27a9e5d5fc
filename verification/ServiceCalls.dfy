/** Local services: the server remembers its last 64 answers and repeats them, so
    that a client that retries over a lossy socket gets one execution's output. */
module ServiceCalls {
  import opened Wire

  const CACHE := 64

  /** The sender's address and port, the client, the request and the service. */
  datatype Key = Key(port: nat, client: u64, request: u64, service: u16)

  datatype Request = Request(key: Key, data: nat)

  /** A handler's output, or a framework error. */
  datatype Body = Output(value: nat) | Failure(error: Errno)

  datatype Response = Response(key: Key, body: Body)

  datatype Cached = Cached(request: Request, body: Body)

  /** The ring, its write position, and everything handled since the start. */
  datatype Server = Server(cache: seq<Option<Cached>>, next: nat, handled: seq<Cached>)

  function Start(): Server { Server(seq(CACHE, _ => None), 0, []) }

  // ---------------------------------------------------------------------
  // Handling one request
  // ---------------------------------------------------------------------

  predicate Matches(c: Option<Cached>, key: Key) { c.Some? && c.value.request.key == key }

  /** The first matching entry, or the size of the cache. */
  function Lookup(cache: seq<Option<Cached>>, key: Key): (i: nat)
    ensures i <= |cache| && (i < |cache| ==> Matches(cache[i], key)) && forall k :: 0 <= k < i ==>
        !Matches(cache[k], key)
  {
    if cache == [] then 0 else if Matches(cache[0], key) then 0 else 1 + Lookup(cache[1..], key)
  }

  /** `outcome` is what the handler, or its absence, makes of the request now. */
  function Handle(s: Server, r: Request, outcome: Body): (Server, Response)
    requires |s.cache| == CACHE && s.next < CACHE
  {
    var i := Lookup(s.cache, r.key);
    if i < CACHE then
      (s, Response(r.key, if s.cache[i].value.request == r then s.cache[i].value.body else Failure(EINVAL)))
    else
      var entry := Cached(r, outcome);
      (Server(s.cache[s.next := Some(entry)], (s.next + 1) % CACHE, s.handled + [entry]), Response(r.key, outcome))
  }

  predicate Runs(s: Server, r: Request) { Lookup(s.cache, r.key) == |s.cache| }

  // ---------------------------------------------------------------------
  // The ring
  // ---------------------------------------------------------------------

  /** Entry j of the history is among the last 64. */
  predicate Recent(s: Server, j: int) { 0 <= j < |s.handled| && |s.handled| - CACHE <= j }

  /** The ring holds exactly the last 64 handled requests. */
  ghost predicate RingOk(s: Server) {
    && |s.cache| == CACHE && s.next == |s.handled| % CACHE
    && (forall j :: Recent(s, j) ==> s.cache[j % CACHE] == Some(s.handled[j]))
    && (forall i :: |s.handled| <= i < CACHE ==> s.cache[i] == None)
  }

  /** A key is handled again only after at least 64 others. */
  ghost predicate Separated(handled: seq<Cached>) {
    forall j, k :: 0 <= j < k < |handled| && handled[j].request.key == handled[k].request.key ==> k - j > CACHE
  }

  ghost predicate Inv(s: Server) { RingOk(s) && Separated(s.handled) }

  /** Which history entry a ring slot holds. */
  lemma SlotHolds(s: Server, i: nat) returns (j: int)
    requires RingOk(s) && i < CACHE && s.cache[i].Some?
    ensures Recent(s, j) && j % CACHE == i && s.cache[i] == Some(s.handled[j])
  {
    var n := |s.handled|;
    j := if i < n % CACHE then n - n % CACHE + i else n - n % CACHE + i - CACHE;
    assert i < n || n >= CACHE;
    assert j % CACHE == i && Recent(s, j);
  }

  /** A request is found exactly if it is among the last 64 handled. */
  lemma FoundIff(s: Server, key: Key)
    requires RingOk(s)
    ensures Lookup(s.cache, key) < CACHE <==> exists j :: Recent(s, j) && s.handled[j].request.key == key
  {
    var i := Lookup(s.cache, key);
    if i < CACHE {
      var j := SlotHolds(s, i);
    }
    if j :| Recent(s, j) && s.handled[j].request.key == key {
      assert Matches(s.cache[j % CACHE], key);
    }
  }

  lemma RunKeepsRing(s: Server, r: Request, outcome: Body)
    requires RingOk(s) && Runs(s, r)
    ensures RingOk(Handle(s, r, outcome).0)
  {
    hide Lookup;
    var s', n := Handle(s, r, outcome).0, |s.handled|;
    forall j | Recent(s', j) ensures s'.cache[j % CACHE] == Some(s'.handled[j]) {
      if j < n {
        assert Recent(s, j);
        Apart(j, n);
      }
    }
    forall i | n + 1 <= i < CACHE ensures s'.cache[i] == None { assert s.cache[i] == None; }
  }

  lemma Apart(j: nat, n: nat)
    requires j < n < j + CACHE
    ensures j % CACHE != n % CACHE
  {
  }

  /** Handling keeps the ring, and distinct keys within its reach. */
  lemma HandleKeeps(s: Server, r: Request, outcome: Body)
    requires Inv(s)
    ensures Inv(Handle(s, r, outcome).0)
  {
    if Runs(s, r) {
      RunKeepsRing(s, r, outcome);
      FoundIff(s, r.key);
      var s' := Handle(s, r, outcome).0;
      forall j, k | 0 <= j < k < |s'.handled|
          && s'.handled[j].request.key == s'.handled[k].request.key ensures k - j > CACHE {
        if k == |s.handled| { assert !Recent(s, j); }
      }
    }
  }

  /** What handling means, by the requests handled before: one whose key is among the
      last 64 is answered from the run for that key, if it is the same request, and
      nothing runs; any other one runs, and its answer is what its handler gave. */
  lemma HandleIs(s: Server, r: Request, outcome: Body)
    requires Inv(s)
    ensures var (s', answer) := Handle(s, r, outcome);
      && (forall j :: Recent(s, j) && s.handled[j].request.key == r.key ==>
            var c := s.handled[j];
            s' == s && answer == Response(r.key, if c.request == r then c.body else Failure(EINVAL)))
      && ((forall j :: Recent(s, j) ==> s.handled[j].request.key != r.key) ==>
            s'.handled == s.handled + [Cached(r, outcome)] && answer == Response(r.key, outcome))
  {
    FoundIff(s, r.key);
    var i := Lookup(s.cache, r.key);
    if i < CACHE {
      var at := SlotHolds(s, i);
      forall j | Recent(s, j) && s.handled[j].request.key == r.key ensures j == at {
        assert j < at ==> at - j > CACHE;
        assert at < j ==> j - at > CACHE;
      }
    }
    hide Lookup, RingOk;
  }

  /** Cached keys are distinct. */
  lemma CachedDistinct(s: Server, i: nat, k: nat)
    requires Inv(s) && i < k < CACHE && s.cache[i].Some? && s.cache[k].Some?
    ensures s.cache[i].value.request.key != s.cache[k].value.request.key
  {
    var a := SlotHolds(s, i);
    var b := SlotHolds(s, k);
  }

  // ---------------------------------------------------------------------
  // Over a lossy socket
  // ---------------------------------------------------------------------

  /** Every request and every response ever sent; datagrams may be lost, repeated
      and reordered. */
  datatype World = World(server: Server, requests: set<Request>, responses: set<Response>)

  /** A client uses a key for one request only. */
  predicate MaySend(w: World, r: Request) { forall q :: q in w.requests && q.key == r.key ==> q == r }

  ghost predicate Next(w: World, w': World) {
    || (exists r :: MaySend(w, r) && w' == w.(requests := w.requests + {r}))
    || (exists r, outcome :: r in w.requests && Served(w, w', r, outcome))
  }

  ghost predicate Served(w: World, w': World, r: Request, outcome: Body) {
    |w.server.cache| == CACHE && w.server.next < CACHE
    && var (s', answer) := Handle(w.server, r, outcome); w' == w.(server := s', responses := w.responses + {answer})
  }

  /** The answer was computed by some run for that key. */
  ghost predicate FromRun(handled: seq<Cached>, a: Response) {
    exists j :: 0 <= j < |handled| && handled[j].request.key == a.key && handled[j].body == a.body
  }

  ghost predicate WorldOk(w: World) {
    && Inv(w.server)
    && (forall q, r :: q in w.requests && r in w.requests && q.key == r.key ==> q == r)
    && (forall j :: 0 <= j < |w.server.handled| ==> w.server.handled[j].request in w.requests)
    && forall a :: a in w.responses ==> FromRun(w.server.handled, a)
  }

  lemma ServedKeeps(w: World, w': World, r: Request, outcome: Body)
    requires WorldOk(w) && r in w.requests && Served(w, w', r, outcome)
    ensures WorldOk(w')
  {
    HandleKeeps(w.server, r, outcome);
    var (s', answer) := Handle(w.server, r, outcome);
    hide Inv;
    forall a | a in w'.responses ensures FromRun(s'.handled, a) {
      if a in w.responses {
        var j :| 0 <= j < |w.server.handled| && w.server.handled[j].request.key == a.key
            && w.server.handled[j].body == a.body;
        assert s'.handled[j] == w.server.handled[j];
      } else {
        AnswerIsFromRun(w, r, outcome);
      }
    }
  }

  lemma AnswerIsFromRun(w: World, r: Request, outcome: Body)
    requires WorldOk(w) && r in w.requests
    ensures FromRun(Handle(w.server, r, outcome).0.handled, Handle(w.server, r, outcome).1)
  {
    var (s', answer) := Handle(w.server, r, outcome);
    if Runs(w.server, r) {
      assert s'.handled[|w.server.handled|].body == outcome;
    } else {
      var i := Lookup(w.server.cache, r.key);
      var j := SlotHolds(w.server, i);
      assert w.server.handled[j].request in w.requests;
    }
  }

  lemma NextKeeps(w: World, w': World)
    requires WorldOk(w) && Next(w, w')
    ensures WorldOk(w')
  {
    hide Inv, FromRun, Served;
    if r :| MaySend(w, r) && w' == w.(requests := w.requests + {r}) {
    } else {
      var r, outcome :| r in w.requests && Served(w, w', r, outcome);
      ServedKeeps(w, w', r, outcome);
    }
  }

  ghost predicate IsRun(run: seq<World>) {
    && |run| > 0 && run[0] == World(Start(), {}, {})
    && forall i :: 0 < i < |run| ==> Next(run[i - 1], run[i])
  }

  lemma {:induction false} RunKeeps(run: seq<World>, i: nat)
    requires IsRun(run) && i < |run|
    ensures WorldOk(run[i])
  {
    if i > 0 {
      hide Next, WorldOk;
      RunKeeps(run, i - 1);
      NextKeeps(run[i - 1], run[i]);
    }
  }

  /** In every run a key is handled again only after at least 64 others, and every
      answer is one that a run for its key computed. */
  lemma RerunsAreFarApart(run: seq<World>, i: nat)
    requires IsRun(run) && i < |run|
    ensures Separated(run[i].server.handled)
    ensures forall a :: a in run[i].responses ==> FromRun(run[i].server.handled, a)
  {
    RunKeeps(run, i);
  }

  /** So while at most 64 requests were handled after the first run for a key, every
      answer to it, repeated or late, is the answer of that run. */
  lemma AtMostOnce(run: seq<World>, i: nat, a: Response, j: nat)
    requires IsRun(run) && i < |run| && a in run[i].responses
    requires j < |run[i].server.handled| <= j + 1 + CACHE && run[i].server.handled[j].request.key == a.key
    requires forall k :: 0 <= k < j ==> run[i].server.handled[k].request.key != a.key
    ensures a.body == run[i].server.handled[j].body
  {
    RerunsAreFarApart(run, i);
    var h := run[i].server.handled;
    var k :| 0 <= k < |h| && h[k].request.key == a.key && h[k].body == a.body;
    assert j < k ==> k - j > CACHE;
  }

  /** What happens in a step: a client sends, or the server takes a request, for which
      its handler would give this outcome. */
  datatype Step = Sending(sent: Request) | Serving(taken: Request, outcome: Body)

  ghost predicate Does(w: World, s: Step, w': World) {
    match s
    case Sending(r) => MaySend(w, r) && w' == w.(requests := w.requests + {r})
    case Serving(r, outcome) => r in w.requests && Served(w, w', r, outcome)
  }

  ghost predicate IsLabelled(run: seq<World>, steps: seq<Step>) {
    && |run| == |steps| + 1 && run[0] == World(Start(), {}, {})
    && forall i :: 0 <= i < |steps| ==> Does(run[i], steps[i], run[i + 1])
  }

  lemma LabelledIsRun(run: seq<World>, steps: seq<Step>)
    requires IsLabelled(run, steps)
    ensures IsRun(run)
  {
    hide Served;
    forall i | 0 < i < |run| ensures Next(run[i - 1], run[i]) { assert Does(run[i - 1], steps[i - 1], run[i - 1 + 1]); }
  }

  /** Step k is an execution: its handler was called, and gave this. */
  predicate Executes(run: seq<World>, steps: seq<Step>, k: nat, c: Cached)
    requires |run| == |steps| + 1
  {
    k < |steps| && steps[k] == Serving(c.request, c.body) && run[k + 1].server.handled == run[k].server.handled + [c]
  }

  /** In every run: what was handled is what handlers gave, one step each. */
  lemma {:induction false} HandledAreOutcomes(run: seq<World>, steps: seq<Step>, n: nat, j: nat) returns (k: nat)
    requires IsLabelled(run, steps) && n < |run| && j < |run[n].server.handled|
    ensures k < n && Executes(run, steps, k, run[n].server.handled[j]) && |run[k].server.handled| == j
  {
    hide Handle, Inv;
    var w, s := run[n - 1], steps[n - 1];
    assert Does(w, s, run[n - 1 + 1]);
    if j < |w.server.handled| {
      if s.Serving? { HandledGrows(run, steps, n - 1); }
      k := HandledAreOutcomes(run, steps, n - 1, j);
    } else {
      HandledGrows(run, steps, n - 1);
      k := n - 1;
    }
  }

  lemma HandledGrows(run: seq<World>, steps: seq<Step>, n: nat)
    requires IsLabelled(run, steps) && n < |steps| && steps[n].Serving?
    ensures var h, h' := run[n].server.handled, run[n + 1].server.handled;
      h' == h || Executes(run, steps, n, Cached(steps[n].taken, steps[n].outcome))
  {
    LabelledIsRun(run, steps);
    RunKeeps(run, n);
    assert Does(run[n], steps[n], run[n + 1]);
    HandleIs(run[n].server, steps[n].taken, steps[n].outcome);
    hide IsLabelled, IsRun, Handle, Inv;
  }

  /** In every run: a request that the server takes is answered from its earlier run if
      that is among the last 64, and otherwise by its handler, which is then called. */
  lemma AnswerIs(run: seq<World>, steps: seq<Step>, n: nat)
    requires IsLabelled(run, steps) && n < |steps| && steps[n].Serving?
    ensures var w, w', r := run[n], run[n + 1], steps[n].taken;
      && (forall j :: Recent(w.server, j) && w.server.handled[j].request.key == r.key ==>
            && w.server.handled[j].request == r && w'.server.handled == w.server.handled
            && w'.responses == w.responses + {Response(r.key, w.server.handled[j].body)})
      && ((forall j :: Recent(w.server, j) ==> w.server.handled[j].request.key != r.key) ==>
            && Executes(run, steps, n, Cached(r, steps[n].outcome))
            && w'.responses == w.responses + {Response(r.key, steps[n].outcome)})
  {
    LabelledIsRun(run, steps);
    RunKeeps(run, n);
    assert Does(run[n], steps[n], run[n + 1]);
    HandleIs(run[n].server, steps[n].taken, steps[n].outcome);
    var w, r := run[n], steps[n].taken;
    assert forall j :: Recent(w.server, j) ==> w.server.handled[j].request in w.requests;
    hide IsLabelled, IsRun, Handle, Inv;
  }

  // ---------------------------------------------------------------------
  // Numbered calls
  // ---------------------------------------------------------------------

  /** A client object, by the port of its socket and its number. */
  datatype Caller = Caller(port: nat, client: u64)

  function CallerOf(r: Request): Caller { Caller(r.key.port, r.key.client) }

  function CounterOf(counters: map<Caller, u64>, c: Caller): u64 { if c in counters then counters[c] else 0 }

  /** A call takes the next request id of its client, as CallRaw does. */
  predicate IsCall(counters: map<Caller, u64>, r: Request) { r.key.request == CounterOf(counters, CallerOf(r)) + 1 }

  ghost predicate Numbered(w: World, counters: map<Caller, u64>) {
    forall q :: q in w.requests ==> q.key.request <= CounterOf(counters, CallerOf(q))
  }

  predicate Calls(w: World, counters: map<Caller, u64>, r: Request, w': World, counters': map<Caller, u64>) {
    && IsCall(counters, r) && w' == w.(requests := w.requests + {r})
    && counters' == counters[CallerOf(r) := r.key.request]
  }

  ghost predicate CallNext(w: World, counters: map<Caller, u64>, w': World, counters': map<Caller, u64>) {
    || (exists r :: Calls(w, counters, r, w', counters'))
    || (counters' == counters && exists r, outcome :: r in w.requests && Served(w, w', r, outcome))
  }

  /** Clients that number their calls never use a key twice. */
  lemma CallsMaySend(w: World, counters: map<Caller, u64>, w': World, counters': map<Caller, u64>)
    requires Numbered(w, counters) && CallNext(w, counters, w', counters')
    ensures Next(w, w') && Numbered(w', counters')
  {
    hide Served;
    if r :| Calls(w, counters, r, w', counters') {
      assert MaySend(w, r);
    } else {
      var r, outcome :| r in w.requests && Served(w, w', r, outcome);
      SameRequests(w, w', r, outcome);
    }
  }

  lemma SameRequests(w: World, w': World, r: Request, outcome: Body)
    requires Served(w, w', r, outcome)
    ensures w'.requests == w.requests
  {
  }

  ghost predicate IsCallRun(run: seq<World>, counters: seq<map<Caller, u64>>) {
    && |run| == |counters| > 0 && run[0] == World(Start(), {}, {}) && counters[0] == map[]
    && forall i :: 0 < i < |run| ==> CallNext(run[i - 1], counters[i - 1], run[i], counters[i])
  }

  /** So every run of such clients is one of the runs above. */
  lemma {:induction false} CallRunIsRun(run: seq<World>, counters: seq<map<Caller, u64>>, n: nat)
    requires IsCallRun(run, counters) && 0 < n <= |run|
    ensures IsRun(run[..n]) && Numbered(run[n - 1], counters[n - 1])
  {
    hide CallNext, Next;
    if n > 1 {
      CallRunIsRun(run, counters, n - 1);
      CallsMaySend(run[n - 2], counters[n - 2], run[n - 1], counters[n - 1]);
      forall i | 0 < i < n ensures Next(run[..n][i - 1], run[..n][i]) {
        if i < n - 1 { assert Next(run[..n - 1][i - 1], run[..n - 1][i]); }
      }
    }
  }

  // ---------------------------------------------------------------------
  // The server's loop body
  // ---------------------------------------------------------------------

  class ServiceServer {
    const cache: array<Option<Cached>>
    var next: nat
    ghost var handled: seq<Cached>

    ghost predicate Valid()
      reads this, cache
    {
      cache.Length == CACHE && next < CACHE && Inv(Server(cache[..], next, handled))
    }

    constructor ()
      ensures Valid() && fresh(cache) && handled == []
    {
      cache := new Option<Cached>[CACHE](_ => None);
      next, handled := 0, [];
    }

    method Serve(r: Request, outcome: Body) returns (answer: Response)
      requires Valid()
      modifies this, cache
      ensures Valid()
      ensures (Server(cache[..], next, handled), answer) == Handle(old(Server(cache[..], next, handled)), r, outcome)
    {
      hide Inv;
      ghost var before := Server(cache[..], next, handled);
      HandleKeeps(before, r, outcome);
      var duplicate := 0;
      while duplicate < cache.Length && !Matches(cache[duplicate], r.key)
        invariant duplicate <= cache.Length && forall k :: 0 <= k < duplicate ==> !Matches(cache[k], r.key)
      {
        duplicate := duplicate + 1;
      }
      assert duplicate == Lookup(before.cache, r.key);
      if duplicate < cache.Length {
        var entry := cache[duplicate].value;
        return Response(r.key, if entry.request == r then entry.body else Failure(EINVAL));
      }
      cache[next] := Some(Cached(r, outcome));
      next := (next + 1) % CACHE;
      handled := handled + [Cached(r, outcome)];
      assert cache[..] == before.cache[before.next := Some(Cached(r, outcome))];
      return Response(r.key, outcome);
    }
  }

  // ---------------------------------------------------------------------
  // The client
  // ---------------------------------------------------------------------

  /** A datagram that reaches the client's socket. */
  datatype Arrival = Arrival(wellFormed: bool, response: Response, typesAgree: bool, sizeAgrees: bool,
      emptyOnError: bool)

  /** What the client makes of it; None means that it goes on waiting. */
  function Verdict(a: Arrival, key: Key): Option<Result<nat>> {
    if !a.wellFormed || a.response.key != key then None
    else if !a.typesAgree then Some(Err(EPROTOTYPE))
    else match a.response.body
      case Failure(e) => if a.emptyOnError then Some(Err(e)) else None
      case Output(v) => if a.sizeAgrees then Some(Ok(v)) else Some(Err(EMSGSIZE))
  }

  /** The first datagram that settles the call. */
  function Settles(arrivals: seq<Arrival>, key: Key): Option<Result<nat>> {
    if arrivals == [] then None
    else if Settles(arrivals[..|arrivals| - 1], key).Some? then Settles(arrivals[..|arrivals| - 1], key)
    else Verdict(arrivals[|arrivals| - 1], key)
  }

  function Rounds(rounds: seq<seq<Arrival>>): seq<Arrival> {
    if rounds == [] then [] else Rounds(rounds[..|rounds| - 1]) + rounds[|rounds| - 1]
  }

  class ServiceClient {
    const client: u64
    const port: nat
    var request: u64

    constructor (client: u64, port: nat)
      ensures this.client == client && this.port == port && request == 0
    {
      this.client, this.port, request := client, port, 0;
    }

    /** One call: the same request is sent once per round, and each round brings the
        datagrams that arrive before its timeout. */
    method CallRaw(service: u16, rounds: seq<seq<Arrival>>) returns (r: Result<nat>, ghost key: Key)
      modifies this
      ensures old(request) == U64_MAX ==> r == Err(EOVERFLOW) && request == old(request)
      ensures old(request) < U64_MAX ==>
        && request == old(request) + 1 && key == Key(port, client, request, service)
        && r == if Settles(Rounds(rounds), key).Some? then Settles(Rounds(rounds), key).value else Err(ETIMEDOUT)
    {
      if request == U64_MAX { return Err(EOVERFLOW), Key(port, client, request, service); }
      request := request + 1;
      var mine := Key(port, client, request, service);
      key := mine;
      for attempt := 0 to |rounds|
        invariant request == old(request) + 1 && mine == Key(port, client, request, service) == key
        invariant Settles(Rounds(rounds[..attempt]), mine).None?
      {
        ghost var seen := Rounds(rounds[..attempt]);
        assert rounds[..attempt + 1][..attempt] == rounds[..attempt];
        assert seen + [] == seen;
        assert rounds[attempt][..0] == [];
        for i := 0 to |rounds[attempt]|
          invariant request == old(request) + 1 && mine == Key(port, client, request, service) == key
          invariant Settles(seen + rounds[attempt][..i], mine).None?
        {
          var a := rounds[attempt][i];
          ghost var more := seen + rounds[attempt][..i + 1];
          assert more[..|more| - 1] == seen + rounds[attempt][..i] && more[|more| - 1] == a;
          var verdict := Verdict(a, mine);
          if verdict.Some? {
            SettledStays(rounds, attempt, i + 1, mine);
            return verdict.value, key;
          }
        }
        assert rounds[attempt][..|rounds[attempt]|] == rounds[attempt];
      }
      assert rounds[..|rounds|] == rounds;
      return Err(ETIMEDOUT), key;
    }
  }

  lemma {:induction false} SettlesOfPrefix(arrivals: seq<Arrival>, n: nat, key: Key)
    requires n <= |arrivals| && Settles(arrivals[..n], key).Some?
    ensures Settles(arrivals, key) == Settles(arrivals[..n], key)
  {
    if n == |arrivals| {
      assert arrivals[..n] == arrivals;
    } else {
      assert arrivals[..|arrivals| - 1][..n] == arrivals[..n];
      SettlesOfPrefix(arrivals[..|arrivals| - 1], n, key);
    }
  }

  lemma {:induction false} RoundsPrefix(rounds: seq<seq<Arrival>>, k: nat)
    requires k <= |rounds|
    ensures Rounds(rounds[..k]) <= Rounds(rounds)
  {
    if k == |rounds| {
      assert rounds[..k] == rounds;
    } else {
      RoundsPrefix(rounds[..|rounds| - 1], k);
      assert rounds[..|rounds| - 1][..k] == rounds[..k];
    }
  }

  lemma SettledStays(rounds: seq<seq<Arrival>>, attempt: nat, i: nat, key: Key)
    requires attempt < |rounds| && i <= |rounds[attempt]|
    requires Settles(Rounds(rounds[..attempt]) + rounds[attempt][..i], key).Some?
    ensures Settles(Rounds(rounds), key) == Settles(Rounds(rounds[..attempt]) + rounds[attempt][..i], key)
  {
    var part, all := Rounds(rounds[..attempt]) + rounds[attempt][..i], Rounds(rounds);
    RoundsPrefix(rounds, attempt + 1);
    assert rounds[..attempt + 1][..attempt] == rounds[..attempt];
    assert Rounds(rounds[..attempt + 1]) == Rounds(rounds[..attempt]) + rounds[attempt];
    assert part == Rounds(rounds[..attempt + 1])[..|part|];
    assert part == all[..|part|];
    SettlesOfPrefix(all, |part|, key);
  }

  lemma {:induction false} SettledByOne(arrivals: seq<Arrival>, key: Key) returns (i: nat)
    requires Settles(arrivals, key).Some?
    ensures i < |arrivals| && Verdict(arrivals[i], key) == Settles(arrivals, key)
  {
    var n := |arrivals| - 1;
    if Settles(arrivals[..n], key).Some? { i := SettledByOne(arrivals[..n], key); } else { i := n; }
  }

  /** The first entry of the history with this key. */
  lemma FirstRun(handled: seq<Cached>, key: Key, k: nat) returns (j: nat)
    requires k < |handled| && handled[k].request.key == key
    ensures j <= k && handled[j].request.key == key && forall i :: 0 <= i < j ==> handled[i].request.key != key
  {
    j := 0;
    while handled[j].request.key != key
      invariant j <= k && forall i :: 0 <= i < j ==> handled[i].request.key != key
      decreases k - j
    {
      j := j + 1;
    }
  }

  /** The whole exchange: behind a call that succeeds there was an execution of its
      request; and unless more than 64 requests were handled after the first one, it
      was the only one and the call returned its output, however many times request
      and answers were lost, repeated or delayed. */
  lemma SuccessIsTheOneExecution(run: seq<World>, n: nat, arrivals: seq<Arrival>, key: Key) returns (j: nat)
    requires IsRun(run) && n < |run|
    requires forall i :: 0 <= i < |arrivals| ==> arrivals[i].wellFormed ==> arrivals[i].response in run[n].responses
    requires Settles(arrivals, key).Some? && Settles(arrivals, key).value.Ok?
    ensures FromRun(run[n].server.handled, Response(key, Output(Settles(arrivals, key).value.value)))
    ensures j < |run[n].server.handled| && run[n].server.handled[j].request.key == key
    ensures |run[n].server.handled| <= j + 1 + CACHE ==>
      && run[n].server.handled[j].body == Output(Settles(arrivals, key).value.value)
      && forall k :: 0 <= k < |run[n].server.handled| && k != j ==> run[n].server.handled[k].request.key != key
  {
    var i := SettledByOne(arrivals, key);
    var a, h := arrivals[i].response, run[n].server.handled;
    RerunsAreFarApart(run, n);
    assert a == Response(key, Output(Settles(arrivals, key).value.value)) && FromRun(h, a);
    var k :| 0 <= k < |h| && h[k].request.key == a.key && h[k].body == a.body;
    j := FirstRun(h, key, k);
    if |h| <= j + 1 + CACHE { AtMostOnce(run, n, a, j); }
  }

  /** A datagram that ends the waiting: well-formed, an answer to this call, and not an
      error with data that should have none. */
  predicate IsFinal(a: Arrival, key: Key) {
    a.wellFormed && a.response.key == key && (a.typesAgree && a.response.body.Failure? ==> a.emptyOnError)
  }

  /** A call times out if and only if no datagram is final; otherwise the first final
      one decides. */
  lemma {:induction false} TimesOutIff(arrivals: seq<Arrival>, key: Key)
    ensures Settles(arrivals, key).None? <==> forall i :: 0 <= i < |arrivals| ==> !IsFinal(arrivals[i], key)
  {
    if arrivals != [] {
      var n := |arrivals| - 1;
      TimesOutIff(arrivals[..n], key);
      assert arrivals == arrivals[..n] + [arrivals[n]];
    }
  }

  lemma FirstDecides(arrivals: seq<Arrival>, key: Key, i: nat)
    requires i < |arrivals| && IsFinal(arrivals[i], key) && forall k :: 0 <= k < i ==> !IsFinal(arrivals[k], key)
    ensures Settles(arrivals, key) == Verdict(arrivals[i], key)
  {
    TimesOutIff(arrivals[..i], key);
    assert arrivals[..i + 1][..i] == arrivals[..i];
    SettlesOfPrefix(arrivals, i + 1, key);
  }

  /** The whole exchange, in every run: what a call returns was decided by one datagram,
      the answer of an execution of its request at step k. A success is what the handler
      gave; an error is what the server's framework gave, or says that the types or
      the size of that answer are not the expected ones. */
  lemma ReturnsWhatWasGiven(run: seq<World>, steps: seq<Step>, n: nat, arrivals: seq<Arrival>, key: Key)
    returns (i: nat, k: nat)
    requires IsLabelled(run, steps) && n < |run|
    requires forall i :: 0 <= i < |arrivals| ==> arrivals[i].wellFormed ==> arrivals[i].response in run[n].responses
    requires Settles(arrivals, key).Some?
    ensures i < |arrivals| && k < n && IsFinal(arrivals[i], key)
    ensures steps[k].Serving? && steps[k].taken.key == key && steps[k].outcome == arrivals[i].response.body
      && Executes(run, steps, k, Cached(steps[k].taken, steps[k].outcome))
    ensures match Settles(arrivals, key).value
      case Ok(v) => arrivals[i].typesAgree && arrivals[i].sizeAgrees && steps[k].outcome == Output(v)
      case Err(e) =>
        || (e == EPROTOTYPE && !arrivals[i].typesAgree)
        || (e == EMSGSIZE && steps[k].outcome.Output? && !arrivals[i].sizeAgrees)
        || steps[k].outcome == Failure(e)
  {
    LabelledIsRun(run, steps);
    i := SettledByOne(arrivals, key);
    var a, h := arrivals[i].response, run[n].server.handled;
    RerunsAreFarApart(run, n);
    hide IsRun, IsLabelled, Settles;
    var j :| 0 <= j < |h| && h[j].request.key == a.key && h[j].body == a.body;
    k := HandledAreOutcomes(run, steps, n, j);
  }

  /** The counterpart for errors: unless more than 64 requests were handled after the
      first execution, a framework error that a call returns is that of the only one. */
  lemma FailureIsTheOneExecution(run: seq<World>, n: nat, arrivals: seq<Arrival>, key: Key, e: Errno) returns (j: nat)
    requires IsRun(run) && n < |run|
    requires forall i :: 0 <= i < |arrivals| ==> arrivals[i].wellFormed ==> arrivals[i].response in run[n].responses
    requires Settles(arrivals, key) == Some(Err(e))
    ensures j < |run[n].server.handled| && run[n].server.handled[j].request.key == key
    ensures |run[n].server.handled| <= j + 1 + CACHE ==>
      && (run[n].server.handled[j].body == Failure(e) || e == EPROTOTYPE
          || (e == EMSGSIZE && run[n].server.handled[j].body.Output?))
      && forall k :: 0 <= k < |run[n].server.handled| && k != j ==> run[n].server.handled[k].request.key != key
  {
    var i := SettledByOne(arrivals, key);
    var a, h := arrivals[i].response, run[n].server.handled;
    RerunsAreFarApart(run, n);
    assert FromRun(h, a);
    var k :| 0 <= k < |h| && h[k].request.key == a.key && h[k].body == a.body;
    j := FirstRun(h, key, k);
    if |h| <= j + 1 + CACHE { AtMostOnce(run, n, a, j); }
  }
}
