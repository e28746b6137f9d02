/** When a failing callback can lose another caller's fetch (core/catalogue_stem_cache.py): the
    exact condition, over every continuation of a rolled-back reservation. */
module RollbackLoss {
  import opened Text
  import opened FetchQueue
  import StaleRollback

  // ---- the question ----------------------------------------------------------

  /** What the program does after the rollback: reservations with one of the two priorities and
      network access, and the worker. */
  predicate Ordinary(e: Event) {
    !e.RollingBack? && (e.Reserving? ==> e.priority <= 1 && e.policy.network)
  }

  /** Some accepted URL is neither reserved nor carried, with its exact request, by any copy. */
  ghost predicate HasLost(s: State) {
    !NothingLost(Copies(s), s.queued, ReservedUrls(s.reserved))
  }

  /** After undoing the reservation of `s`, some run of the program loses an accepted fetch. */
  ghost predicate Loses(s: State) {
    exists events :: LosesBy(s, events)
  }

  ghost predicate LosesBy(s: State, events: seq<Event>) {
    (forall e :: e in events ==> Ordinary(e)) && HasLost(Run(RollbackAll(s), events))
  }

  // ---- the answer ------------------------------------------------------------

  /** Joining this into any later request gives that request. */
  predicate Harmless(r: Request) {
    r.priority >= 1 && !r.force && r.policy == Policy(true, true, true)
  }

  function Chunk(s: State): seq<Item> {
    if |s.pending| < Width then s.pending else s.pending[..Width]
  }

  /** The backlog behind the running or next chunk. */
  function Rest(s: State): seq<Item> {
    if s.busy then s.pending else if |s.pending| < Width then [] else s.pending[Width..]
  }

  /** The worker retires this copy before it merges what arrived. */
  predicate Retiring(s: State, d: Item) {
    d in if s.busy then s.inflight else Chunk(s)
  }

  ghost predicate Ahead(s: State, x: Item, c: Item) {
    x in Rest(s) + s.pool && x.url != c.url && x.order < c.order
  }

  /** Copies of two other URLs have waited longer than `c`. */
  ghost predicate TwoAhead(s: State, c: Item) {
    exists x, y :: Ahead(s, x, c) && Ahead(s, y, c) && x.url != y.url
  }

  /** `c` repeats a version that the worker is about to retire, matters to later requests, and
      can be overtaken by a whole chunk. */
  ghost predicate Endangers(s: State, c: Item, d: Item) {
    && c in s.pool && Retiring(s, d) && c.url == d.url && c.request == d.request
    && !Harmless(c.request)
    && (c.request.priority >= 1 || TwoAhead(s, c))
  }

  ghost predicate Risky(s: State) {
    exists c, d :: Endangers(s, c, d)
  }

  // ---- orders ----------------------------------------------------------------

  /** Items of different URLs never tie. */
  ghost predicate OrdersDiffer(copies: set<Item>, nextOrder: nat) {
    && (forall c :: c in copies ==> c.order < nextOrder)
    && (forall c, d :: c in copies && d in copies && c.url != d.url ==> c.order != d.order)
  }

  ghost predicate Ordered(s: State) {
    OrdersDiffer(Copies(s), s.nextOrder)
  }

  /** A joined item has the order of its oldest copy and the token of its newest. */
  lemma {:induction false} JoinedOrder(items: seq<Item>, url: string)
    requires Joined(items, url).Some?
    ensures var r := Joined(items, url).value;
            && (exists c :: c in items && c.url == url && c.order == r.order)
            && (exists c :: c in items && c.url == url && c.request.token == r.request.token)
            && (forall c :: c in items && c.url == url ==> r.order <= c.order)
  {
    var n := |items| - 1;
    var before, last := items[..n], items[n];
    assert items == before + [last] && last in items;
    if Joined(before, url).Some? {
      JoinedOrder(before, url);
      assert forall c :: c in before ==> c in items;
    }
  }

  /** What a deduplicated item keeps of its copies. */
  ghost predicate KeepsOldest(j: Item, items: seq<Item>) {
    && (exists c :: c in items && c.url == j.url && c.order == j.order)
    && (exists c :: c in items && c.url == j.url && c.request.token == j.request.token)
    && (forall c :: c in items && c.url == j.url ==> j.order <= c.order)
  }

  lemma DedupedKeepOldest(items: seq<Item>)
    ensures Coalesces(Deduped(items), items)
    ensures forall j :: j in Deduped(items) ==> KeepsOldest(j, items)
  {
    hide Coalesces, Joined;
    DedupedCoalesces(items);
    JoinsMembers(items);
    forall j | j in Deduped(items) ensures KeepsOldest(j, items) {
      assert j in Joins(items);
      JoinedOrder(items, j.url);
    }
  }

  lemma RegroupedOrders(items: seq<Item>, r: seq<Item>, copies: set<Item>, joined: set<Item>, nextOrder: nat)
    requires OrdersDiffer(copies, nextOrder)
    requires forall c :: c in items ==> c in copies
    requires forall c :: c in joined ==> c in r
    requires forall j :: j in r ==> KeepsOldest(j, items)
    ensures OrdersDiffer(joined, nextOrder)
  {
  }

  // ---- what whole sections do ------------------------------------------------

  function CurrentOf(s: State, items: seq<Item>): (r: seq<Item>)
    ensures forall c :: c in r <==> c in items && Current(s, c)
  {
    if items == [] then []
    else
      assert items == [items[0]] + items[1..];
      (if Current(s, items[0]) then [items[0]] else []) + CurrentOf(s, items[1..])
  }

  lemma {:induction false} StartSomeFrame(s: State, n: nat)
    ensures var m := if |s.pending| < n then |s.pending| else n;
            StartSome(s, n) == s.(pending := s.pending[m..], inflight := StartSome(s, n).inflight)
    decreases n
  {
    if n != 0 && s.pending != [] {
      StartSomeFrame(StartOne(s), n - 1);
    }
  }

  lemma StartOneInflight(s: State, chunk: seq<Item>)
    requires s.pending != [] && chunk != [] && chunk[0] == s.pending[0]
    ensures StartOne(s).inflight + CurrentOf(s, chunk[1..]) == s.inflight + CurrentOf(s, chunk)
  {
    hide Current;
    var rest := CurrentOf(s, chunk[1..]);
    assert s.inflight + ([chunk[0]] + rest) == s.inflight + [chunk[0]] + rest;
    assert s.inflight + ([] + rest) == s.inflight + rest;
  }

  lemma {:induction false} StartSomeInflight(s: State, n: nat)
    requires n <= |s.pending|
    ensures StartSome(s, n).inflight == s.inflight + CurrentOf(s, s.pending[..n])
    decreases n
  {
    if n == 0 {
      assert CurrentOf(s, s.pending[..0]) == [];
    } else {
      hide Current, CurrentOf;
      var s1, chunk := StartOne(s), s.pending[..n];
      StartSomeInflight(s1, n - 1);
      assert chunk[1..] == s1.pending[..n - 1];
      CurrentSame(s, s1, chunk[1..]);
      StartOneInflight(s, chunk);
    }
  }

  lemma {:induction false} StartSomeShort(s: State, n: nat)
    requires |s.pending| <= n
    ensures StartSome(s, n) == StartSome(s, |s.pending|)
    decreases n
  {
    if s.pending != [] {
      StartSomeShort(StartOne(s), n - 1);
    }
  }

  lemma {:induction false} CurrentSame(s: State, s1: State, items: seq<Item>)
    requires s.queued == s1.queued
    ensures CurrentOf(s, items) == CurrentOf(s1, items)
  {
    if items != [] {
      CurrentSame(s, s1, items[1..]);
    }
  }

  lemma StartIs(s: State)
    requires s.inflight == [] && !s.busy
    ensures Start(s) == s.(busy := true, pending := Rest(s), inflight := CurrentOf(s, Chunk(s)))
  {
    hide StartSome;
    var s1 := s.(busy := true);
    StartSomeFrame(s1, Width);
    CurrentSame(s, s1, Chunk(s));
    assert s.pending[..|s.pending|] == s.pending && s.pending[|s.pending|..] == [];
    if |s.pending| < Width {
      StartSomeShort(s1, Width);
      StartSomeInflight(s1, |s.pending|);
    } else {
      StartSomeInflight(s1, Width);
    }
    assert [] + CurrentOf(s, Chunk(s)) == CurrentOf(s, Chunk(s));
  }

  /** Finishing pops exactly the URLs whose running request is still current. */
  ghost predicate Popped(s: State, u: string) {
    u in s.queued && exists d :: d in s.inflight && d.url == u && d.request == s.queued[u]
  }

  lemma {:induction false} FinishAllIs(s: State)
    ensures var f := FinishAll(s);
            && f == s.(inflight := [], queued := f.queued, callers := f.callers)
            && (forall u :: u in f.queued <==> u in s.queued && !Popped(s, u))
            && (forall u :: u in f.queued ==> f.queued[u] == s.queued[u])
            && (Books(s.queued, s.callers, s.nextToken) ==> Books(f.queued, f.callers, f.nextToken))
    decreases |s.inflight|
  {
    if s.inflight != [] {
      hide Books;
      var s1, item := FinishOne(s), s.inflight[0];
      assert s.inflight == [item] + s.inflight[1..];
      FinishAllIs(s1);
      if Books(s.queued, s.callers, s.nextToken) {
        BooksForget(s.queued, s.callers, s.nextToken, item.url);
      }
      assert forall d :: d in s.inflight <==> d == item || d in s1.inflight;
    }
  }

  // ---- a calm queue stays calm -----------------------------------------------

  /** A copy asks for no more than its URL's request; without one it can do no harm. */
  ghost predicate Settled(c: Item, queued: map<string, Request>) {
    if c.url in queued then Below(c.request, queued[c.url]) else Harmless(c.request)
  }

  /** A copy of an older version: the active check will discard it. */
  ghost predicate Outdated(c: Item, queued: map<string, Request>) {
    c.url in queued ==> c.request.token < queued[c.url].token
  }

  /** The copies that the next chunk does not take. */
  function Staying(s: State): set<Item> {
    set c | c in s.pool + s.held + Rest(s) + s.inflight
  }

  ghost predicate AllSettled(copies: set<Item>, queued: map<string, Request>) {
    forall c :: c in copies ==> Settled(c, queued)
  }

  ghost predicate ChunkSettled(s: State) {
    !s.busy ==> forall c :: c in Chunk(s) ==> Settled(c, s.queued) || Outdated(c, s.queued)
  }

  /** A copy that repeats what the worker took is harmless, merged in time, or about to be
      discarded with the next chunk. */
  ghost predicate Tolerated(s: State, c: Item, d: Item) {
    || Harmless(c.request)
    || !Retiring(s, d)
    || (c.request.priority == 0 && !TwoAhead(s, c))
  }

  ghost predicate PoolSafe(s: State) {
    forall c, d :: c in s.pool && d in Taken(s) && c.url == d.url && Below(c.request, d.request) ==> Tolerated(s, c, d)
  }

  /** What is reserved is newer than every copy of its URL. */
  ghost predicate FreshReservations(reserved: seq<Reservation>, copies: set<Item>, queued: map<string, Request>) {
    && (forall r :: r in reserved ==>
          && r.url in queued && queued[r.url] == r.request
          && forall c :: c in copies && c.url == r.url ==> c.request.token < r.request.token)
    && (forall i, j :: 0 <= i < j < |reserved| ==> reserved[i].url != reserved[j].url)
  }

  ghost predicate TokensBelow(copies: set<Item>, nextToken: nat) {
    forall c :: c in copies ==> c.request.token < nextToken
  }

  ghost predicate Calm(s: State) {
    && AllSettled(Staying(s), s.queued) && ChunkSettled(s)
    && NothingLost(Copies(s), s.queued, ReservedUrls(s.reserved))
    && PoolSafe(s)
    && FreshReservations(s.reserved, Copies(s), s.queued)
    && TokensBelow(Copies(s), s.nextToken) && OrdersDiffer(Copies(s), s.nextOrder)
    && Books(s.queued, s.callers, s.nextToken) && Shape(s)
  }

  // ---- reserving and releasing

  lemma SettledRaises(c: Item, queued: map<string, Request>, url: string, q: Request, request: Request)
    requires q == if url in queued then Join(queued[url], request) else request
    requires request.priority <= 1 && c.request.token < request.token
    requires url in queued ==> queued[url].token < request.token
    ensures Settled(c, queued) ==> Settled(c, queued[url := q])
    ensures Outdated(c, queued) ==> Outdated(c, queued[url := q])
  {
    if url in queued {
      JoinIsSemilattice(queued[url], request, q);
    }
  }

  lemma ReserveStaysCalm(s: State, url: string, priority: nat, force: bool, policy: Policy)
    requires Calm(s) && url !in ReservedUrls(s.reserved) && priority <= 1
    ensures Calm(ReserveOne(s, url, priority, force, policy))
  {
    hide NothingLost, PoolSafe, Books, ReservedUrls, UniqueUrls, Sorted, Settled, Outdated, OrdersDiffer, Below, JoinAll,
         Tolerated, Harmless;
    var request := Request(priority, force, policy, s.nextToken);
    var s' := ReserveOne(s, url, priority, force, policy);
    var r := s'.reserved[|s.reserved|];
    BooksReserve(s.queued, s.callers, s.nextToken, url, request);
    forall c | c in Copies(s)
      ensures (Settled(c, s.queued) ==> Settled(c, s'.queued)) && (Outdated(c, s.queued) ==> Outdated(c, s'.queued))
    {
      SettledRaises(c, s.queued, url, r.request, request);
    }
    StayingAreCopies(s);
    NothingLostReserves(Copies(s), s.queued, ReservedUrls(s.reserved), url, r.request);
    SamePool(s, s');
    FreshGrows(s.reserved, Copies(s), s.queued, r);
  }

  lemma StayingAreCopies(s: State)
    ensures forall c :: c in Staying(s) ==> c in Copies(s)
    ensures forall c :: c in Chunk(s) ==> c in Copies(s)
    ensures s.busy ==> Staying(s) == Copies(s)
    ensures forall c :: c in Copies(s) ==> c in Staying(s) || (!s.busy && c in Chunk(s))
  {
    assert !s.busy && |s.pending| >= Width ==> s.pending == s.pending[..Width] + s.pending[Width..];
  }

  lemma SamePool(s: State, s': State)
    requires s'.pool == s.pool && s'.pending == s.pending && s'.inflight == s.inflight && s'.busy == s.busy
    ensures PoolSafe(s) ==> PoolSafe(s')
  {
    hide Below, Harmless;
    forall c, d | PoolSafe(s) && c in s'.pool && d in Taken(s') && c.url == d.url && Below(c.request, d.request)
      ensures Tolerated(s', c, d)
    {
      assert Tolerated(s, c, d);
      SameAhead(s, s', c);
    }
  }

  lemma SameAhead(s: State, s': State, c: Item)
    requires forall x :: x in Rest(s') + s'.pool && x.order < c.order ==> x in Rest(s) + s.pool
    ensures TwoAhead(s', c) ==> TwoAhead(s, c)
  {
    if TwoAhead(s', c) {
      var x, y :| Ahead(s', x, c) && Ahead(s', y, c) && x.url != y.url;
      assert Ahead(s, x, c) && Ahead(s, y, c);
    }
  }

  lemma FreshGrows(reserved: seq<Reservation>, copies: set<Item>, queued: map<string, Request>, r: Reservation)
    requires FreshReservations(reserved, copies, queued) && r.url !in ReservedUrls(reserved)
    requires TokensBelow(copies, r.request.token)
    ensures FreshReservations(reserved + [r], copies, queued[r.url := r.request])
    ensures ReservedUrls(reserved + [r]) == ReservedUrls(reserved) + {r.url}
  {
    assert forall q :: q in reserved ==> q.url in ReservedUrls(reserved);
    assert forall q :: q in reserved + [r] <==> q in reserved || q == r;
  }

  lemma ReleaseStaysCalm(s: State)
    requires Calm(s) && s.reserved != []
    ensures Calm(ReleaseOne(s))
  {
    hide PoolSafe, Books, ReservedUrls, UniqueUrls, Sorted, Outdated, OrdersDiffer, JoinAll, NothingLost,
         FreshReservations, TokensBelow, Copies, Staying;
    var r := s.reserved[0];
    FreshSplits(s.reserved, Copies(s), s.queued);
    var s1 := s.(reserved := s.reserved[1..]);
    SameCopies(s, s1);
    var s', item := ReleaseOne(s), Item(s.nextOrder, r.url, r.request);
    assert s' == Put(s1, r.url, r.request);
    CopiesAfterPut(s1, r.url, r.request);
    StayingAfterPut(s, s1, r.url, r.request);
    ReleasedIsCarried(Copies(s), s.queued, s.reserved, item);
    PutIsSafe(s, s1, item);
    TokensAndOrders(Copies(s), s.nextToken, s.nextOrder, item, s.queued, s.callers);
    FreshAfterPut(s1.reserved, Copies(s), s.queued, item);
  }

  lemma FreshSplits(reserved: seq<Reservation>, copies: set<Item>, queued: map<string, Request>)
    requires FreshReservations(reserved, copies, queued) && reserved != []
    ensures FreshReservations(reserved[1..], copies, queued) && reserved[0].url !in ReservedUrls(reserved[1..])
    ensures var r := reserved[0];
            && r.url in queued && queued[r.url] == r.request
            && (forall c :: c in copies && c.url == r.url ==> c.request.token < r.request.token)
            && ReservedUrls(reserved) == ReservedUrls(reserved[1..]) + {r.url}
  {
    assert reserved == [reserved[0]] + reserved[1..];
    assert forall r :: r in reserved[1..] ==> r in reserved;
  }

  lemma StayingAfterPut(s: State, s1: State, url: string, request: Request)
    requires s1 == s.(reserved := s1.reserved)
    ensures Staying(Put(s1, url, request)) == Staying(s) + {Item(s.nextOrder, url, request)}
    ensures Chunk(Put(s1, url, request)) == Chunk(s)
  {
  }

  lemma ReleasedIsCarried(copies: set<Item>, queued: map<string, Request>, reserved: seq<Reservation>, item: Item)
    requires reserved != [] && NothingLost(copies, queued, ReservedUrls(reserved))
    requires ReservedUrls(reserved) == ReservedUrls(reserved[1..]) + {reserved[0].url}
    requires item.url == reserved[0].url && item.url in queued && item.request == queued[item.url]
    ensures NothingLost(copies + {item}, queued, ReservedUrls(reserved[1..]))
  {
    forall u | u in queued && u !in ReservedUrls(reserved[1..]) ensures Outstanding(copies + {item}, u, queued[u]) {
      if u == item.url {
        assert item in copies + {item};
      } else {
        assert Outstanding(copies, u, queued[u]);
      }
    }
  }

  lemma PutIsSafe(s: State, s1: State, item: Item)
    requires PoolSafe(s) && s1 == s.(reserved := s1.reserved) && item.order == s.nextOrder
    requires forall c :: c in Copies(s) && c.url == item.url ==> c.request.token < item.request.token
    requires OrdersDiffer(Copies(s), s.nextOrder)
    ensures PoolSafe(Put(s1, item.url, item.request))
  {
    hide Harmless;
    var s' := Put(s1, item.url, item.request);
    TakenAreCopies(s);
    forall c, d | c in s'.pool && d in Taken(s') && c.url == d.url && Below(c.request, d.request)
      ensures Tolerated(s', c, d)
    {
      if c != item {
        assert Tolerated(s, c, d);
        SameAhead(s, s', c);
      }
    }
  }

  lemma TokensAndOrders(copies: set<Item>, nextToken: nat, nextOrder: nat, item: Item, queued: map<string, Request>,
                        callers: map<string, seq<Request>>)
    requires TokensBelow(copies, nextToken) && OrdersDiffer(copies, nextOrder) && Books(queued, callers, nextToken)
    requires item.order == nextOrder && item.url in queued && item.request == queued[item.url]
    ensures TokensBelow(copies + {item}, nextToken) && OrdersDiffer(copies + {item}, nextOrder + 1)
  {
  }

  lemma FreshAfterPut(reserved: seq<Reservation>, copies: set<Item>, queued: map<string, Request>, item: Item)
    requires FreshReservations(reserved, copies, queued) && item.url !in ReservedUrls(reserved)
    ensures FreshReservations(reserved, copies + {item}, queued)
  {
    assert forall r :: r in reserved ==> r.url in ReservedUrls(reserved);
  }

  // ---- the worker's sections

  lemma {:induction false} CurrentStaysUnique(s: State, items: seq<Item>)
    requires UniqueUrls(items)
    ensures UniqueUrls(CurrentOf(s, items))
  {
    hide Current;
    if items != [] {
      CurrentStaysUnique(s, items[1..]);
      forall c | c in items[1..] ensures c.url != items[0].url {
        var k :| 0 <= k < |items[1..]| && items[1..][k] == c;
      }
      var rest := CurrentOf(s, items[1..]);
      assert forall k :: 0 <= k < |rest| ==> rest[k] in rest;
    }
  }

  lemma UniqueJoin(a: seq<Item>, b: seq<Item>)
    ensures UniqueUrls(a + b) <==>
      UniqueUrls(a) && UniqueUrls(b) && forall c, d :: c in a && d in b ==> c.url != d.url
  {
    var all := a + b;
    assert forall i :: 0 <= i < |a| ==> all[i] == a[i];
    assert forall i :: 0 <= i < |b| ==> all[|a| + i] == b[i];
    if UniqueUrls(all) {
      forall c, d | c in a && d in b ensures c.url != d.url {
        var i :| 0 <= i < |a| && a[i] == c;
        var j :| 0 <= j < |b| && b[j] == d;
        assert all[i].url != all[|a| + j].url;
      }
    }
    assert forall i :: 0 <= i < |a| ==> a[i] in a;
    assert forall i :: 0 <= i < |b| ==> b[i] in b;
  }

  lemma ChunkAndRest(s: State)
    requires !s.busy
    ensures s.pending == Chunk(s) + Rest(s)
  {
  }

  lemma StartKeepsShape(s: State)
    requires Shape(s) && !s.busy && s.pending != []
    ensures Shape(Start(s))
  {
    hide UniqueUrls, Chunk, Rest, CurrentOf;
    StartIs(s);
    ChunkAndRest(s);
    var run := CurrentOf(s, Chunk(s));
    assert s.pending + [] == s.pending && Taken(s) == Chunk(s) + Rest(s);
    UniqueJoin(Chunk(s), Rest(s));
    CurrentStaysUnique(s, Chunk(s));
    assert forall c :: c in run ==> c in Chunk(s);
    UniqueJoin(Rest(s), run);
    SortedSuffix(Chunk(s), Rest(s));
  }

  lemma SortedSuffix(a: seq<Item>, b: seq<Item>)
    requires Sorted(a + b)
    ensures Sorted(b)
  {
    assert forall i :: 0 <= i < |b| ==> (a + b)[|a| + i] == b[i];
  }

  lemma StartStaysCalm(s: State)
    requires Calm(s) && Enabled(s, Starting)
    ensures Calm(Start(s))
  {
    hide PoolSafe, Books, ReservedUrls, UniqueUrls, Sorted, Outdated, OrdersDiffer, NothingLost, Settled,
         FreshReservations, TokensBelow, Copies, Staying, Chunk, Rest, CurrentOf, Start, Shape;
    ShapeWhenIdle(s);
    StartIs(s);
    StartKeepsShape(s);
    StartKeepsCopies(s);
    StayingAreCopies(s);
    StayingAreCopies(Start(s));
    ChunkSettles(s);
    StartedStillCarried(s);
    FewerFresh(s.reserved, Copies(s), Copies(Start(s)), s.queued, s.nextToken, s.nextOrder);
    StartIsSafe(s);
  }

  lemma ShapeWhenIdle(s: State)
    requires Shape(s) && !s.busy
    ensures s.inflight == [] && (s.pending != [] ==> s.held == [])
  {
    assert s.pending != [] ==> Taken(s) != [];
  }

  lemma StartKeepsCopies(s: State)
    requires s.inflight == [] && !s.busy
    ensures forall c :: c in Copies(Start(s)) <==> c in Staying(s) || (c in Chunk(s) && Current(s, c))
    ensures Copies(Start(s)) <= Copies(s)
  {
    hide Start, Chunk, Rest;
    StartIs(s);
    ChunkAndRest(s);
  }

  lemma ChunkSettles(s: State)
    ensures forall c :: Current(s, c) ==> Settled(c, s.queued)
  {
  }

  lemma StartedStillCarried(s: State)
    requires NothingLost(Copies(s), s.queued, ReservedUrls(s.reserved)) && s.inflight == [] && !s.busy
    ensures NothingLost(Copies(Start(s)), s.queued, ReservedUrls(s.reserved))
  {
    hide Start, Chunk, Rest, ReservedUrls, Copies, Staying;
    StartKeepsCopies(s);
    StayingAreCopies(s);
    forall u | u in s.queued && u !in ReservedUrls(s.reserved) ensures Outstanding(Copies(Start(s)), u, s.queued[u]) {
      assert Outstanding(Copies(s), u, s.queued[u]);
    }
  }

  lemma FewerFresh(reserved: seq<Reservation>, copies: set<Item>, fewer: set<Item>, queued: map<string, Request>,
                   nextToken: nat, nextOrder: nat)
    requires fewer <= copies && FreshReservations(reserved, copies, queued)
    requires TokensBelow(copies, nextToken) && OrdersDiffer(copies, nextOrder)
    ensures FreshReservations(reserved, fewer, queued)
    ensures TokensBelow(fewer, nextToken) && OrdersDiffer(fewer, nextOrder)
  {
  }

  lemma StartIsSafe(s: State)
    requires PoolSafe(s) && s.inflight == [] && !s.busy
    ensures PoolSafe(Start(s))
  {
    hide Harmless, Below, Start, Chunk, CurrentOf;
    StartIs(s);
    ChunkAndRest(s);
    var s' := Start(s);
    forall c, d | c in s'.pool && d in Taken(s') && c.url == d.url && Below(c.request, d.request)
      ensures Tolerated(s', c, d)
    {
      assert d in Taken(s) && Tolerated(s, c, d);
      SameAhead(s, s', c);
    }
  }

  // ---- joining copies

  /** What joining the copies of one URL preserves, whether the URL is queued or not. */
  lemma JoinedIsSettled(items: seq<Item>, r: seq<Item>, j: Item, queued: map<string, Request>)
    requires Coalesces(r, items) && j in r
    requires forall c :: c in items && c.url == j.url ==> Settled(c, queued)
    ensures Settled(j, queued)
  {
    hide Coalesces;
    if j.url in queued {
      JoinIsBounded(items, r, j, queued[j.url]);
    } else {
      HarmlessBound(items, r, j);
    }
  }

  lemma CopiesBelow(items: seq<Item>, r: seq<Item>, j: Item)
    requires Coalesces(r, items) && j in r
    ensures forall c :: c in items && c.url == j.url ==> Below(c.request, j.request)
    ensures exists c :: c in items && c.url == j.url
  {
    assert JoinsCopies(j, items);
  }

  lemma HarmlessBound(items: seq<Item>, r: seq<Item>, j: Item)
    requires Coalesces(r, items) && j in r
    requires forall c :: c in items && c.url == j.url ==> Harmless(c.request)
    ensures Harmless(j.request)
  {
    hide Coalesces;
    CopiesBelow(items, r, j);
    var bound := Request(1, false, Policy(true, true, true), j.request.token);
    assert BoundsCopies(bound, items, j.url);
    JoinIsBounded(items, r, j, bound);
    var c :| c in items && c.url == j.url;
    assert Below(c.request, j.request);
  }

  lemma JoinedStillCarried(items: seq<Item>, r: seq<Item>, queued: map<string, Request>, c: Item)
    requires Coalesces(r, items) && c in items && c.url in queued && c.request == queued[c.url]
    requires forall x :: x in items && x.url == c.url ==> Below(x.request, queued[c.url])
    ensures exists d :: d in r && d.url == c.url && d.request == c.request
  {
    hide Coalesces, Below;
    JoinIsExact(items, r, c);
  }

  lemma JoinedFresh(reserved: seq<Reservation>, items: seq<Item>, r: seq<Item>, queued: map<string, Request>,
                    nextToken: nat, copies: set<Item>, joined: set<Item>)
    requires forall j :: j in r ==> KeepsOldest(j, items)
    requires (forall c :: c in items ==> c in copies) && (forall j :: j in joined ==> j in r)
    requires FreshReservations(reserved, copies, queued) && TokensBelow(copies, nextToken)
    ensures FreshReservations(reserved, joined, queued) && TokensBelow(joined, nextToken)
  {
  }

  lemma TakeKeepsCopies(s: State)
    requires Enabled(s, Taking)
    ensures Copies(Take(s)) == Copies(s) && Staying(Take(s)) == Staying(s)
  {
    assert s.pool == [s.pool[0]] + s.pool[1..];
  }

  lemma TakeStaysCalm(s: State)
    requires Calm(s) && Enabled(s, Taking)
    ensures Calm(Take(s))
  {
    hide Books, Settled, Outdated, NothingLost, FreshReservations, TokensBelow, OrdersDiffer, Copies, Staying, PoolSafe,
         Shape;
    TakeKeepsCopies(s);
    TakeKeepsShape(s);
    NothingTakenIsSafe(Take(s));
  }

  lemma TakeKeepsShape(s: State)
    requires Shape(s) && Enabled(s, Taking)
    ensures Shape(Take(s))
  {
  }

  lemma NothingTakenIsSafe(s: State)
    requires Taken(s) == []
    ensures PoolSafe(s)
  {
  }

  lemma DrainCopies(s: State)
    requires Shape(s) && s.held != []
    ensures forall c :: c in Copies(s) <==> c in Sort(s.held + s.pool)
    ensures forall c :: c in Copies(s) ==> c in Staying(s)
    ensures forall c :: c in Copies(Drain(s)) <==> c in Deduped(Sort(s.held + s.pool))
    ensures !s.busy && Taken(Drain(s)) == Deduped(Sort(s.held + s.pool))
    ensures Shape(Drain(s))
  {
    hide Sort, Deduped, Coalesces;
    var items := Sort(s.held + s.pool);
    DedupedCoalesces(items);
    CoalescedShape(Deduped(items), items);
    assert Deduped(items) + [] == Deduped(items);
    assert s.pending == [] && s.inflight == [];
  }

  lemma EmptyPoolIsSafe(s: State)
    requires s.pool == []
    ensures PoolSafe(s)
  {
  }

  lemma DrainStaysCalm(s: State)
    requires Calm(s) && s.held != []
    ensures Calm(Drain(s))
  {
    hide Books, Settled, Outdated, FreshReservations, TokensBelow, OrdersDiffer, Coalesces, KeepsOldest, NothingLost,
         PoolSafe, Copies, Staying, Sort, Deduped, ReservedUrls, Shape, Taken, Chunk, Rest;
    var items := Sort(s.held + s.pool);
    var r, s' := Deduped(items), Drain(s);
    DrainCopies(s);
    DedupedKeepOldest(items);
    forall j | j in r ensures Settled(j, s.queued) {
      JoinedIsSettled(items, r, j, s.queued);
    }
    StayingAreCopies(s');
    JoinedFresh(s.reserved, items, r, s.queued, s.nextToken, Copies(s), Copies(s'));
    RegroupedOrders(items, r, Copies(s), Copies(s'), s.nextOrder);
    SettledStillCarried(s, items, r, s.queued, Copies(s), Copies(s'));
    EmptyPoolIsSafe(s');
  }

  lemma SettledStillCarried(s: State, items: seq<Item>, r: seq<Item>, queued: map<string, Request>, copies: set<Item>,
                            joined: set<Item>)
    requires Coalesces(r, items) && NothingLost(copies, queued, ReservedUrls(s.reserved))
    requires forall c :: c in copies && c.url in queued && c.request == queued[c.url] ==> c in items
    requires forall c :: c in items && c.url in queued ==> Settled(c, queued)
    requires forall j :: j in r ==> j in joined
    ensures NothingLost(joined, queued, ReservedUrls(s.reserved))
  {
    hide Coalesces, ReservedUrls, Below;
    forall u | u in queued && u !in ReservedUrls(s.reserved) ensures Outstanding(joined, u, queued[u]) {
      var c :| c in copies && c.url == u && c.request == queued[u];
      JoinedStillCarried(items, r, queued, c);
    }
  }

  // ---- the section after a chunk

  lemma FinishCopies(s: State)
    requires Shape(s) && s.busy
    ensures forall c :: c in Copies(s) <==> c in s.pending + s.pool || c in s.inflight
    ensures s.held == [] && Staying(s) == Copies(s)
    ensures forall c, d :: c in s.pending && d in s.inflight ==> c.url != d.url
  {
    UniqueJoin(s.pending, s.inflight);
  }

  /** What a finished chunk leaves as the backlog: the joins of the waiting copies. */
  lemma FinishIs(s: State)
    requires Shape(s) && s.busy
    ensures var f, items := Finish(s), Sort(s.pending + s.pool);
            && f == s.(queued := f.queued, callers := f.callers, pool := [], inflight := [], busy := false,
                       pending := f.pending)
            && (forall u :: u in f.queued <==> u in s.queued && !Popped(s, u))
            && (forall u :: u in f.queued ==> f.queued[u] == s.queued[u])
            && Coalesces(f.pending, items) && (forall j :: j in f.pending ==> KeepsOldest(j, items))
            && (forall c :: c in Copies(f) <==> c in f.pending)
            && Shape(f)
    ensures Books(s.queued, s.callers, s.nextToken) ==> Books(Finish(s).queued, Finish(s).callers, s.nextToken)
  {
    hide Coalesces, KeepsOldest, Books, FinishAll, Popped, Sort, Deduped;
    FinishAllIs(s);
    FinishCopies(s);
    var f := Finish(s);
    if s.pool == [] {
      assert s.pending + s.pool == s.pending;
      BacklogStays(s);
    } else {
      DedupedKeepOldest(Sort(s.pending + s.pool));
    }
    CoalescedShape(f.pending, Sort(s.pending + s.pool));
    assert f.pending + [] == f.pending;
  }

  /** A backlog that nothing arrived for is its own join. */
  lemma BacklogStays(s: State)
    requires Shape(s) && s.pool == []
    ensures Coalesces(s.pending, Sort(s.pending)) && forall j :: j in s.pending ==> KeepsOldest(j, Sort(s.pending))
  {
    hide Sort, Below;
    UniqueJoin(s.pending, s.inflight);
    assert forall c :: c in Sort(s.pending) <==> c in s.pending;
    forall c, d | c in s.pending && d in s.pending && c.url == d.url ensures c == d {
      var i :| 0 <= i < |s.pending| && s.pending[i] == c;
      var j :| 0 <= j < |s.pending| && s.pending[j] == d;
    }
    forall d | d in s.pending ensures JoinsCopies(d, Sort(s.pending)) {
      JoinIsSemilattice(d.request, d.request, d.request);
    }
  }

  /** An item that sorts before the join of `c`'s copies stands for a copy that is ahead of `c`. */
  lemma SortedBeforeIsAhead(s: State, items: seq<Item>, r: seq<Item>, x: Item, j: Item, c: Item) returns (a: Item)
    requires s.busy && (forall i :: i in items <==> i in s.pending + s.pool) && OrdersDiffer(Copies(s), s.nextOrder)
    requires Coalesces(r, items) && x in r && j in r && x.url != j.url && NotAfter(x, j)
    requires KeepsOldest(x, items) && KeepsOldest(j, items)
    requires c in items && c.url == j.url && c.request.priority == 0
    ensures Ahead(s, a, c) && a.url == x.url
  {
    hide Coalesces;
    CopiesBelow(items, r, j);
    a :| a in items && a.url == x.url && a.order == x.order;
    var b :| b in items && b.url == j.url && b.order == j.order;
    assert a in Copies(s) && b in Copies(s);
  }

  lemma EarlyInChunk(s: State, items: seq<Item>, f: State, j: Item, c: Item)
    requires s.busy && !f.busy
    requires (forall i :: i in items <==> i in s.pending + s.pool) && OrdersDiffer(Copies(s), s.nextOrder)
    requires Coalesces(f.pending, items) && (forall i :: i in f.pending ==> KeepsOldest(i, items))
    requires UniqueUrls(f.pending) && Sorted(f.pending)
    requires j in f.pending && c in items && c.url == j.url && c.request.priority == 0 && !TwoAhead(s, c)
    ensures j in Chunk(f)
  {
    hide Coalesces, OrdersDiffer, KeepsOldest, NotAfter, Ahead;
    var r := f.pending;
    var k :| 0 <= k < |r| && r[k] == j;
    if k >= Width {
      var x := SortedBeforeIsAhead(s, items, r, r[0], j, c);
      var y := SortedBeforeIsAhead(s, items, r, r[1], j, c);
    } else if |r| >= Width {
      assert r[..Width][k] == j;
    }
  }

  lemma FinishedItem(s: State, j: Item)
    requires Calm(s) && s.busy && j in Finish(s).pending
    ensures Settled(j, Finish(s).queued) || (j in Chunk(Finish(s)) && Outdated(j, Finish(s).queued))
  {
    hide Coalesces, KeepsOldest, Books, Harmless, Below, NothingLost, FreshReservations, TokensBelow, OrdersDiffer, Finish,
         Chunk, Sort, UniqueUrls, Sorted, ChunkSettled, TwoAhead;
    var f, items := Finish(s), Sort(s.pending + s.pool);
    FinishIs(s);
    FinishCopies(s);
    CoalescedShape(f.pending, items);
    if !Popped(s, j.url) {
      JoinedIsSettled(items, f.pending, j, s.queued);
    } else {
      var d :| d in s.inflight && d.url == j.url && d.request == s.queued[j.url];
      if c :| c in items && c.url == j.url && !Harmless(c.request) {
        assert c in s.pool && d in Taken(s) && Below(c.request, d.request);
        assert Tolerated(s, c, d);
        EarlyInChunk(s, items, f, j, c);
      } else {
        HarmlessBound(items, f.pending, j);
      }
    }
  }

  lemma FinishStaysCalm(s: State)
    requires Calm(s) && s.busy
    ensures Calm(Finish(s))
  {
    hide Coalesces, KeepsOldest, Books, Settled, Outdated, NothingLost, FreshReservations, TokensBelow, OrdersDiffer,
         Finish, Chunk, Rest, Sort, PoolSafe, Copies, Staying, Shape, ReservedUrls, Popped;
    var f, items := Finish(s), Sort(s.pending + s.pool);
    FinishIs(s);
    FinishCopies(s);
    forall j | j in f.pending ensures Settled(j, f.queued) || (j in Chunk(f) && Outdated(j, f.queued)) {
      FinishedItem(s, j);
    }
    StayingSettled(s, f);
    StayingAreCopies(f);
    EmptyPoolIsSafe(f);
    RegroupedOrders(items, f.pending, Copies(s), Copies(f), s.nextOrder);
    JoinedFresh(s.reserved, items, f.pending, s.queued, s.nextToken, Copies(s), Copies(f));
    ReservedNotPopped(s);
    FinishStillCarried(s);
  }

  /** The backlog behind the next chunk holds no outdated copies. */
  lemma StayingSettled(s: State, f: State)
    requires Calm(s) && s.busy && f == Finish(s)
    ensures AllSettled(Staying(f), f.queued)
  {
    hide Coalesces, KeepsOldest, Books, Settled, Outdated, NothingLost, FreshReservations, TokensBelow, OrdersDiffer,
         Finish, Sort, PoolSafe, Popped;
    FinishIs(s);
    forall c | c in Staying(f) ensures Settled(c, f.queued) {
      FinishedItem(s, c);
      NotInBoth(f, c);
    }
  }

  lemma NotInBoth(f: State, c: Item)
    requires Shape(f) && !f.busy && f.pool == [] && f.held == [] && c in Staying(f)
    ensures c !in Chunk(f)
  {
    ChunkAndRest(f);
    assert f.inflight == [];
    assert c in Rest(f);
    assert f.pending + [] == f.pending;
    UniqueJoin(Chunk(f), Rest(f));
  }

  lemma ReservedNotPopped(s: State)
    requires FreshReservations(s.reserved, Copies(s), s.queued)
    ensures forall r :: r in s.reserved ==> !Popped(s, r.url)
  {
    forall d | d in s.inflight ensures d in Copies(s) {
    }
  }

  lemma FinishStillCarried(s: State)
    requires Calm(s) && s.busy
    ensures NothingLost(Copies(Finish(s)), Finish(s).queued, ReservedUrls(s.reserved))
    ensures (forall r :: r in s.reserved ==> !Popped(s, r.url)) &&
            FreshReservations(s.reserved, Copies(Finish(s)), s.queued) ==>
            FreshReservations(s.reserved, Copies(Finish(s)), Finish(s).queued)
  {
    hide Coalesces, KeepsOldest, Books, TokensBelow, OrdersDiffer, Finish, Sort, PoolSafe, Below, Harmless, ReservedUrls,
         Shape, Copies, Staying;
    var f, items := Finish(s), Sort(s.pending + s.pool);
    FinishIs(s);
    FinishCopies(s);
    forall u | u in f.queued && u !in ReservedUrls(s.reserved) ensures Outstanding(Copies(f), u, f.queued[u]) {
      var c :| c in Copies(s) && c.url == u && c.request == s.queued[u];
      assert c !in s.inflight;
      forall x | x in items && x.url == u ensures Below(x.request, s.queued[u]) {
        assert Settled(x, s.queued);
      }
      JoinedStillCarried(items, f.pending, s.queued, c);
    }
  }

  // ---- runs

  lemma {:induction false} ReserveAllStaysCalm(s: State, urls: seq<string>, priority: nat, force: bool, policy: Policy)
    requires Calm(s) && Distinct(urls) && priority <= 1 && forall u :: u in urls ==> u !in ReservedUrls(s.reserved)
    ensures Calm(ReserveAll(s, urls, priority, force, policy))
    decreases |urls|
  {
    if urls != [] {
      var s' := ReserveOne(s, urls[0], priority, force, policy);
      assert urls[0] in urls;
      ReserveStaysCalm(s, urls[0], priority, force, policy);
      forall u | u in urls[1..] ensures u !in ReservedUrls(s'.reserved) {
        assert u in urls && u != urls[0];
      }
      hide Calm;
      ReserveAllStaysCalm(s', urls[1..], priority, force, policy);
    }
  }

  lemma {:induction false} ReleaseAllStaysCalm(s: State)
    requires Calm(s)
    ensures Calm(ReleaseAll(s))
    decreases |s.reserved|
  {
    hide Calm;
    if s.reserved != [] {
      ReleaseStaysCalm(s);
      ReleaseAllStaysCalm(ReleaseOne(s));
    }
  }

  lemma NextStaysCalm(s: State, e: Event)
    requires Calm(s) && Ordinary(e)
    ensures Calm(Next(s, e))
  {
    hide Calm, Drain, Finish, Start;
    if Enabled(s, e) {
      match e
      case Reserving(urls, priority, force, policy) => ReserveAllStaysCalm(s, urls, priority, force, policy);
      case Releasing => ReleaseAllStaysCalm(s);
      case Taking => TakeStaysCalm(s);
      case Draining => DrainStaysCalm(s);
      case Starting => StartStaysCalm(s);
      case Finishing => FinishStaysCalm(s);
    }
  }

  lemma {:induction false} RunStaysCalm(s: State, events: seq<Event>)
    requires Calm(s) && forall e :: e in events ==> Ordinary(e)
    ensures Calm(Run(s, events)) && !HasLost(Run(s, events))
    decreases |events|
  {
    if events != [] {
      hide Calm, HasLost, Ordinary;
      assert events[0] in events && forall e :: e in events[1..] ==> e in events;
      NextStaysCalm(s, events[0]);
      RunStaysCalm(Next(s, events[0]), events[1..]);
    }
  }

  // ---- after the rollback ----------------------------------------------------

  /** `c` was put back: it is its URL's current request and its only copy in the priority queue. */
  ghost predicate PutBack(s: State, c: Item) {
    && c.url !in ReservedUrls(s.reserved) && c.url in s.queued && c.request == s.queued[c.url]
    && forall x :: x in s.pool && x.url == c.url ==> x == c
  }

  ghost predicate PoolNewerOrPutBack(s: State) {
    forall c, d :: c in s.pool && d in Taken(s) && c.url == d.url ==> d.request.token < c.request.token || PutBack(s, c)
  }

  /** What holds while reservations are undone one after the other. */
  ghost predicate Undone(s: State) {
    && Covered(Copies(s), s.queued)
    && NothingLost(Copies(s), s.queued, ReservedUrls(s.reserved))
    && PoolNewerOrPutBack(s)
    && Reservations(s.reserved, Copies(s), s.queued, s.callers)
    && Books(s.queued, s.callers, s.nextToken) && Shape(s)
    && OrdersDiffer(Copies(s), s.nextOrder)
  }

  lemma OthersPutBack(s: State, s': State, c: Item, url: string)
    requires PutBack(s, c) && c.url != url
    requires ReservedUrls(s'.reserved) <= ReservedUrls(s.reserved)
    requires c.url in s'.queued && s'.queued[c.url] == s.queued[c.url]
    requires forall x :: x in s'.pool && x.url != url ==> x in s.pool
    ensures PutBack(s', c)
  {
  }

  /** The rest of a state whose first reservation is undone. */
  lemma UndoneSplits(s: State)
    requires Undone(s) && s.reserved != []
    ensures ReservationHolds(s.reserved[0], Copies(s), s.queued, s.callers)
    ensures Reservations(s.reserved[1..], Copies(s), s.queued, s.callers)
    ensures s.reserved[0].url !in ReservedUrls(s.reserved[1..])
    ensures ReservedUrls(s.reserved) == ReservedUrls(s.reserved[1..]) + {s.reserved[0].url}
  {
    hide ReservationHolds;
    assert s.reserved == [s.reserved[0]] + s.reserved[1..];
    assert forall r :: r in s.reserved[1..] ==> r in s.reserved;
  }

  lemma UndoneForgets(s: State)
    requires Undone(s) && s.reserved != [] && s.reserved[0].previous.None?
    ensures Undone(RollbackOne(s))
  {
    hide Covered, NothingLost, Reservations, Books, JoinAll, ReservedUrls, UniqueUrls, Sorted, Copies, OrdersDiffer,
         PutBack;
    var r, s' := s.reserved[0], RollbackOne(s);
    UndoneSplits(s);
    TakenAreCopies(s);
    SameCopies(s, s');
    WithoutUrl(Copies(s), s.queued, s.callers, s'.reserved, r.url);
    BooksForget(s.queued, s.callers, s.nextToken, r.url);
    forall c, d | c in s'.pool && d in Taken(s') && c.url == d.url
      ensures d.request.token < c.request.token || PutBack(s', c)
    {
      if PutBack(s, c) {
        KnownUrl(s, c);
        OthersPutBack(s, s', c, r.url);
      }
    }
  }

  lemma KnownUrl(s: State, c: Item)
    requires PutBack(s, c)
    ensures c.url in s.queued
  {
  }

  lemma UndonePuts(s: State)
    requires Undone(s) && s.reserved != [] && s.reserved[0].previous.Some?
    ensures Undone(RollbackOne(s))
  {
    hide Covered, NothingLost, Reservations, Books, JoinAll, ReservedUrls, UniqueUrls, Sorted, Copies, OrdersDiffer,
         PoolNewerOrPutBack;
    var r := s.reserved[0];
    var p := r.previous.value;
    UndoneSplits(s);
    var s1 := s.(reserved := s.reserved[1..]);
    var s2 := s1.(queued := s.queued[r.url := p], callers := s.callers[r.url := ButLast(s.callers[r.url])]);
    SameCopies(s, s2);
    PreviousRestored(Copies(s), s.queued, s.callers, s1.reserved, r);
    BooksRestore(s.queued, s.callers, s.nextToken, r, Copies(s));
    PutKeeps(Copies(s), s2.queued, s2.callers, s1.reserved, r.url, s.nextOrder, p);
    CopiesAfterPut(s2, r.url, p);
    assert RollbackOne(s) == Put(s2, r.url, p);
    OrdersAfterPut(Copies(s), s.nextOrder, Item(s.nextOrder, r.url, p));
    PoolAfterPut(s, r, p);
  }

  lemma OrdersAfterPut(copies: set<Item>, nextOrder: nat, item: Item)
    requires OrdersDiffer(copies, nextOrder) && item.order == nextOrder
    ensures OrdersDiffer(copies + {item}, nextOrder + 1)
  {
  }

  lemma PoolAfterPut(s: State, r: Reservation, p: Request)
    requires PoolNewerOrPutBack(s) && s.reserved != [] && r == s.reserved[0] && r.previous == Some(p)
    requires ReservationHolds(r, Copies(s), s.queued, s.callers)
    requires r.url !in ReservedUrls(s.reserved[1..])
    requires ReservedUrls(s.reserved) == ReservedUrls(s.reserved[1..]) + {r.url}
    ensures PoolNewerOrPutBack(RollbackOne(s))
  {
    hide JoinAll, ButLast, ReservedUrls, PutBack;
    var s', item := RollbackOne(s), Item(s.nextOrder, r.url, p);
    TakenAreCopies(s);
    forall c, d | c in s'.pool && d in Taken(s') && c.url == d.url
      ensures d.request.token < c.request.token || PutBack(s', c)
    {
      if c.url == r.url {
        ReservedNotPutBack(s, r.url);
        if d.request.token >= p.token {
          NoneInPool(s, r, p, d);
          OnlyCopyPutBack(s, s', item);
        }
      } else if PutBack(s, c) {
        KnownUrl(s, c);
        OthersPutBack(s, s', c, r.url);
      }
    }
  }

  lemma ReservedNotPutBack(s: State, url: string)
    requires url in ReservedUrls(s.reserved)
    ensures forall c: Item :: c.url == url ==> !PutBack(s, c)
  {
  }

  lemma NoneInPool(s: State, r: Reservation, p: Request, d: Item)
    requires PoolNewerOrPutBack(s) && r.previous == Some(p) && ReservationHolds(r, Copies(s), s.queued, s.callers)
    requires forall c: Item :: c.url == r.url ==> !PutBack(s, c)
    requires d in Taken(s) && d.url == r.url && d.request.token >= p.token
    ensures forall x :: x in s.pool ==> x.url != r.url
  {
    hide JoinAll, ButLast, PutBack;
    TakenAreCopies(s);
  }

  lemma OnlyCopyPutBack(s: State, s': State, item: Item)
    requires item.url !in ReservedUrls(s'.reserved) && item.url in s'.queued && s'.queued[item.url] == item.request
    requires (forall x :: x in s.pool ==> x.url != item.url) && (forall x :: x in s'.pool <==> x in s.pool || x == item)
    ensures PutBack(s', item)
    ensures forall x :: x in s'.pool && x.url == item.url ==> x == item
  {
  }

  lemma {:induction false} RollbackUndoes(s: State)
    requires Undone(s)
    ensures Undone(RollbackAll(s)) && RollbackAll(s).reserved == []
    decreases |s.reserved|
  {
    if s.reserved != [] {
      if s.reserved[0].previous.None? {
        UndoneForgets(s);
      } else {
        UndonePuts(s);
      }
      hide Undone;
      RollbackUndoes(RollbackOne(s));
    }
  }

  lemma InvIsUndone(s: State)
    requires Inv(s) && Ordered(s)
    ensures Undone(s)
  {
    hide Covered, NothingLost, Reservations, Books, Shape, OrdersDiffer, PutBack;
  }

  /** A rolled-back queue that is not at risk is calm. */
  lemma NotRiskyIsCalm(s: State)
    requires Undone(s) && s.reserved == [] && !Risky(s)
    ensures Calm(s)
  {
    hide NothingLost, Books, Shape, OrdersDiffer, Harmless, Below, TwoAhead, Retiring;
    StayingAreCopies(s);
    forall c, d | c in s.pool && d in Taken(s) && c.url == d.url && Below(c.request, d.request)
      ensures Tolerated(s, c, d)
    {
      SameVersion(s, c, d);
      assert !Endangers(s, c, d);
    }
    forall c | c in Copies(s) ensures c.request.token < s.nextToken {
      CoveredTokens(s, c);
    }
  }

  lemma SameVersion(s: State, c: Item, d: Item)
    requires Covered(Copies(s), s.queued) && PoolNewerOrPutBack(s)
    requires c in s.pool && d in Taken(s) && c.url == d.url && Below(c.request, d.request)
    ensures c.request == d.request
  {
    TakenAreCopies(s);
  }

  lemma CoveredTokens(s: State, c: Item)
    requires Covered(Copies(s), s.queued) && Books(s.queued, s.callers, s.nextToken) && c in Copies(s)
    ensures c.request.token < s.nextToken
  {
  }

  // ---- a risky queue loses a fetch -------------------------------------------

  const Full := Policy(true, true, true)

  /** `d` runs, and its repetition `c` waits to be merged into the backlog after it. */
  ghost predicate Repeats(s: State, c: Item, d: Item) {
    && s.busy && s.held == [] && d in s.inflight && UniqueUrls(Taken(s))
    && c in s.pool && c.url == d.url && c.request == d.request
    && c.url in s.queued && s.queued[c.url] == c.request
    && (forall x :: x in s.pool && x.url == c.url ==> x == c)
  }

  lemma RiskyRepeats(t: State, c: Item, d: Item) returns (events: seq<Event>)
    requires Undone(t) && t.reserved == [] && Endangers(t, c, d)
    ensures forall e :: e in events ==> Ordinary(e)
    ensures Repeats(Run(t, events), c, d) && Run(t, events).reserved == [] && Shape(Run(t, events))
    ensures c.request.priority >= 1 || TwoAhead(Run(t, events), c)
  {
    hide Covered, NothingLost, Books, OrdersDiffer, UniqueUrls, Sorted, Ahead, Harmless, Chunk, Rest, CurrentOf, Start,
         TwoAhead;
    RetiringIsTaken(t, d);
    assert PutBack(t, c);
    if t.busy {
      assert Taken(t) != [];
      events := [];
    } else {
      ShapeWhenIdle(t);
      ChunkAndRest(t);
      assert t.pending != [] && Enabled(t, Starting);
      StartIs(t);
      StartKeepsShape(t);
      assert Current(t, d);
      events := [Starting];
      assert Run(t, events) == Start(t) by { assert events[1..] == []; }
      if c.request.priority == 0 {
        RestWhenBusy(Start(t));
        StillTwoAhead(t, Start(t), c);
      }
    }
  }

  lemma RestWhenBusy(s: State)
    requires s.busy
    ensures Rest(s) == s.pending
  {
  }

  lemma RetiringIsTaken(t: State, d: Item)
    requires Retiring(t, d)
    ensures d in Taken(t)
  {
  }

  lemma StillTwoAhead(s: State, s': State, c: Item)
    requires TwoAhead(s, c) && forall x :: x in Rest(s) + s.pool ==> x in Rest(s') + s'.pool
    ensures TwoAhead(s', c)
  {
    var x, y :| Ahead(s, x, c) && Ahead(s, y, c) && x.url != y.url;
    assert Ahead(s', x, c) && Ahead(s', y, c);
  }

  /** A URL whose item can be made to sort before `c`. */
  ghost predicate CanOvertake(s: State, c: Item, url: string) {
    url != c.url && (c.request.priority >= 1 || exists x :: x in s.pending + s.pool && x.url == url && x.order < c.order)
  }

  lemma Overtakers(s: State, c: Item) returns (a: string, b: string)
    requires s.busy && (c.request.priority >= 1 || TwoAhead(s, c))
    ensures a != b && CanOvertake(s, c, a) && CanOvertake(s, c, b)
  {
    if c.request.priority >= 1 {
      a, b := c.url + "x", c.url + "xx";
      assert |a| == |c.url| + 1 && |b| == |c.url| + 2;
    } else {
      var x, y :| Ahead(s, x, c) && Ahead(s, y, c) && x.url != y.url;
      a, b := x.url, y.url;
    }
  }

  lemma ReserveTwo(s: State, a: string, b: string)
    requires s.reserved == [] && a != b
    ensures Next(s, Reserving([a, b], 0, false, Full)) == ReserveOne(ReserveOne(s, a, 0, false, Full), b, 0, false, Full)
  {
    var s1 := ReserveOne(s, a, 0, false, Full);
    var s2 := ReserveOne(s1, b, 0, false, Full);
    assert [a, b][1..] == [b] && [b][1..] == [];
    assert ReserveAll(s2, [], 0, false, Full) == s2;
    assert ReserveAll(s1, [b], 0, false, Full) == s2;
  }

  lemma ReleaseTwo(s: State)
    requires |s.reserved| == 2
    ensures Next(s, Releasing) == ReleaseOne(ReleaseOne(s))
  {
    var s1 := ReleaseOne(s);
    assert |s1.reserved| == 1;
    StaleRollback.ReleaseOnly(s1);
    assert ReleaseAll(s1) == ReleaseOne(s1);
  }

  lemma ReserveRepeats(s: State, c: Item, d: Item, url: string)
    requires Repeats(s, c, d) && url != c.url
    ensures var t := ReserveOne(s, url, 0, false, Full);
            && Repeats(t, c, d) && t == s.(queued := t.queued, callers := t.callers, reserved := t.reserved,
                                           nextToken := t.nextToken)
            && |t.reserved| == |s.reserved| + 1 && t.reserved[..|s.reserved|] == s.reserved
            && (forall u :: u != url && u in s.queued ==> u in t.queued && t.queued[u] == s.queued[u])
            && url in t.queued && t.queued[url].priority == 0
            && t.reserved[|s.reserved|].url == url && t.reserved[|s.reserved|].request == t.queued[url]
  {
    hide UniqueUrls;
  }

  lemma ReleaseRepeats(s: State, c: Item, d: Item)
    requires Repeats(s, c, d) && s.reserved != []
    requires var r := s.reserved[0];
             r.url != c.url && r.request.priority == 0 && r.url in s.queued && s.queued[r.url] == r.request
    requires Sorted(s.pool)
    ensures var t := ReleaseOne(s);
            && Repeats(t, c, d) && t == s.(pool := t.pool, reserved := s.reserved[1..], nextOrder := t.nextOrder)
            && Sorted(t.pool) && (forall x :: x in s.pool ==> x in t.pool)
            && (exists x :: x in t.pool && x.url == s.reserved[0].url && x.request.priority == 0)
  {
    hide UniqueUrls, Sorted;
    var item := Item(s.nextOrder, s.reserved[0].url, s.reserved[0].request);
    InsertKeepsSorted(s.pool, item);
    assert item in ReleaseOne(s).pool;
  }

  /** Two other URLs are asked for with the better priority and released. */
  lemma Overtaking(s: State, c: Item, d: Item, a: string, b: string) returns (events: seq<Event>)
    requires Repeats(s, c, d) && s.reserved == [] && Shape(s) && a != b && a != c.url && b != c.url
    ensures forall e :: e in events ==> Ordinary(e)
    ensures var t := Run(s, events);
            && Repeats(t, c, d) && t.reserved == [] && Shape(t) && t.pending == s.pending
            && (forall x :: x in s.pool ==> x in t.pool)
            && (exists x :: x in t.pool && x.url == a && x.request.priority == 0)
            && (exists x :: x in t.pool && x.url == b && x.request.priority == 0)
  {
    hide UniqueUrls, Repeats, ReserveOne, ReleaseOne, Sorted;
    events := [Reserving([a, b], 0, false, Full), Releasing];
    ReserveTwo(s, a, b);
    var s1 := ReserveOne(s, a, 0, false, Full);
    ReserveRepeats(s, c, d, a);
    var s2 := ReserveOne(s1, b, 0, false, Full);
    ReserveRepeats(s1, c, d, b);
    ReleaseTwo(s2);
    var s3 := ReleaseOne(s2);
    assert s2.reserved[0] == s1.reserved[0];
    ReleaseRepeats(s2, c, d);
    var s4 := ReleaseOne(s3);
    ReleaseRepeats(s3, c, d);
    ShapeAfterReleases(s, s4);
    assert events[1..] == [Releasing] && [Releasing][1..] == [];
    assert Run(s, events) == Run(s2, [Releasing]) == Run(s4, []);
  }

  /** The repetition outlives the version it repeats, behind a whole chunk. */
  lemma OutlivesIt(s: State, c: Item, d: Item, a: string, b: string)
    requires Repeats(s, c, d) && s.reserved == [] && Shape(s) && a != b && CanOvertake(s, c, a) && CanOvertake(s, c, b)
    requires exists x :: x in s.pool && x.url == a && x.request.priority == 0
    requires exists x :: x in s.pool && x.url == b && x.request.priority == 0
    ensures var f := Finish(s);
            && c in Rest(f) && c.url !in f.queued && Shape(f)
            && !f.busy && f.pool == [] && f.held == [] && f.reserved == [] && f.inflight == []
  {
    hide Coalesces, KeepsOldest, Books, Below, Finish, Sort, UniqueUrls, Sorted, NotAfter, Rest;
    var f, items := Finish(s), Sort(s.pending + s.pool);
    FinishIs(s);
    FinishCopies(s);
    CoalescedShape(f.pending, items);
    assert Popped(s, c.url);
    JoinOfOne(items, f.pending, c);
    var x := OvertakesIt(s, items, f.pending, c, a);
    var y := OvertakesIt(s, items, f.pending, c, b);
    BehindTwo(f, x, y, c);
  }

  lemma JoinOfOne(items: seq<Item>, r: seq<Item>, c: Item)
    requires Coalesces(r, items) && (forall j :: j in r ==> KeepsOldest(j, items))
    requires c in items && forall x :: x in items && x.url == c.url ==> x == c
    ensures c in r
  {
    hide Coalesces;
    assert BoundsCopies(c.request, items, c.url);
    JoinIsExact(items, r, c);
    var j :| j in r && j.url == c.url && j.request == c.request;
    assert KeepsOldest(j, items);
  }

  lemma OvertakesIt(s: State, items: seq<Item>, r: seq<Item>, c: Item, url: string) returns (j: Item)
    requires Coalesces(r, items) && (forall i :: i in r ==> KeepsOldest(i, items))
    requires (forall i :: i in items <==> i in s.pending + s.pool) && CanOvertake(s, c, url)
    requires exists x :: x in s.pool && x.url == url && x.request.priority == 0
    ensures j in r && j.url == url && !NotAfter(c, j)
  {
    hide Coalesces;
    var x :| x in s.pool && x.url == url && x.request.priority == 0;
    assert x in items;
    j := ItemFor(items, r, x);
    CopiesBelow(items, r, j);
    assert KeepsOldest(j, items);
  }

  lemma ItemFor(items: seq<Item>, r: seq<Item>, x: Item) returns (j: Item)
    requires Coalesces(r, items) && x in items
    ensures j in r && j.url == x.url
  {
    j :| j in r && j.url == x.url;
  }

  lemma BehindTwo(f: State, x: Item, y: Item, c: Item)
    requires Sorted(f.pending) && x in f.pending && y in f.pending && c in f.pending && x.url != y.url && !f.busy
    requires !NotAfter(c, x) && !NotAfter(c, y) && x != c && y != c
    ensures c in Rest(f)
  {
    hide NotAfter;
    var r := f.pending;
    var i :| 0 <= i < |r| && r[i] == x;
    var j :| 0 <= j < |r| && r[j] == y;
    var k :| 0 <= k < |r| && r[k] == c;
    assert i < k && j < k && i != j;
    assert r[Width..][k - Width] == c;
  }

  /** The next chunk starts; the stale copy stays behind. */
  lemma StaleStays(f: State, c: Item)
    requires Shape(f) && !f.busy && c in Rest(f) && f.inflight == []
    ensures Enabled(f, Starting)
    ensures var g := Start(f);
            && g == f.(busy := true, pending := Rest(f), inflight := g.inflight)
            && Shape(g) && (forall x :: x in g.inflight ==> x.url != c.url)
  {
    hide UniqueUrls, Chunk, Rest, CurrentOf, Start;
    ChunkAndRest(f);
    StartIs(f);
    StartKeepsShape(f);
    var g := Start(f);
    UniqueJoin(g.pending, g.inflight);
  }

  /** A request the stale copy does not fit is accepted, and joined out of existence. */
  lemma StaleSwallows(g: State, c: Item)
    requires Shape(g) && g.busy && g.pool == [] && g.held == [] && g.reserved == []
    requires c in g.pending && c.url !in g.queued && !Harmless(c.request)
    requires forall x :: x in g.inflight ==> x.url != c.url
    ensures HasLost(Next(Next(Next(g, Reserving([c.url], 1, false, Full)), Releasing), Finishing))
  {
    hide Coalesces, KeepsOldest, Books, Below, Finish, Sort, UniqueUrls, Sorted, Copies;
    var r := Request(1, false, Full, g.nextToken);
    StaleRollback.ReserveOnly(g, c.url, 1, false, Full);
    var g1 := ReserveOne(g, c.url, 1, false, Full);
    assert g1.reserved == [Reservation(c.url, r, None)];
    StaleRollback.ReleaseOnly(g1);
    var g2 := ReleaseOne(g1);
    assert g2.reserved == [] && g2.pool == [Item(g.nextOrder, c.url, r)] by { assert g1.reserved[1..] == []; }
    ShapeSameTaken(g, g2);
    FinishIs(g2);
    var z, items := Finish(g2), Sort(g2.pending + g2.pool);
    assert c.url in z.queued && z.queued[c.url] == r && c in items;
    forall j | j in z.pending && j.url == c.url ensures j.request != r {
      CopiesBelow(items, z.pending, j);
      NotAbsorbed(c.request, r);
    }
    assert !Outstanding(Copies(z), c.url, r);
    assert c.url !in ReservedUrls(z.reserved);
  }

  lemma NotAbsorbed(p: Request, r: Request)
    requires !Harmless(p) && r.priority == 1 && !r.force && r.policy == Full
    ensures !Below(p, r)
  {
  }

  lemma ShapeSameTaken(g: State, g2: State)
    requires Shape(g) && g2.pending == g.pending && g2.inflight == g.inflight && g2.busy == g.busy && g2.held == g.held
    requires |g2.pool| <= 1
    ensures Shape(g2)
  {
  }

  lemma ShapeAfterReleases(s: State, t: State)
    requires Shape(s) && t.pending == s.pending && t.inflight == s.inflight && t.busy == s.busy && t.held == s.held
    requires Sorted(t.pool)
    ensures Shape(t)
  {
  }

  lemma RiskyLoses(t: State, c: Item, d: Item) returns (events: seq<Event>)
    requires Undone(t) && t.reserved == [] && Endangers(t, c, d)
    ensures (forall e :: e in events ==> Ordinary(e)) && HasLost(Run(t, events))
  {
    hide Undone, Repeats, Shape, HasLost, Ordinary, TwoAhead, CanOvertake, Harmless, Finish, Start, Rest, Next, Run;
    var first := RiskyRepeats(t, c, d);
    var s1 := Run(t, first);
    assert s1.busy by { Repeating(s1, c, d); }
    var a, b := Overtakers(s1, c);
    assert a != c.url && b != c.url by { OvertakersDiffer(s1, c, a, b); }
    var second := Overtaking(s1, c, d, a, b);
    var s2 := Run(s1, second);
    Repeating(s2, c, d);
    CanStillOvertake(s1, s2, c, a);
    CanStillOvertake(s1, s2, c, b);
    OutlivesIt(s2, c, d, a, b);
    var f := Finish(s2);
    StaleStays(f, c);
    StaleSwallows(Start(f), c);
    var third := [Finishing, Starting, Reserving([c.url], 1, false, Full), Releasing, Finishing];
    LastFive(s2, f, c);
    assert forall e :: e in third ==> Ordinary(e) by { AllOrdinary(c.url); }
    StaleRollback.RunConcat(s1, second, third);
    StaleRollback.RunConcat(t, first, second + third);
    events := first + (second + third);
  }

  lemma AllOrdinary(u: string)
    ensures forall e :: e in [Finishing, Starting, Reserving([u], 1, false, Full), Releasing, Finishing] ==> Ordinary(e)
  {
  }

  lemma Repeating(s: State, c: Item, d: Item)
    requires Repeats(s, c, d)
    ensures s.busy
  {
  }

  lemma OvertakersDiffer(s: State, c: Item, a: string, b: string)
    requires CanOvertake(s, c, a) && CanOvertake(s, c, b)
    ensures a != c.url && b != c.url
  {
  }

  lemma CanStillOvertake(s: State, s': State, c: Item, url: string)
    requires CanOvertake(s, c, url) && s'.pending == s.pending && forall x :: x in s.pool ==> x in s'.pool
    ensures CanOvertake(s', c, url)
  {
  }

  lemma LastFive(s: State, f: State, c: Item)
    requires s.busy && f == Finish(s) && Enabled(f, Starting)
    ensures Run(s, [Finishing, Starting, Reserving([c.url], 1, false, Full), Releasing, Finishing])
         == Next(Next(Next(Start(f), Reserving([c.url], 1, false, Full)), Releasing), Finishing)
  {
    hide Finish, Start, ReserveAll, ReleaseAll;
    var g := Start(f);
    var g1 := Next(g, Reserving([c.url], 1, false, Full));
    var g2 := Next(g1, Releasing);
    StaleRollback.RunThrough([s, f, g, g1, g2, Next(g2, Finishing)],
                             [Finishing, Starting, Reserving([c.url], 1, false, Full), Releasing, Finishing]);
  }

  /** The exact condition: undoing a reservation can lose somebody's fetch if and only if it puts
      back a version that the worker is about to retire, that matters to later requests, and that
      two other URLs can overtake. */
  lemma RollbackLosesIff(s: State)
    requires Inv(s) && Ordered(s)
    ensures Loses(s) <==> Risky(RollbackAll(s))
  {
    hide Inv, Undone, Endangers, HasLost, Run;
    InvIsUndone(s);
    RollbackUndoes(s);
    var t := RollbackAll(s);
    if Risky(t) {
      var c, d :| Endangers(t, c, d);
      var events := RiskyLoses(t, c, d);
      assert LosesBy(s, events);
    } else {
      NotRiskyIsCalm(t);
      forall events ensures !LosesBy(s, events) {
        if forall e :: e in events ==> Ordinary(e) {
          RunStaysCalm(t, events);
        }
      }
    }
  }

  // ---- what a caller can check -----------------------------------------------

  /** Nothing the reservations replaced is sensitive: each URL was not pending, or its pending
      request asks for nothing that every later request does not grant. */
  predicate NothingAtStake(reserved: seq<Reservation>) {
    forall r :: r in reserved && r.previous.Some? ==> Harmless(r.previous.value)
  }

  /** Every copy the rollback adds repeats a replaced request. */
  lemma {:induction false} PutBackWasReplaced(s: State)
    ensures forall c :: c in RollbackAll(s).pool ==>
      c in s.pool || exists r :: r in s.reserved && r.previous == Some(c.request)
    decreases |s.reserved|
  {
    if s.reserved != [] {
      var s', r := RollbackOne(s), s.reserved[0];
      PutBackWasReplaced(s');
      assert forall q :: q in s'.reserved ==> q in s.reserved;
      assert r in s.reserved;
    }
  }

  lemma EndangersIsPutBack(s: State, c: Item, d: Item)
    requires Inv(s) && Endangers(RollbackAll(s), c, d)
    ensures c !in s.pool
  {
    hide Covered, NothingLost, Reservations, Books, Harmless, TwoAhead, RollbackAll;
    RollbackLeavesTaken(s);
    RetiringIsTaken(RollbackAll(s), d);
  }

  /** A failing callback is no danger when nothing is at stake. */
  lemma NothingAtStakeIsSafe(s: State)
    requires Inv(s) && Ordered(s) && NothingAtStake(s.reserved)
    ensures !Loses(s)
  {
    hide Inv, Loses, OrdersDiffer, Harmless;
    RollbackLosesIff(s);
    PutBackWasReplaced(s);
    forall c, d ensures !Endangers(RollbackAll(s), c, d) {
      if Endangers(RollbackAll(s), c, d) {
        EndangersIsPutBack(s, c, d);
      }
    }
  }

  /** Work of the worker between reservation and rollback. */
  predicate OfWorker(e: Event) {
    e.Taking? || e.Draining? || e.Starting? || e.Finishing?
  }

  lemma {:induction false} ReservedReplaces(s: State, urls: seq<string>, priority: nat, force: bool, policy: Policy)
    requires Distinct(urls)
    ensures forall r :: r in ReserveAll(s, urls, priority, force, policy).reserved ==>
      r in s.reserved ||
      (r.url in urls && r.previous == if r.url in s.queued then Some(s.queued[r.url]) else None)
    decreases |urls|
  {
    if urls != [] {
      var s' := ReserveOne(s, urls[0], priority, force, policy);
      ReservedReplaces(s', urls[1..], priority, force, policy);
      assert forall u :: u in urls[1..] ==> u in urls && u != urls[0];
      assert urls[0] in urls;
    }
  }

  lemma {:induction false} WorkerKeepsReserved(s: State, events: seq<Event>)
    requires forall e :: e in events ==> OfWorker(e)
    ensures Run(s, events).reserved == s.reserved
    decreases |events|
  {
    if events != [] {
      hide Sort, Deduped, StartSome, FinishAll, Enabled;
      assert events[0] in events && forall e :: e in events[1..] ==> e in events;
      StartSomeFrame(s.(busy := true), Width);
      FinishAllIs(s);
      WorkerKeepsReserved(Next(s, events[0]), events[1..]);
    }
  }

  /** A call whose URLs are not pending, or pending with nothing at stake, may fail in its callback
      at any later moment: no run of the program loses a fetch by it. */
  lemma FailingCallIsSafe(s: State, urls: seq<string>, priority: nat, force: bool, policy: Policy, work: seq<Event>)
    requires Inv(s) && Ordered(s) && s.reserved == [] && Distinct(urls)
    requires forall u :: u in urls && u in s.queued ==> Harmless(s.queued[u])
    requires forall e :: e in work ==> OfWorker(e)
    ensures !Loses(Run(Next(s, Reserving(urls, priority, force, policy)), work))
  {
    hide Inv, Loses, Harmless, OrdersDiffer, Run, ReserveAll;
    var e := Reserving(urls, priority, force, policy);
    var s1 := Next(s, e);
    ReservedReplaces(s, urls, priority, force, policy);
    NextKeepsInv(s, e);
    WorkerKeepsReserved(s1, work);
    NoRollbackIsSafe(s1, work);
    RunKeepsInv(s1, work);
    NextKeepsOrders(s, e);
    RunKeepsOrders(s1, work);
    NothingAtStakeIsSafe(Run(s1, work));
  }

  lemma {:induction false} NoRollbackIsSafe(s: State, events: seq<Event>)
    requires forall e :: e in events ==> !e.RollingBack?
    ensures SafeRun(s, events)
    decreases |events|
  {
    if events != [] {
      assert events[0] in events && forall e :: e in events[1..] ==> e in events;
      NoRollbackIsSafe(Next(s, events[0]), events[1..]);
    }
  }

  // ---- orders differ in every run

  lemma {:induction false} ReserveAllKeepsOrders(s: State, urls: seq<string>, priority: nat, force: bool,
                                                 policy: Policy)
    ensures var t := ReserveAll(s, urls, priority, force, policy);
            Copies(t) == Copies(s) && t.nextOrder == s.nextOrder
    decreases |urls|
  {
    if urls != [] {
      var s' := ReserveOne(s, urls[0], priority, force, policy);
      SameCopies(s, s');
      ReserveAllKeepsOrders(s', urls[1..], priority, force, policy);
    }
  }

  lemma PutKeepsOrders(s: State, url: string, request: Request)
    requires Ordered(s)
    ensures Ordered(Put(s, url, request))
  {
    hide OrdersDiffer, Copies;
    CopiesAfterPut(s, url, request);
    OrdersAfterPut(Copies(s), s.nextOrder, Item(s.nextOrder, url, request));
  }

  lemma {:induction false} ReleaseAllKeepsOrders(s: State)
    requires Ordered(s)
    ensures Ordered(ReleaseAll(s))
    decreases |s.reserved|
  {
    if s.reserved != [] {
      hide OrdersDiffer, Copies;
      var r, s1 := s.reserved[0], s.(reserved := s.reserved[1..]);
      SameCopies(s, s1);
      PutKeepsOrders(s1, r.url, r.request);
      ReleaseAllKeepsOrders(ReleaseOne(s));
    }
  }

  lemma {:induction false} RollbackAllKeepsOrders(s: State)
    requires Ordered(s)
    ensures Ordered(RollbackAll(s))
    decreases |s.reserved|
  {
    if s.reserved != [] {
      hide OrdersDiffer, Copies;
      var r, s' := s.reserved[0], RollbackOne(s);
      if r.previous.Some? && r.url in s.queued && s.queued[r.url] == r.request {
        var kept := s.(reserved := s'.reserved, queued := s'.queued, callers := s'.callers);
        SameCopies(s, kept);
        PutKeepsOrders(kept, r.url, r.previous.value);
      } else {
        SameCopies(s, s');
      }
      RollbackAllKeepsOrders(s');
    }
  }

  lemma FewerKeepOrders(s: State, s': State)
    requires Ordered(s) && Copies(s') <= Copies(s) && s'.nextOrder == s.nextOrder
    ensures Ordered(s')
  {
  }

  lemma JoinedKeepOrders(s: State, items: seq<Item>, s': State)
    requires Ordered(s) && (forall c :: c in items ==> c in Copies(s)) && s'.nextOrder == s.nextOrder
    requires forall c :: c in Copies(s') ==> c in Deduped(items) || c in Copies(s)
    ensures Ordered(s')
  {
    hide Coalesces, Deduped, Copies;
    DedupedKeepOldest(items);
  }

  lemma {:induction false} StartSomeTakesCopies(s: State, n: nat)
    ensures Copies(StartSome(s, n)) <= Copies(s) && StartSome(s, n).nextOrder == s.nextOrder
    decreases n
  {
    if n != 0 && s.pending != [] {
      var s' := StartOne(s);
      assert s.pending == [s.pending[0]] + s.pending[1..];
      assert Copies(s') <= Copies(s);
      StartSomeTakesCopies(s', n - 1);
    }
  }

  lemma FinishKeepsOrders(s: State)
    requires Ordered(s)
    ensures Ordered(Finish(s))
  {
    hide OrdersDiffer, Sort, Deduped, FinishAll, Popped;
    FinishAllIs(s);
    JoinedKeepOrders(s, Sort(s.pending + s.pool), Finish(s));
  }

  lemma NextKeepsOrders(s: State, e: Event)
    requires Ordered(s)
    ensures Ordered(Next(s, e))
  {
    hide OrdersDiffer, Sort, Deduped, StartSome, Finish;
    if Enabled(s, e) {
      match e
      case Reserving(urls, priority, force, policy) => ReserveAllKeepsOrders(s, urls, priority, force, policy);
      case Releasing => ReleaseAllKeepsOrders(s);
      case RollingBack => RollbackAllKeepsOrders(s);
      case Taking =>
        assert s.pool == [s.pool[0]] + s.pool[1..];
        FewerKeepOrders(s, Take(s));
      case Draining => JoinedKeepOrders(s, Sort(s.held + s.pool), Drain(s));
      case Starting =>
        SameCopies(s, s.(busy := true));
        StartSomeTakesCopies(s.(busy := true), Width);
        FewerKeepOrders(s, Start(s));
      case Finishing => FinishKeepsOrders(s);
    }
  }

  lemma {:induction false} RunKeepsOrders(s: State, events: seq<Event>)
    requires Ordered(s)
    ensures Ordered(Run(s, events))
    decreases |events|
  {
    if events != [] {
      hide Ordered;
      NextKeepsOrders(s, events[0]);
      RunKeepsOrders(Next(s, events[0]), events[1..]);
    }
  }

  // ---- from the empty queue --------------------------------------------------

  /** The queue while a forced fetch runs and the same URL has been reserved again. */
  function ReservedAgain(u: string, p: Policy): State {
    ReserveOne(StaleRollback.Running(u, p), u, 1, true, p)
  }

  /** The danger is real: from the empty queue the program reaches a reservation whose failing
      callback loses somebody's fetch in some continuation. */
  lemma ReachesLoss(u: string, p: Policy) returns (events: seq<Event>)
    ensures Run(Initial, events) == ReservedAgain(u, p)
    ensures Inv(ReservedAgain(u, p)) && Ordered(ReservedAgain(u, p)) && Loses(ReservedAgain(u, p))
  {
    hide Inv, Ordered, Loses, Run, Risky, ReserveAll;
    var first := [Reserving([u], 1, true, p), Releasing, Taking, Draining, Starting];
    StaleRollback.FirstFetchStarts(u, p);
    var s := StaleRollback.Running(u, p);
    StaleRollback.ReserveOnly(s, u, 1, true, p);
    var again := [Reserving([u], 1, true, p)];
    StaleRollback.RunThrough([s, ReservedAgain(u, p)], again);
    StaleRollback.RunConcat(Initial, first, again);
    events := first + again;
    InitialHolds();
    assert Ordered(Initial) by { EmptyIsOrdered(); }
    NoRollbackIsSafe(Initial, events);
    RunKeepsInv(Initial, events);
    RunKeepsOrders(Initial, events);
    RollbackRepeatsRunning(u, p);
    RollbackLosesIff(ReservedAgain(u, p));
  }

  lemma EmptyIsOrdered()
    ensures Ordered(Initial)
  {
  }

  lemma RollbackRepeatsRunning(u: string, p: Policy)
    ensures Risky(RollbackAll(ReservedAgain(u, p)))
  {
    var s := StaleRollback.Running(u, p);
    StaleRollback.SecondReservation(s, u, p);
    StaleRollback.ReleaseOnly(ReservedAgain(u, p));
    var t := StaleRollback.RolledBack(u, p);
    assert RollbackAll(ReservedAgain(u, p)) == t;
    assert Endangers(t, t.pool[0], t.inflight[0]);
  }
}
