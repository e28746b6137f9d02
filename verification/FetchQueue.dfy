/** The coalescing queue of config fetches (core/catalogue_stem_cache.py): one request per URL,
    joined from every caller, reserved before it becomes executable, and run by one worker. */
module FetchQueue {
  import opened Text

  datatype Policy = Policy(network: bool, metadataWrites: bool, cacheWrites: bool)

  datatype Request = Request(priority: nat, force: bool, policy: Policy, token: nat)

  datatype Item = Item(order: nat, url: string, request: Request)

  // ---- the join of two requests ----------------------------------------------

  function Merge(a: Policy, b: Policy): Policy {
    Policy(a.network && b.network, a.metadataWrites && b.metadataWrites, a.cacheWrites && b.cacheWrites)
  }

  /** `_merge_queued_request` */
  function Join(a: Request, b: Request): Request {
    Request(if a.priority <= b.priority then a.priority else b.priority, a.force || b.force, Merge(a.policy, b.policy),
            if a.token >= b.token then a.token else b.token)
  }

  /** `b` serves the caller of `a` and grants nothing `a` does not. */
  predicate Below(a: Request, b: Request) {
    && b.priority <= a.priority
    && (a.force ==> b.force)
    && (b.policy.network ==> a.policy.network)
    && (b.policy.metadataWrites ==> a.policy.metadataWrites)
    && (b.policy.cacheWrites ==> a.policy.cacheWrites)
    && a.token <= b.token
  }

  lemma JoinIsSemilattice(a: Request, b: Request, c: Request)
    ensures Join(a, Join(b, c)) == Join(Join(a, b), c)
    ensures Join(a, b) == Join(b, a) && Join(a, a) == a
    ensures Below(a, b) <==> Join(a, b) == b
    ensures Below(Join(a, b), c) <==> Below(a, c) && Below(b, c)
  {
  }

  function JoinAll(requests: seq<Request>): Request
    requires requests != []
  {
    var n := |requests| - 1;
    if n == 0 then requests[0] else Join(JoinAll(requests[..n]), requests[n])
  }

  /** What a joined request may do, told by its callers alone. */
  ghost predicate LeastPrivilege(r: Request, callers: seq<Request>) {
    && (r.policy.network <==> forall c :: c in callers ==> c.policy.network)
    && (r.policy.metadataWrites <==> forall c :: c in callers ==> c.policy.metadataWrites)
    && (r.policy.cacheWrites <==> forall c :: c in callers ==> c.policy.cacheWrites)
    && (r.force <==> exists c :: c in callers && c.force)
    && (forall c :: c in callers ==> r.priority <= c.priority)
    && (exists c :: c in callers && c.priority == r.priority)
    && (forall c :: c in callers ==> c.token <= r.token)
    && (exists c :: c in callers && c.token == r.token)
  }

  lemma LeastPrivilegeJoins(r: Request, before: seq<Request>, last: Request, callers: seq<Request>)
    requires LeastPrivilege(r, before) && callers == before + [last]
    ensures LeastPrivilege(Join(r, last), callers)
  {
    assert last in callers && forall c :: c in before ==> c in callers;
    assert forall c :: c in callers ==> c in before || c == last;
  }

  lemma {:induction false} JoinAllIsLeastPrivilege(requests: seq<Request>)
    requires requests != []
    ensures LeastPrivilege(JoinAll(requests), requests)
  {
    var n := |requests| - 1;
    if n == 0 {
      assert requests[0] in requests;
      assert forall c :: c in requests ==> c == requests[0];
    } else {
      hide LeastPrivilege;
      JoinAllIsLeastPrivilege(requests[..n]);
      LeastPrivilegeJoins(JoinAll(requests[..n]), requests[..n], requests[n], requests);
    }
  }

  // ---- ordering and deduplication --------------------------------------------

  predicate NotAfter(a: Item, b: Item) {
    a.request.priority < b.request.priority || (a.request.priority == b.request.priority && a.order <= b.order)
  }

  predicate Sorted(items: seq<Item>) {
    forall i, j :: 0 <= i < j < |items| ==> NotAfter(items[i], items[j])
  }

  predicate UniqueUrls(items: seq<Item>) {
    forall i, j :: 0 <= i < j < |items| ==> items[i].url != items[j].url
  }

  function Insert(items: seq<Item>, x: Item): (r: seq<Item>)
    ensures |r| == |items| + 1
    ensures forall c :: c in r <==> c == x || c in items
  {
    if items == [] || NotAfter(x, items[0]) then [x] + items
    else
      assert items == [items[0]] + items[1..];
      [items[0]] + Insert(items[1..], x)
  }

  lemma {:induction false} InsertKeepsSorted(items: seq<Item>, x: Item)
    requires Sorted(items)
    ensures Sorted(Insert(items, x))
  {
    if items != [] && !NotAfter(x, items[0]) {
      var rest := Insert(items[1..], x);
      InsertKeepsSorted(items[1..], x);
      assert forall j :: 0 <= j < |rest| ==> rest[j] in rest;
      forall c | c in rest ensures NotAfter(items[0], c) {
        assert c == x || c in items[1..];
      }
    }
  }

  lemma {:induction false} InsertKeepsUnique(items: seq<Item>, x: Item)
    requires UniqueUrls(items) && forall c :: c in items ==> c.url != x.url
    ensures UniqueUrls(Insert(items, x))
  {
    if items != [] && !NotAfter(x, items[0]) {
      var rest := Insert(items[1..], x);
      InsertKeepsUnique(items[1..], x);
      assert forall j :: 0 <= j < |rest| ==> rest[j] in rest;
      assert forall c :: c in items[1..] ==> c.url != items[0].url;
    }
  }

  function Sort(items: seq<Item>): (r: seq<Item>)
    ensures |r| == |items|
    ensures forall c :: c in r <==> c in items
  {
    if items == [] then []
    else
      var n := |items| - 1;
      assert items == items[..n] + [items[n]];
      Insert(Sort(items[..n]), items[n])
  }

  lemma {:induction false} SortSorts(items: seq<Item>)
    ensures Sorted(Sort(items))
    ensures UniqueUrls(items) ==> UniqueUrls(Sort(items))
  {
    if items != [] {
      var n := |items| - 1;
      SortSorts(items[..n]);
      InsertKeepsSorted(Sort(items[..n]), items[n]);
      if UniqueUrls(items) {
        InsertKeepsUnique(Sort(items[..n]), items[n]);
      }
    }
  }

  function Absorbed(a: Item, b: Item): Item {
    Item(if a.order <= b.order then a.order else b.order, a.url, Join(a.request, b.request))
  }

  /** The copies of one URL, joined from first to last. */
  function Joined(items: seq<Item>, url: string): (r: Option<Item>)
    ensures r.Some? <==> exists c :: c in items && c.url == url
    ensures r.Some? ==> r.value.url == url
  {
    if items == [] then None
    else
      var n := |items| - 1;
      assert items == items[..n] + [items[n]];
      var before := Joined(items[..n], url);
      if items[n].url != url then before
      else if before.None? then Some(items[n])
      else Some(Absorbed(before.value, items[n]))
  }

  /** The URLs in order of first appearance. */
  function FirstUrls(items: seq<Item>): (r: seq<string>)
    ensures |r| <= |items|
    ensures forall u :: u in r <==> Joined(items, u).Some?
    ensures forall i, j :: 0 <= i < j < |r| ==> r[i] != r[j]
  {
    if items == [] then []
    else
      var n := |items| - 1;
      assert items == items[..n] + [items[n]];
      var before := FirstUrls(items[..n]);
      if items[n].url in before then before else before + [items[n].url]
  }

  function Joins(items: seq<Item>): (r: seq<Item>)
    ensures |r| == |FirstUrls(items)|
    ensures forall k :: 0 <= k < |r| ==> Joined(items, FirstUrls(items)[k]) == Some(r[k])
  {
    var urls := FirstUrls(items);
    assert forall k :: 0 <= k < |urls| ==> urls[k] in urls && Joined(items, urls[k]).Some?;
    seq(|urls|, k requires 0 <= k < |urls| => Joined(items, urls[k]).value)
  }

  /** `_dedupe_sorted` */
  function Deduped(items: seq<Item>): (r: seq<Item>)
    ensures |r| <= |items|
  {
    Sort(Joins(items))
  }

  /** `d` joins exactly the copies of its URL in `items`: it is their least upper bound. */
  ghost predicate JoinsCopies(d: Item, items: seq<Item>) {
    && (exists c :: c in items && c.url == d.url)
    && (forall c :: c in items && c.url == d.url ==> Below(c.request, d.request))
    && (forall bound :: BoundsCopies(bound, items, d.url) ==> Below(d.request, bound))
  }

  ghost predicate BoundsCopies(bound: Request, items: seq<Item>, url: string) {
    forall c :: c in items && c.url == url ==> Below(c.request, bound)
  }

  ghost predicate Coalesces(r: seq<Item>, items: seq<Item>) {
    && UniqueUrls(r) && Sorted(r)
    && (forall d :: d in r ==> JoinsCopies(d, items))
    && (forall c :: c in items ==> exists d :: d in r && d.url == c.url)
  }

  lemma {:induction false} JoinedIsLeastBound(items: seq<Item>, url: string, bound: Request)
    requires Joined(items, url).Some?
    ensures forall c :: c in items && c.url == url ==> Below(c.request, Joined(items, url).value.request)
    ensures BoundsCopies(bound, items, url) ==> Below(Joined(items, url).value.request, bound)
  {
    var n := |items| - 1;
    var before, last := items[..n], items[n];
    assert items == before + [last];
    if Joined(before, url).Some? {
      JoinedIsLeastBound(before, url, bound);
      JoinIsSemilattice(Joined(before, url).value.request, last.request, bound);
    }
  }

  lemma JoinedJoinsCopies(items: seq<Item>, url: string)
    requires Joined(items, url).Some?
    ensures JoinsCopies(Joined(items, url).value, items)
  {
    hide Joined;
    var d := Joined(items, url).value;
    JoinedIsLeastBound(items, url, d.request);
    forall bound | BoundsCopies(bound, items, url) ensures Below(d.request, bound) {
      JoinedIsLeastBound(items, url, bound);
    }
  }

  lemma JoinsMembers(items: seq<Item>)
    ensures UniqueUrls(Joins(items))
    ensures forall d :: d in Joins(items) ==> Joined(items, d.url) == Some(d)
    ensures forall c :: c in items ==> exists d :: d in Joins(items) && d.url == c.url
  {
    hide Joined, Joins;
    var urls, joins := FirstUrls(items), Joins(items);
    forall c | c in items ensures exists d :: d in joins && d.url == c.url {
      assert Joined(items, c.url).Some? && c.url in urls;
      var k :| 0 <= k < |urls| && urls[k] == c.url;
      assert joins[k] in joins;
    }
  }

  /** Deduplication keeps one item per URL, the join of that URL's copies and nothing else. */
  lemma DedupedCoalesces(items: seq<Item>)
    ensures Coalesces(Deduped(items), items)
  {
    hide Joined, Joins, JoinsCopies;
    JoinsMembers(items);
    SortSorts(Joins(items));
    forall d | d in Joins(items) ensures JoinsCopies(d, items) {
      JoinedJoinsCopies(items, d.url);
    }
  }

  /** The loop's dictionary, with its keys in order of insertion, after reading `items`. */
  ghost predicate Tracks(selected: map<string, Item>, order: seq<string>, items: seq<Item>) {
    && order == FirstUrls(items)
    && (forall u :: u in order <==> u in selected)
    && (forall u :: u in selected ==> Joined(items, u) == Some(selected[u]))
  }

  function Merged(selected: map<string, Item>, item: Item): map<string, Item> {
    selected[item.url := if item.url in selected then Absorbed(selected[item.url], item) else item]
  }

  lemma TracksNext(selected: map<string, Item>, order: seq<string>, items: seq<Item>, k: nat)
    requires k < |items| && Tracks(selected, order, items[..k])
    ensures Tracks(Merged(selected, items[k]), if items[k].url in selected then order else order + [items[k].url],
                   items[..k + 1])
  {
    assert items[..k + 1][..k] == items[..k];
  }

  function ValuesOf(selected: map<string, Item>, order: seq<string>): seq<Item>
    requires forall u :: u in order ==> u in selected
  {
    seq(|order|, k requires 0 <= k < |order| => assert order[k] in order; selected[order[k]])
  }

  lemma ValuesAreJoins(selected: map<string, Item>, order: seq<string>, items: seq<Item>)
    requires Tracks(selected, order, items)
    ensures forall u :: u in order ==> u in selected
    ensures ValuesOf(selected, order) == Joins(items)
  {
    hide Joined, FirstUrls;
    assert forall k :: 0 <= k < |order| ==> order[k] in order;
  }

  method DedupeSorted(items: seq<Item>) returns (r: seq<Item>)
    ensures r == Deduped(items)
    ensures Coalesces(r, items)
  {
    hide Coalesces, Joins, Tracks, ValuesOf, Sort;
    var selected: map<string, Item>, order: seq<string> := map[], [];
    NothingTracked(items);
    for k := 0 to |items|
      invariant Tracks(selected, order, items[..k])
    {
      var item := items[k];
      TracksNext(selected, order, items, k);
      if item.url in selected {
        selected := selected[item.url := Absorbed(selected[item.url], item)];
      } else {
        selected, order := selected[item.url := item], order + [item.url];
      }
    }
    assert items[..|items|] == items;
    ValuesAreJoins(selected, order, items);
    r := Sort(ValuesOf(selected, order));
    DedupedCoalesces(items);
  }

  lemma NothingTracked(items: seq<Item>)
    ensures Tracks(map[], [], items[..0])
  {
  }

  // ---- the state of the queue ------------------------------------------------

  /** One accepted URL whose item is not executable yet, with the request it replaced. */
  datatype Reservation = Reservation(url: string, request: Request, previous: Option<Request>)

  /** `pool` is the priority queue, `held` the item the worker took from it before draining,
      `pending` the worker's backlog, `inflight` the running chunk. `callers` records whose
      requests were coalesced into each queued one; the code has no such variable. */
  datatype State = State(
    queued: map<string, Request>,
    pool: seq<Item>,
    held: seq<Item>,
    pending: seq<Item>,
    inflight: seq<Item>,
    busy: bool,
    reserved: seq<Reservation>,
    callers: map<string, seq<Request>>,
    nextToken: nat,
    nextOrder: nat)

  const Initial := State(map[], [], [], [], [], false, [], map[], 0, 0)

  function ReserveOne(s: State, url: string, priority: nat, force: bool, policy: Policy): State {
    var request := Request(priority, force, policy, s.nextToken);
    var previous := if url in s.queued then Some(s.queued[url]) else None;
    var merged := if previous.Some? then Join(previous.value, request) else request;
    s.(queued := s.queued[url := merged],
       reserved := s.reserved + [Reservation(url, merged, previous)],
       callers := s.callers[url := (if url in s.callers then s.callers[url] else []) + [request]],
       nextToken := s.nextToken + 1)
  }

  function Put(s: State, url: string, request: Request): State {
    s.(pool := Insert(s.pool, Item(s.nextOrder, url, request)), nextOrder := s.nextOrder + 1)
  }

  function ReleaseOne(s: State): State
    requires s.reserved != []
  {
    var r := s.reserved[0];
    var s' := s.(reserved := s.reserved[1..]);
    if r.url in s.queued && s.queued[r.url] == r.request then Put(s', r.url, r.request) else s'
  }

  function ButLast<T>(items: seq<T>): seq<T> {
    if items == [] then [] else items[..|items| - 1]
  }

  function RollbackOne(s: State): State
    requires s.reserved != []
  {
    var r := s.reserved[0];
    var s' := s.(reserved := s.reserved[1..]);
    if r.url in s.queued && s.queued[r.url] == r.request then
      if r.previous.None? then s'.(queued := s.queued - {r.url}, callers := s.callers - {r.url})
      else
        var kept := s'.(
          queued := s.queued[r.url := r.previous.value],
          callers := if r.url in s.callers then s.callers[r.url := ButLast(s.callers[r.url])] else s.callers);
        Put(kept, r.url, r.previous.value)
    else s'
  }

  function StartOne(s: State): State
    requires s.pending != []
  {
    var item := s.pending[0];
    var s' := s.(pending := s.pending[1..]);
    if Current(s, item) then s'.(inflight := s.inflight + [item]) else s'
  }

  function FinishOne(s: State): State
    requires s.inflight != []
  {
    var item := s.inflight[0];
    var s' := s.(inflight := s.inflight[1..]);
    if Current(s, item)
    then s'.(queued := s.queued - {item.url}, callers := s.callers - {item.url})
    else s'
  }

  // ---- the invariant ---------------------------------------------------------

  function Taken(s: State): seq<Item> {
    s.pending + s.inflight
  }

  /** Every copy of a request that still exists. */
  function Copies(s: State): set<Item> {
    set c | c in s.pool + s.held + s.pending + s.inflight
  }

  function ReservedUrls(reserved: seq<Reservation>): set<string> {
    set r | r in reserved :: r.url
  }

  /** No copy asks for more than the queued request of its URL. */
  ghost predicate Covered(copies: set<Item>, queued: map<string, Request>) {
    forall c :: c in copies ==> c.url in queued && Below(c.request, queued[c.url])
  }

  ghost predicate Outstanding(copies: set<Item>, url: string, request: Request) {
    exists c :: c in copies && c.url == url && c.request == request
  }

  /** Every accepted URL is between reservation and release, or has a copy with exactly its
      request. */
  ghost predicate NothingLost(copies: set<Item>, queued: map<string, Request>, reserved: set<string>) {
    forall u :: u in queued && u !in reserved ==> Outstanding(copies, u, queued[u])
  }

  /** Copies in the priority queue are newer than those the worker took. */
  ghost predicate PoolIsNewer(pool: seq<Item>, taken: seq<Item>) {
    forall c, d :: c in pool && d in taken && c.url == d.url ==> d.request.token < c.request.token
  }

  /** The outstanding copies ask for no more than what a reservation replaced, and its last
      caller is the one it was made for. */
  ghost predicate ReservationHolds(r: Reservation, copies: set<Item>, queued: map<string, Request>,
                                   callers: map<string, seq<Request>>)
  {
    && r.url in queued && queued[r.url] == r.request && r.url in callers
    && (match r.previous
        case None => forall c :: c in copies ==> c.url != r.url
        case Some(p) =>
          && p.token < r.request.token
          && (forall c :: c in copies && c.url == r.url ==> Below(c.request, p))
          && |callers[r.url]| > 1 && JoinAll(ButLast(callers[r.url])) == p)
  }

  ghost predicate Reservations(reserved: seq<Reservation>, copies: set<Item>, queued: map<string, Request>,
                               callers: map<string, seq<Request>>)
  {
    && (forall r :: r in reserved ==> ReservationHolds(r, copies, queued, callers))
    && (forall i, j :: 0 <= i < j < |reserved| ==> reserved[i].url != reserved[j].url)
  }

  /** Each queued request is the join of its callers. */
  ghost predicate Books(queued: map<string, Request>, callers: map<string, seq<Request>>, nextToken: nat) {
    && callers.Keys == queued.Keys
    && (forall u :: u in queued ==>
          queued[u].token < nextToken && callers[u] != [] && queued[u] == JoinAll(callers[u]))
  }

  ghost predicate Shape(s: State) {
    && UniqueUrls(Taken(s)) && Sorted(s.pool) && Sorted(s.pending)
    && (s.held != [] ==> Taken(s) == [] && !s.busy)
    && (!s.busy ==> s.inflight == [])
  }

  ghost predicate Inv(s: State) {
    && Covered(Copies(s), s.queued)
    && NothingLost(Copies(s), s.queued, ReservedUrls(s.reserved))
    && PoolIsNewer(s.pool, Taken(s))
    && Reservations(s.reserved, Copies(s), s.queued, s.callers)
    && Books(s.queued, s.callers, s.nextToken)
    && Shape(s)
  }

  lemma BooksReserve(queued: map<string, Request>, callers: map<string, seq<Request>>, nextToken: nat, url: string,
                     request: Request)
    requires Books(queued, callers, nextToken) && request.token == nextToken
    ensures Books(queued[url := if url in queued then Join(queued[url], request) else request],
                  callers[url := (if url in callers then callers[url] else []) + [request]], nextToken + 1)
    ensures url in queued ==> ButLast(callers[url] + [request]) == callers[url] && queued[url].token < nextToken
  {
    var all := (if url in callers then callers[url] else []) + [request];
    assert all[..|all| - 1] == if url in callers then callers[url] else [];
  }

  lemma CoveredRaises(copies: set<Item>, queued: map<string, Request>, url: string, q: Request)
    requires Covered(copies, queued) && (url in queued ==> Below(queued[url], q))
    ensures Covered(copies, queued[url := q])
  {
    forall c | c in copies && c.url == url ensures Below(c.request, q) {
      assert Below(c.request, queued[url]);
    }
  }

  lemma NothingLostReserves(copies: set<Item>, queued: map<string, Request>, reserved: set<string>, url: string,
                            q: Request)
    requires NothingLost(copies, queued, reserved)
    ensures NothingLost(copies, queued[url := q], reserved + {url})
  {
    forall u | u in queued[url := q] && u !in reserved + {url} ensures Outstanding(copies, u, queued[url := q][u]) {
      assert u in queued && u !in reserved;
    }
  }

  lemma ReservationsGrow(reserved: seq<Reservation>, copies: set<Item>, queued: map<string, Request>,
                         callers: map<string, seq<Request>>, r: Reservation, all: seq<Request>)
    requires Reservations(reserved, copies, queued, callers) && r.url !in ReservedUrls(reserved)
    requires ReservationHolds(r, copies, queued[r.url := r.request], callers[r.url := all])
    ensures Reservations(reserved + [r], copies, queued[r.url := r.request], callers[r.url := all])
    ensures ReservedUrls(reserved + [r]) == ReservedUrls(reserved) + {r.url}
  {
    hide JoinAll, ButLast;
    forall q | q in reserved + [r] ensures ReservationHolds(q, copies, queued[r.url := r.request], callers[r.url := all]) {
      assert q in reserved || q == r;
      assert q in reserved ==> q.url in ReservedUrls(reserved);
    }
    assert forall q :: q in reserved ==> q.url in ReservedUrls(reserved);
  }

  lemma ReserveKeepsInv(s: State, url: string, priority: nat, force: bool, policy: Policy)
    requires Inv(s) && url !in ReservedUrls(s.reserved)
    ensures Inv(ReserveOne(s, url, priority, force, policy))
  {
    hide Covered, NothingLost, PoolIsNewer, Reservations, Books, JoinAll, ReservedUrls, UniqueUrls, Sorted;
    var request := Request(priority, force, policy, s.nextToken);
    var s' := ReserveOne(s, url, priority, force, policy);
    var r, all := s'.reserved[|s.reserved|], s'.callers[url];
    BooksReserve(s.queued, s.callers, s.nextToken, url, request);
    if url in s.queued {
      JoinIsSemilattice(s.queued[url], request, r.request);
    }
    CoveredRaises(Copies(s), s.queued, url, r.request);
    NothingLostReserves(Copies(s), s.queued, ReservedUrls(s.reserved), url, r.request);
    NewReservation(s, url, request);
    ReservationsGrow(s.reserved, Copies(s), s.queued, s.callers, r, all);
  }

  lemma NewReservation(s: State, url: string, request: Request)
    requires Covered(Copies(s), s.queued) && Books(s.queued, s.callers, s.nextToken) && request.token == s.nextToken
    ensures var r := ReserveOne(s, url, request.priority, request.force, request.policy).reserved[|s.reserved|];
            var all := (if url in s.callers then s.callers[url] else []) + [request];
            ReservationHolds(r, Copies(s), s.queued[url := r.request], s.callers[url := all])
  {
    hide JoinAll, Copies;
    BooksReserve(s.queued, s.callers, s.nextToken, url, request);
  }

  lemma CopiesAfterPut(s: State, url: string, request: Request)
    ensures Copies(Put(s, url, request)) == Copies(s) + {Item(s.nextOrder, url, request)}
    ensures Shape(s) ==> Shape(Put(s, url, request))
  {
    if Shape(s) {
      InsertKeepsSorted(s.pool, Item(s.nextOrder, url, request));
    }
  }

  lemma TakenAreCopies(s: State)
    ensures forall d :: d in Taken(s) ==> d in Copies(s)
    ensures forall c :: c in s.pool ==> c in Copies(s)
  {
  }

  /** A new copy of a request that is queued and no longer reserved. */
  lemma PutKeeps(copies: set<Item>, queued: map<string, Request>, callers: map<string, seq<Request>>,
                 reserved: seq<Reservation>, url: string, order: nat, request: Request)
    requires Covered(copies, queued) && url in queued && queued[url] == request
    requires NothingLost(copies, queued, ReservedUrls(reserved) + {url})
    requires Reservations(reserved, copies, queued, callers) && url !in ReservedUrls(reserved)
    ensures var more := copies + {Item(order, url, request)};
            && Covered(more, queued) && NothingLost(more, queued, ReservedUrls(reserved))
            && Reservations(reserved, more, queued, callers)
  {
    hide JoinAll, ButLast;
    var item := Item(order, url, request);
    var more := copies + {item};
    assert item in more;
    forall u | u in queued && u !in ReservedUrls(reserved) ensures Outstanding(more, u, queued[u]) {
      if u != url {
        assert Outstanding(copies, u, queued[u]);
      }
    }
    assert forall r :: r in reserved ==> r.url in ReservedUrls(reserved);
  }

  lemma NextReservation(s: State)
    requires Inv(s) && s.reserved != []
    ensures ReservationHolds(s.reserved[0], Copies(s), s.queued, s.callers)
    ensures Reservations(s.reserved[1..], Copies(s), s.queued, s.callers)
    ensures s.reserved[0].url !in ReservedUrls(s.reserved[1..])
    ensures ReservedUrls(s.reserved) == ReservedUrls(s.reserved[1..]) + {s.reserved[0].url}
  {
    hide ReservationHolds;
    assert s.reserved == [s.reserved[0]] + s.reserved[1..];
    assert forall r :: r in s.reserved[1..] ==> r in s.reserved;
  }

  /** What a reservation may put back without disturbing the order of versions: nothing
      newer than the copies the worker took. */
  ghost predicate NewerThanTaken(s: State, url: string, request: Request) {
    forall d :: d in Taken(s) && d.url == url ==> d.request.token < request.token
  }

  lemma PutIsNewer(s: State, url: string, request: Request)
    requires PoolIsNewer(s.pool, Taken(s))
    ensures PoolIsNewer(Put(s, url, request).pool, Taken(Put(s, url, request))) <==> NewerThanTaken(s, url, request)
  {
    var s' := Put(s, url, request);
    var item := Item(s.nextOrder, url, request);
    assert item in s'.pool;
  }

  lemma ReleaseKeepsInv(s: State)
    requires Inv(s) && s.reserved != []
    ensures Inv(ReleaseOne(s))
  {
    hide Covered, NothingLost, PoolIsNewer, Reservations, Books, JoinAll, ReservedUrls, UniqueUrls, Sorted, Copies;
    var r := s.reserved[0];
    NextReservation(s);
    TakenAreCopies(s);
    var s1 := s.(reserved := s.reserved[1..]);
    assert Copies(s1) == Copies(s) by { SameCopies(s, s1); }
    PutKeeps(Copies(s), s.queued, s.callers, s1.reserved, r.url, s.nextOrder, r.request);
    CopiesAfterPut(s1, r.url, r.request);
    PutIsNewer(s1, r.url, r.request);
  }

  lemma SameCopies(s: State, s': State)
    requires s'.pool == s.pool && s'.held == s.held && s'.pending == s.pending && s'.inflight == s.inflight
    ensures Copies(s') == Copies(s)
  {
  }

  // ---- rollback of a reservation ---------------------------------------------

  /** No copy the worker took carries the version that is put back. */
  ghost predicate SafeRollback(s: State)
    requires s.reserved != []
  {
    var r := s.reserved[0];
    r.previous.Some? ==> forall d :: d in Taken(s) && d.url == r.url ==> d.request.token != r.previous.value.token
  }

  lemma BooksForget(queued: map<string, Request>, callers: map<string, seq<Request>>, nextToken: nat, url: string)
    requires Books(queued, callers, nextToken)
    ensures Books(queued - {url}, callers - {url}, nextToken)
  {
  }

  lemma WithoutUrl(copies: set<Item>, queued: map<string, Request>, callers: map<string, seq<Request>>,
                   reserved: seq<Reservation>, url: string)
    requires Covered(copies, queued) && NothingLost(copies, queued, ReservedUrls(reserved) + {url})
    requires Reservations(reserved, copies, queued, callers) && url !in ReservedUrls(reserved)
    requires forall c :: c in copies ==> c.url != url
    ensures Covered(copies, queued - {url}) && NothingLost(copies, queued - {url}, ReservedUrls(reserved))
    ensures Reservations(reserved, copies, queued - {url}, callers - {url})
  {
    hide JoinAll, ButLast;
    assert forall r :: r in reserved ==> r.url in ReservedUrls(reserved);
  }

  lemma PreviousRestored(copies: set<Item>, queued: map<string, Request>, callers: map<string, seq<Request>>,
                         reserved: seq<Reservation>, r: Reservation)
    requires Covered(copies, queued) && NothingLost(copies, queued, ReservedUrls(reserved) + {r.url})
    requires ReservationHolds(r, copies, queued, callers) && r.previous.Some?
    requires Reservations(reserved, copies, queued, callers) && r.url !in ReservedUrls(reserved)
    ensures var q, c := queued[r.url := r.previous.value], callers[r.url := ButLast(callers[r.url])];
            && Covered(copies, q) && NothingLost(copies, q, ReservedUrls(reserved) + {r.url})
            && Reservations(reserved, copies, q, c)
  {
    hide JoinAll, ButLast;
    assert forall x :: x in reserved ==> x.url in ReservedUrls(reserved);
    var q := queued[r.url := r.previous.value];
    forall u | u in q && u !in ReservedUrls(reserved) + {r.url} ensures Outstanding(copies, u, q[u]) {
      assert Outstanding(copies, u, queued[u]);
    }
  }

  lemma BooksRestore(queued: map<string, Request>, callers: map<string, seq<Request>>, nextToken: nat, r: Reservation,
                     copies: set<Item>)
    requires Books(queued, callers, nextToken) && ReservationHolds(r, copies, queued, callers) && r.previous.Some?
    ensures Books(queued[r.url := r.previous.value], callers[r.url := ButLast(callers[r.url])], nextToken)
  {
    hide JoinAll;
  }

  /** When a subscriber's callback fails, undoing its reservation keeps copies in the priority queue
      newer than those the worker took exactly when the worker holds no copy of the version that is
      put back. `RollbackLoss` says when a fetch can be lost by it. */
  lemma RollbackKeepsInvIff(s: State)
    requires Inv(s) && s.reserved != []
    ensures Inv(RollbackOne(s)) <==> SafeRollback(s)
  {
    hide Covered, NothingLost, PoolIsNewer, Reservations, Books, JoinAll, ReservedUrls, UniqueUrls, Sorted, Copies;
    var r := s.reserved[0];
    NextReservation(s);
    TakenAreCopies(s);
    var s1 := s.(reserved := s.reserved[1..]);
    SameCopies(s, s1);
    if r.previous.None? {
      WithoutUrl(Copies(s), s.queued, s.callers, s1.reserved, r.url);
      BooksForget(s.queued, s.callers, s.nextToken, r.url);
      SameCopies(s, RollbackOne(s));
    } else {
      var p := r.previous.value;
      var s2 := s1.(queued := s.queued[r.url := p], callers := s.callers[r.url := ButLast(s.callers[r.url])]);
      SameCopies(s, s2);
      PreviousRestored(Copies(s), s.queued, s.callers, s1.reserved, r);
      BooksRestore(s.queued, s.callers, s.nextToken, r, Copies(s));
      PutKeeps(Copies(s), s2.queued, s2.callers, s1.reserved, r.url, s.nextOrder, p);
      CopiesAfterPut(s2, r.url, p);
      PutIsNewer(s2, r.url, p);
    }
  }

  // ---- the worker ------------------------------------------------------------

  /** Dropping or moving copies, as long as each URL keeps one with its exact request. */
  lemma FewerCopies(copies: set<Item>, fewer: set<Item>, queued: map<string, Request>,
                    callers: map<string, seq<Request>>, reserved: seq<Reservation>)
    requires fewer <= copies && Covered(copies, queued) && Reservations(reserved, copies, queued, callers)
    requires NothingLost(copies, queued, ReservedUrls(reserved))
    requires forall c :: c in copies && c !in fewer ==> c.url !in queued || c.request != queued[c.url]
    ensures Covered(fewer, queued) && Reservations(reserved, fewer, queued, callers)
    ensures NothingLost(fewer, queued, ReservedUrls(reserved))
  {
    hide JoinAll, ButLast;
    forall u | u in queued && u !in ReservedUrls(reserved) ensures Outstanding(fewer, u, queued[u]) {
      assert Outstanding(copies, u, queued[u]);
    }
  }

  lemma UniqueRotates(x: Item, rest: seq<Item>)
    requires UniqueUrls([x] + rest)
    ensures UniqueUrls(rest) && UniqueUrls(rest + [x])
    ensures forall c :: c in rest ==> c.url != x.url
  {
    var all := [x] + rest;
    forall i | 0 <= i < |rest| ensures rest[i].url != x.url {
      assert all[0].url != all[i + 1].url;
    }
    forall i, j | 0 <= i < j < |rest| ensures rest[i].url != rest[j].url {
      assert all[i + 1].url != all[j + 1].url;
    }
  }

  lemma StartMoves(s: State)
    requires s.pending != [] && UniqueUrls(Taken(s)) && Sorted(s.pending) && PoolIsNewer(s.pool, Taken(s))
    ensures var s', item := StartOne(s), s.pending[0];
            && UniqueUrls(Taken(s')) && Sorted(s'.pending) && PoolIsNewer(s'.pool, Taken(s'))
            && Copies(s') <= Copies(s) && item in Copies(s)
            && (forall c :: c in Copies(s) && c !in Copies(s') ==> c == item)
            && (item.url in s.queued && s.queued[item.url] == item.request ==> Copies(s') == Copies(s))
  {
    hide UniqueUrls;
    var s', item := StartOne(s), s.pending[0];
    assert s.pending == [item] + s.pending[1..];
    var rest := s.pending[1..] + s.inflight;
    assert Taken(s) == [item] + rest;
    UniqueRotates(item, rest);
    assert Taken(s') == rest || Taken(s') == rest + [item];
  }

  lemma StartKeepsInv(s: State)
    requires Inv(s) && s.pending != [] && s.busy
    ensures Inv(StartOne(s))
  {
    hide Covered, NothingLost, PoolIsNewer, Reservations, Books, JoinAll, ReservedUrls, UniqueUrls, Sorted, Copies;
    StartMoves(s);
    FewerCopies(Copies(s), Copies(StartOne(s)), s.queued, s.callers, s.reserved);
  }

  lemma FinishMoves(s: State)
    requires s.inflight != [] && UniqueUrls(Taken(s)) && PoolIsNewer(s.pool, Taken(s)) && s.held == []
    ensures var s', item := FinishOne(s), s.inflight[0];
            && UniqueUrls(Taken(s')) && PoolIsNewer(s'.pool, Taken(s'))
            && item in Copies(s) && Copies(s') <= Copies(s)
            && (forall c :: c in Copies(s) && c !in Copies(s') ==> c == item)
            && (forall c :: c in Copies(s') && c.url == item.url ==> item.request.token < c.request.token)
  {
    hide UniqueUrls;
    var s', item := FinishOne(s), s.inflight[0];
    assert s.inflight == [item] + s.inflight[1..];
    assert Taken(s) == s.pending + [item] + s.inflight[1..];
    UniqueWithout(s.pending, item, s.inflight[1..]);
    assert Taken(s') == s.pending + s.inflight[1..];
  }

  lemma UniqueWithout(a: seq<Item>, x: Item, b: seq<Item>)
    requires UniqueUrls(a + [x] + b)
    ensures UniqueUrls(a + b) && forall c :: c in a + b ==> c.url != x.url
  {
    var all := a + [x] + b;
    assert forall i :: 0 <= i < |a| ==> all[i] == a[i];
    assert all[|a|] == x;
    assert forall i :: 0 <= i < |b| ==> all[|a| + 1 + i] == b[i];
  }

  /** A finished request leaves nothing behind: any newer version would have kept it queued. */
  lemma FinishedIsAlone(s: State, item: Item)
    requires Inv(s) && item in Copies(s) && item.url in s.queued && s.queued[item.url] == item.request
    requires forall c :: c in Copies(s) && c.url == item.url && c != item ==> item.request.token < c.request.token
    ensures forall c :: c in Copies(s) && c.url == item.url ==> c == item
    ensures item.url !in ReservedUrls(s.reserved)
  {
    hide JoinAll;
    forall r | r in s.reserved ensures r.url != item.url {
      assert ReservationHolds(r, Copies(s), s.queued, s.callers);
    }
  }

  lemma FinishKeepsInv(s: State)
    requires Inv(s) && s.inflight != []
    ensures Inv(FinishOne(s))
  {
    hide Covered, NothingLost, PoolIsNewer, Reservations, Books, JoinAll, ReservedUrls, UniqueUrls, Sorted, Copies;
    var s', item := FinishOne(s), s.inflight[0];
    FinishMoves(s);
    if item.url in s.queued && s.queued[item.url] == item.request {
      FinishedIsAlone(s, item);
      DroppedAlone(Copies(s), Copies(s'), s.queued, s.callers, s.reserved, item);
      BooksForget(s.queued, s.callers, s.nextToken, item.url);
    } else {
      FewerCopies(Copies(s), Copies(s'), s.queued, s.callers, s.reserved);
    }
  }

  lemma DroppedAlone(copies: set<Item>, fewer: set<Item>, queued: map<string, Request>,
                     callers: map<string, seq<Request>>, reserved: seq<Reservation>, item: Item)
    requires Covered(copies, queued) && NothingLost(copies, queued, ReservedUrls(reserved))
    requires Reservations(reserved, copies, queued, callers) && item.url !in ReservedUrls(reserved)
    requires fewer <= copies && forall c :: c in copies && c !in fewer ==> c == item
    requires forall c :: c in fewer ==> c.url != item.url
    ensures Covered(fewer, queued - {item.url}) && NothingLost(fewer, queued - {item.url}, ReservedUrls(reserved))
    ensures Reservations(reserved, fewer, queued - {item.url}, callers - {item.url})
  {
    hide JoinAll, ButLast;
    assert forall r :: r in reserved ==> r.url in ReservedUrls(reserved);
    forall u | u in queued - {item.url} && u !in ReservedUrls(reserved) ensures Outstanding(fewer, u, queued[u]) {
      assert Outstanding(copies, u, queued[u]);
    }
  }

  // ---- regrouping copies -----------------------------------------------------

  lemma JoinIsBounded(items: seq<Item>, r: seq<Item>, d: Item, bound: Request)
    requires Coalesces(r, items) && d in r && BoundsCopies(bound, items, d.url)
    ensures Below(d.request, bound) && exists c :: c in items && c.url == d.url
  {
  }

  lemma JoinIsExact(items: seq<Item>, r: seq<Item>, c: Item)
    requires Coalesces(r, items) && c in items && BoundsCopies(c.request, items, c.url)
    ensures exists d :: d in r && d.url == c.url && d.request == c.request
  {
    var d :| d in r && d.url == c.url;
    JoinIsBounded(items, r, d, c.request);
    assert JoinsCopies(d, items) && Below(c.request, d.request);
  }

  /** Replacing copies by their joins keeps every promise: a request that covers them all and
      is among them is the join. */
  lemma Regroup(items: seq<Item>, r: seq<Item>, copies: set<Item>, joined: set<Item>, queued: map<string, Request>,
                callers: map<string, seq<Request>>, reserved: seq<Reservation>)
    requires Coalesces(r, items)
    requires forall c :: c in copies <==> c in items
    requires forall c :: c in joined <==> c in r
    requires Covered(copies, queued) && NothingLost(copies, queued, ReservedUrls(reserved))
    requires Reservations(reserved, copies, queued, callers)
    ensures Covered(joined, queued) && NothingLost(joined, queued, ReservedUrls(reserved))
    ensures Reservations(reserved, joined, queued, callers)
  {
    hide JoinAll, ButLast, Coalesces, ReservedUrls, Below;
    forall d | d in joined ensures d.url in queued && Below(d.request, queued[d.url]) {
      RegroupedCopyIsCovered(items, r, copies, queued, d);
    }
    forall u | u in queued && u !in ReservedUrls(reserved) ensures Outstanding(joined, u, queued[u]) {
      var c :| c in copies && c.url == u && c.request == queued[u];
      JoinIsExact(items, r, c);
    }
    forall x | x in reserved ensures ReservationHolds(x, joined, queued, callers) {
      forall d | d in joined && d.url == x.url ensures x.previous.Some? && Below(d.request, x.previous.value) {
        RegroupedCopyIsReserved(items, r, copies, queued, callers, x, d);
      }
    }
  }

  lemma RegroupedCopyIsCovered(items: seq<Item>, r: seq<Item>, copies: set<Item>, queued: map<string, Request>, d: Item)
    requires Coalesces(r, items) && d in r && Covered(copies, queued)
    requires forall c :: c in copies <==> c in items
    ensures d.url in queued && Below(d.request, queued[d.url])
  {
    hide Below;
    var c :| c in items && c.url == d.url;
    assert c in copies;
    JoinIsBounded(items, r, d, queued[d.url]);
  }

  lemma RegroupedCopyIsReserved(items: seq<Item>, r: seq<Item>, copies: set<Item>, queued: map<string, Request>,
                                callers: map<string, seq<Request>>, x: Reservation, d: Item)
    requires Coalesces(r, items) && d in r && d.url == x.url && ReservationHolds(x, copies, queued, callers)
    requires forall c :: c in copies <==> c in items
    ensures x.previous.Some? && Below(d.request, x.previous.value)
  {
    hide Below, JoinAll, ButLast;
    var c :| c in items && c.url == d.url;
    assert c in copies;
    JoinIsBounded(items, r, d, x.previous.value);
  }

  /** Joining every outstanding copy of a URL gives exactly its current request. */
  lemma CopiesJoinToCurrent(s: State, items: seq<Item>, d: Item)
    requires Inv(s) && (forall c :: c in Copies(s) <==> c in items)
    requires d in Deduped(items) && d.url !in ReservedUrls(s.reserved)
    ensures d.url in s.queued && d.request == s.queued[d.url]
  {
    hide Coalesces, Deduped, PoolIsNewer, Reservations, Books, Shape, Copies;
    DedupedCoalesces(items);
    RegroupedCopyIsCovered(items, Deduped(items), Copies(s), s.queued, d);
    var c :| c in Copies(s) && c.url == d.url && c.request == s.queued[d.url];
    AlsoAtLeast(items, Deduped(items), c, d);
  }

  lemma AlsoAtLeast(items: seq<Item>, r: seq<Item>, c: Item, d: Item)
    requires Coalesces(r, items) && c in items && d in r && c.url == d.url
    ensures Below(c.request, d.request)
  {
  }

  // ---- whole critical sections and runs --------------------------------------

  /** `_FETCH_WORKERS` */
  const Width: nat := 2

  function ReserveAll(s: State, urls: seq<string>, priority: nat, force: bool, policy: Policy): State
    decreases |urls|
  {
    if urls == [] then s
    else ReserveAll(ReserveOne(s, urls[0], priority, force, policy), urls[1..], priority, force, policy)
  }

  function ReleaseAll(s: State): State
    decreases |s.reserved|
  {
    if s.reserved == [] then s else ReleaseAll(ReleaseOne(s))
  }

  function RollbackAll(s: State): State
    decreases |s.reserved|
  {
    if s.reserved == [] then s else RollbackAll(RollbackOne(s))
  }

  /** `_url_queue.get()`: the worker takes the first item, outside the lock. */
  function Take(s: State): State
    requires s.pool != []
  {
    s.(held := [s.pool[0]], pool := s.pool[1..])
  }

  /** `_drain_queued_items` */
  function Drain(s: State): State {
    s.(pending := Deduped(Sort(s.held + s.pool)), held := [], pool := [])
  }

  function StartSome(s: State, n: nat): State
    decreases n
  {
    if n == 0 || s.pending == [] then s else StartSome(StartOne(s), n - 1)
  }

  /** Split off the next chunk and submit what is still current. */
  function Start(s: State): State {
    StartSome(s.(busy := true), Width)
  }

  function FinishAll(s: State): State
    decreases |s.inflight|
  {
    if s.inflight == [] then s else FinishAll(FinishOne(s))
  }

  function TakeNew(s: State): State {
    s.(pending := if s.pool == [] then s.pending else Deduped(Sort(s.pending + s.pool)), pool := [], busy := false)
  }

  /** The locked section after a chunk: retire its requests and take what arrived. */
  function Finish(s: State): State {
    TakeNew(FinishAll(s))
  }

  datatype Event =
    | Reserving(urls: seq<string>, priority: nat, force: bool, policy: Policy)
    | Releasing
    | RollingBack
    | Taking
    | Draining
    | Starting
    | Finishing

  predicate Distinct(urls: seq<string>) {
    forall i, j :: 0 <= i < j < |urls| ==> urls[i] != urls[j]
  }

  predicate Enabled(s: State, e: Event) {
    match e
    case Reserving(urls, _, _, _) => s.reserved == [] && Distinct(urls)
    case Releasing => s.reserved != []
    case RollingBack => s.reserved != []
    case Taking => s.pool != [] && s.held == [] && Taken(s) == [] && !s.busy
    case Draining => s.held != []
    case Starting => s.pending != [] && !s.busy
    case Finishing => s.busy
  }

  function Next(s: State, e: Event): State {
    if !Enabled(s, e) then s
    else match e
      case Reserving(urls, priority, force, policy) => ReserveAll(s, urls, priority, force, policy)
      case Releasing => ReleaseAll(s)
      case RollingBack => RollbackAll(s)
      case Taking => Take(s)
      case Draining => Drain(s)
      case Starting => Start(s)
      case Finishing => Finish(s)
  }

  function Run(s: State, events: seq<Event>): State
    decreases |events|
  {
    if events == [] then s else Run(Next(s, events[0]), events[1..])
  }

  ghost predicate SafeRollbacks(s: State) {
    forall r :: r in s.reserved && r.previous.Some? ==>
      forall d :: d in Taken(s) && d.url == r.url ==> d.request.token != r.previous.value.token
  }

  /** Every rollback in the run meets the condition of `RollbackAllKeepsInvIff`; in particular,
      every run in which no callback fails is safe. */
  ghost predicate SafeRun(s: State, events: seq<Event>)
    decreases |events|
  {
    events != [] ==>
      (events[0].RollingBack? ==> SafeRollbacks(s)) && SafeRun(Next(s, events[0]), events[1..])
  }

  lemma {:induction false} ReserveAllKeepsInv(s: State, urls: seq<string>, priority: nat, force: bool, policy: Policy)
    requires Inv(s) && Distinct(urls) && forall u :: u in urls ==> u !in ReservedUrls(s.reserved)
    ensures Inv(ReserveAll(s, urls, priority, force, policy))
    decreases |urls|
  {
    if urls != [] {
      var s' := ReserveOne(s, urls[0], priority, force, policy);
      assert urls[0] in urls;
      ReserveKeepsInv(s, urls[0], priority, force, policy);
      forall u | u in urls[1..] ensures u !in ReservedUrls(s'.reserved) {
        assert u in urls && u != urls[0];
      }
      hide Inv;
      ReserveAllKeepsInv(s', urls[1..], priority, force, policy);
    }
  }

  lemma {:induction false} ReleaseAllKeepsInv(s: State)
    requires Inv(s)
    ensures Inv(ReleaseAll(s))
    decreases |s.reserved|
  {
    hide Inv;
    if s.reserved != [] {
      ReleaseKeepsInv(s);
      ReleaseAllKeepsInv(ReleaseOne(s));
    }
  }

  lemma {:induction false} RollbackLeavesTaken(s: State)
    ensures Taken(RollbackAll(s)) == Taken(s)
    ensures forall c :: c in s.pool ==> c in RollbackAll(s).pool
    decreases |s.reserved|
  {
    if s.reserved != [] {
      RollbackLeavesTaken(RollbackOne(s));
    }
  }

  /** The same for all reservations of a failing call. */
  lemma {:induction false} RollbackAllKeepsInvIff(s: State)
    requires Inv(s)
    ensures Inv(RollbackAll(s)) <==> SafeRollbacks(s)
    decreases |s.reserved|
  {
    if s.reserved != [] {
      RollbackKeepsInvIff(s);
      SafeRollbacksSplit(s);
      var s' := RollbackOne(s);
      if SafeRollback(s) {
        hide Inv;
        RollbackAllKeepsInvIff(s');
      } else {
        RollbackLeavesTaken(s');
        UnsafeRollbackShows(s);
      }
    }
  }

  lemma SafeRollbacksSplit(s: State)
    requires s.reserved != []
    ensures SafeRollbacks(s) <==> SafeRollback(s) && SafeRollbacks(RollbackOne(s))
  {
    assert s.reserved == [s.reserved[0]] + s.reserved[1..];
    assert Taken(RollbackOne(s)) == Taken(s);
    assert forall r :: r in s.reserved <==> r == s.reserved[0] || r in s.reserved[1..];
  }

  lemma UnsafeRollbackShows(s: State)
    requires Inv(s) && s.reserved != [] && !SafeRollback(s)
    ensures !PoolIsNewer(RollbackAll(s).pool, Taken(RollbackAll(s)))
  {
    NextReservation(s);
    var s', r := RollbackOne(s), s.reserved[0];
    RollbackLeavesTaken(s');
    var item := Item(s.nextOrder, r.url, r.previous.value);
    assert item in s'.pool && item in RollbackAll(s).pool;
  }

  lemma TakeKeepsInv(s: State)
    requires Inv(s) && Enabled(s, Taking)
    ensures Inv(Take(s))
  {
    hide Covered, NothingLost, Reservations, Books;
    assert s.pool == [s.pool[0]] + s.pool[1..];
    assert Copies(Take(s)) == Copies(s);
  }

  lemma DrainKeepsInv(s: State)
    requires Inv(s) && s.held != []
    ensures Inv(Drain(s))
  {
    hide Covered, NothingLost, Reservations, Books, Coalesces;
    var items := Sort(s.held + s.pool);
    DedupedCoalesces(items);
    CoalescedShape(Deduped(items), items);
    Regroup(items, Deduped(items), Copies(s), Copies(Drain(s)), s.queued, s.callers, s.reserved);
  }

  lemma CoalescedShape(r: seq<Item>, items: seq<Item>)
    requires Coalesces(r, items)
    ensures UniqueUrls(r) && Sorted(r)
  {
  }

  lemma CopiesBetweenChunks(s: State)
    requires s.inflight == [] && s.held == []
    ensures forall c :: c in Copies(s) <==> c in Sort(s.pending + s.pool)
    ensures Taken(s) == s.pending
  {
    hide Sort;
  }

  lemma TakeNewKeepsInv(s: State)
    requires Inv(s) && s.inflight == [] && s.held == []
    ensures Inv(TakeNew(s))
  {
    hide Covered, NothingLost, Reservations, Books, Coalesces, UniqueUrls, Sorted, Copies, Deduped, Sort, Taken;
    var s' := TakeNew(s);
    CopiesBetweenChunks(s);
    CopiesBetweenChunks(s');
    if s.pool == [] {
      SameCopies(s, s');
    } else {
      var items := Sort(s.pending + s.pool);
      var r := Deduped(items);
      DedupedCoalesces(items);
      CoalescedShape(r, items);
      assert r + [] == r;
      Regroup(items, r, Copies(s), Copies(s'), s.queued, s.callers, s.reserved);
      NoneNewer(s'.pool, Taken(s'));
      SortedNothing();
    }
  }

  lemma NoneNewer(pool: seq<Item>, taken: seq<Item>)
    ensures pool == [] || taken == [] ==> PoolIsNewer(pool, taken)
  {
  }

  lemma SortedNothing()
    ensures Sorted([])
  {
  }

  lemma {:induction false} StartSomeKeepsInv(s: State, n: nat)
    requires Inv(s) && s.busy
    ensures Inv(StartSome(s, n)) && StartSome(s, n).busy
    decreases n
  {
    hide Inv;
    if n != 0 && s.pending != [] {
      StartKeepsInv(s);
      StartSomeKeepsInv(StartOne(s), n - 1);
    }
  }

  lemma StartChunkKeepsInv(s: State)
    requires Inv(s) && Enabled(s, Starting)
    ensures Inv(Start(s))
  {
    assert s.held == [] by { assert s.pending != [] ==> Taken(s) != []; }
    var s1 := s.(busy := true);
    assert Inv(s1) by { BusyKeepsInv(s); }
    StartSomeKeepsInv(s1, Width);
  }

  lemma BusyKeepsInv(s: State)
    requires Inv(s) && s.held == []
    ensures Inv(s.(busy := true))
  {
    hide Covered, NothingLost, Reservations, Books, PoolIsNewer, UniqueUrls, Sorted;
    SameCopies(s, s.(busy := true));
  }

  lemma {:induction false} FinishAllKeepsInv(s: State)
    requires Inv(s) && s.held == []
    ensures Inv(FinishAll(s)) && FinishAll(s).inflight == [] && FinishAll(s).held == []
    decreases |s.inflight|
  {
    hide Inv;
    if s.inflight != [] {
      FinishKeepsInv(s);
      FinishAllKeepsInv(FinishOne(s));
    }
  }

  lemma NextKeepsInv(s: State, e: Event)
    requires Inv(s) && (e.RollingBack? ==> SafeRollbacks(s))
    ensures Inv(Next(s, e))
  {
    if Enabled(s, e) {
      match e
      case Reserving(urls, priority, force, policy) => ReserveAllKeepsInv(s, urls, priority, force, policy);
      case Releasing => ReleaseAllKeepsInv(s);
      case RollingBack => RollbackAllKeepsInvIff(s);
      case Taking => TakeKeepsInv(s);
      case Draining => DrainKeepsInv(s);
      case Starting => StartChunkKeepsInv(s);
      case Finishing =>
        FinishAllKeepsInv(s);
        TakeNewKeepsInv(FinishAll(s));
    }
  }

  /** In every reachable state no accepted fetch is lost and none is in flight twice. */
  lemma {:induction false} RunKeepsInv(s: State, events: seq<Event>)
    requires Inv(s) && SafeRun(s, events)
    ensures Inv(Run(s, events))
    decreases |events|
  {
    if events != [] {
      hide Inv, SafeRollbacks;
      NextKeepsInv(s, events[0]);
      RunKeepsInv(Next(s, events[0]), events[1..]);
    }
  }

  lemma InitialHolds()
    ensures Inv(Initial)
  {
  }

  // ---- what callers get ------------------------------------------------------

  predicate Current(s: State, item: Item) {
    item.url in s.queued && s.queued[item.url] == item.request
  }

  lemma {:induction false} StartSomeStarts(s: State, n: nat)
    ensures var s' := StartSome(s, n);
            && s'.queued == s.queued && |s'.inflight| <= |s.inflight| + n
            && (forall c :: c in s'.inflight ==>
                  c in s.inflight || (c in s.pending && Current(s, c)))
            && (forall c :: c in s.inflight ==> c in s'.inflight)
            && (forall k :: 0 <= k < n && k < |s.pending| && Current(s, s.pending[k]) ==> s.pending[k] in s'.inflight)
    decreases n
  {
    if n != 0 && s.pending != [] {
      var s1 := StartOne(s);
      StartSomeStarts(s1, n - 1);
      assert forall k :: 0 < k < |s.pending| ==> s.pending[k] == s1.pending[k - 1];
      assert forall c :: c in s1.pending ==> c in s.pending;
    }
  }

  /** What runs is the join of everybody coalesced into it, with the privileges all of them
      have, at most two URLs at a time and none twice. */
  lemma ChunkIsLeastPrivilege(s: State, c: Item)
    requires Inv(s) && Enabled(s, Starting) && c in Start(s).inflight
    ensures c.url in s.callers && c.url in s.queued && c.request == s.queued[c.url]
    ensures c.url in s.callers && LeastPrivilege(c.request, s.callers[c.url])
    ensures c in s.pending[..if |s.pending| < Width then |s.pending| else Width]
    ensures UniqueUrls(Start(s).inflight) && |Start(s).inflight| <= Width
  {
    hide JoinAll, LeastPrivilege, Covered, NothingLost, PoolIsNewer, Reservations, Sorted, StartSome, UniqueUrls;
    StartSomeStarts(s.(busy := true), Width);
    assert Current(s, c);
    JoinAllIsLeastPrivilege(s.callers[c.url]);
    StartChunkKeepsInv(s);
    UniqueSuffix(Start(s).pending, Start(s).inflight);
    StartSomeFromFront(s.(busy := true), Width, c);
  }

  lemma UniqueSuffix(a: seq<Item>, b: seq<Item>)
    requires UniqueUrls(a + b)
    ensures UniqueUrls(b)
  {
    assert forall i :: 0 <= i < |b| ==> (a + b)[|a| + i] == b[i];
  }

  lemma ChunkServesCallers(s: State)
    requires Inv(s) && Enabled(s, Starting)
    ensures Inv(Start(s)) && Start(s).queued == s.queued && Start(s).callers == s.callers
    ensures forall c :: c in Start(s).inflight ==>
      c.url in s.callers && c.url in s.queued && c.request == s.queued[c.url]
      && LeastPrivilege(c.request, s.callers[c.url])
  {
    hide Inv, LeastPrivilege;
    StartChunkKeepsInv(s);
    StartSomeKeepsBooks(s.(busy := true), Width);
    forall c | c in Start(s).inflight
      ensures c.url in s.callers && c.url in s.queued && c.request == s.queued[c.url]
              && LeastPrivilege(c.request, s.callers[c.url])
    {
      ChunkIsLeastPrivilege(s, c);
    }
  }

  lemma HeadIsFirst(s: State)
    requires Inv(s) && s.pool != []
    ensures Urgency([s.pool[0]], s.pool)
  {
    hide Covered, NothingLost, PoolIsNewer, Reservations, Books;
    assert NotAfter(s.pool[0], s.pool[0]);
  }

  lemma {:induction false} StartSomeLeaves(s: State, n: nat)
    ensures StartSome(s, n).pending == s.pending[if |s.pending| < n then |s.pending| else n..]
    decreases n
  {
    if n != 0 && s.pending != [] {
      StartSomeLeaves(StartOne(s), n - 1);
    }
  }

  /** Every item of `a` has a more urgent priority than every item of `b`, or the same and is older. */
  ghost predicate Urgency(a: seq<Item>, b: seq<Item>) {
    forall c, d :: c in a && d in b ==>
      c.request.priority < d.request.priority || (c.request.priority == d.request.priority && c.order <= d.order)
  }

  lemma SortedSplits(items: seq<Item>, n: nat)
    requires Sorted(items) && n <= |items|
    ensures Urgency(items[..n], items[n..])
  {
    forall c, d | c in items[..n] && d in items[n..] ensures NotAfter(c, d) {
      var i :| 0 <= i < n && items[..n][i] == c;
      var j :| 0 <= j < |items| - n && items[n..][j] == d;
      assert items[n + j] == d;
    }
  }

  /** The most urgent requests run first, and of equally urgent ones the oldest. */
  lemma ChunkComesFirst(s: State)
    requires Inv(s) && Enabled(s, Starting)
    ensures Urgency(Start(s).inflight, Start(s).pending)
  {
    hide Covered, NothingLost, PoolIsNewer, Reservations, Books, Sorted, StartSome, UniqueUrls, Current;
    var n := if |s.pending| < Width then |s.pending| else Width;
    StartSomeLeaves(s.(busy := true), Width);
    SortedSplits(s.pending, n);
    forall c | c in Start(s).inflight ensures c in s.pending[..n] {
      StartSomeFromFront(s.(busy := true), Width, c);
    }
  }

  lemma {:induction false} StartSomeFromFront(s: State, n: nat, c: Item)
    requires c in StartSome(s, n).inflight && c !in s.inflight
    ensures c in s.pending[..if |s.pending| < n then |s.pending| else n]
    decreases n
  {
    if n != 0 && s.pending != [] && c != s.pending[0] {
      StartSomeFromFront(StartOne(s), n - 1, c);
    }
  }

  lemma {:induction false} ReserveAllGrows(s: State, urls: seq<string>, priority: nat, force: bool, policy: Policy,
                                           u: string)
    requires u in s.queued && u in s.callers
    ensures var s' := ReserveAll(s, urls, priority, force, policy);
            u in s'.queued && u in s'.callers && s.callers[u] <= s'.callers[u]
    decreases |urls|
  {
    if urls != [] {
      ReserveAllGrows(ReserveOne(s, urls[0], priority, force, policy), urls[1..], priority, force, policy, u);
    }
  }

  lemma {:induction false} ReleaseAllKeepsQueued(s: State)
    ensures ReleaseAll(s).queued == s.queued && ReleaseAll(s).callers == s.callers
    decreases |s.reserved|
  {
    if s.reserved != [] {
      ReleaseAllKeepsQueued(ReleaseOne(s));
    }
  }

  lemma {:induction false} FinishAllRetires(s: State, u: string)
    requires u in s.queued && u in s.callers
    ensures var s' := FinishAll(s);
            if u in s'.queued then u in s'.callers && s'.callers[u] == s.callers[u]
            else exists c :: c in s.inflight && c.url == u && c.request == s.queued[u]
    decreases |s.inflight|
  {
    if s.inflight != [] {
      var s1 := FinishOne(s);
      if u in s1.queued {
        FinishAllRetires(s1, u);
        assert forall c :: c in s1.inflight ==> c in s.inflight;
      } else {
        assert s.inflight[0] in s.inflight;
        FinishAllNeverQueues(s1, u);
      }
    }
  }

  lemma {:induction false} FinishAllNeverQueues(s: State, u: string)
    requires u !in s.queued
    ensures u !in FinishAll(s).queued
    decreases |s.inflight|
  {
    if s.inflight != [] {
      FinishAllNeverQueues(FinishOne(s), u);
    }
  }

  /** An accepted URL stays queued, with all its callers, until a chunk that ran exactly its
      joined request is finished. */
  lemma AcceptedUntilServed(s: State, e: Event, u: string)
    requires Inv(s) && u in s.queued && !e.RollingBack?
    ensures u in Next(s, e).queued ==> u in Next(s, e).callers && s.callers[u] <= Next(s, e).callers[u]
    ensures u !in Next(s, e).queued ==>
      e.Finishing? && exists c :: c in s.inflight && c.url == u && c.request == s.queued[u]
  {
    if Enabled(s, e) {
      match e
      case Reserving(urls, priority, force, policy) => ReserveAllGrows(s, urls, priority, force, policy, u);
      case Releasing => ReleaseAllKeepsQueued(s);
      case Starting => StartSomeKeepsBooks(s.(busy := true), Width);
      case Finishing => FinishAllRetires(s, u);
      case _ =>
    }
  }

  lemma {:induction false} StartSomeKeepsBooks(s: State, n: nat)
    ensures StartSome(s, n).queued == s.queued && StartSome(s, n).callers == s.callers
    decreases n
  {
    if n != 0 && s.pending != [] {
      StartSomeKeepsBooks(StartOne(s), n - 1);
    }
  }

  // ---- the worker empties the queue ------------------------------------------

  function Work(s: State): nat {
    5 * |s.pool| + 4 * |s.held| + 3 * |s.pending| + |s.inflight| + if s.busy then 1 else 0
  }

  function WorkerEvent(s: State): Event {
    if s.held != [] then Draining
    else if s.busy then Finishing
    else if s.pending != [] then Starting
    else Taking
  }

  lemma {:induction false} StartSomeWork(s: State, n: nat)
    ensures var s' := StartSome(s, n);
            && 3 * |s'.pending| + |s'.inflight| <= 3 * |s.pending| + |s.inflight|
            && (n > 0 && s.pending != [] ==> 3 * |s'.pending| + |s'.inflight| + 2 <= 3 * |s.pending| + |s.inflight|)
            && s'.pool == s.pool && s'.held == s.held && s'.busy == s.busy && s'.reserved == s.reserved
    decreases n
  {
    if n != 0 && s.pending != [] {
      StartSomeWork(StartOne(s), n - 1);
    }
  }

  lemma {:induction false} FinishAllWork(s: State)
    ensures var s' := FinishAll(s);
            s'.inflight == [] && s'.pool == s.pool && s'.held == s.held && s'.pending == s.pending && s'.reserved == s.reserved
    decreases |s.inflight|
  {
    if s.inflight != [] {
      FinishAllWork(FinishOne(s));
    }
  }

  lemma WorkerStep(s: State)
    requires Inv(s) && (s.pool != [] || s.held != [] || s.busy || s.pending != [])
    ensures Enabled(s, WorkerEvent(s)) && Work(Next(s, WorkerEvent(s))) < Work(s)
    ensures Next(s, WorkerEvent(s)).reserved == s.reserved
  {
    hide Sort, Deduped, Covered, NothingLost, PoolIsNewer, Reservations, Books, Sorted, UniqueUrls, StartSome, FinishAll;
    if s.held != [] {
      assert |Deduped(Sort(s.held + s.pool))| <= |s.held| + |s.pool|;
    } else if s.busy {
      FinishAllWork(s);
    } else if s.pending != [] {
      StartSomeWork(s.(busy := true), Width);
    }
  }

  /** With nothing reserved, an idle worker and an empty queue mean that every request was run. */
  lemma QuietMeansServed(s: State)
    requires Inv(s) && s.reserved == [] && s.pool == [] && s.held == [] && !s.busy && s.pending == []
    ensures s.queued == map[]
  {
    hide Covered, PoolIsNewer, Reservations, Books;
    assert Copies(s) == {};
    assert forall u :: u in s.queued ==> Outstanding(Copies(s), u, s.queued[u]);
    assert s.queued.Keys == {};
  }

  /** Once callers stop, the worker alone serves every accepted URL. */
  lemma {:induction false} WorkerServesEverything(s: State) returns (events: seq<Event>)
    requires Inv(s) && s.reserved == []
    ensures Run(s, events).queued == map[]
    ensures forall e :: e in events ==> e.Taking? || e.Draining? || e.Starting? || e.Finishing?
    decreases Work(s)
  {
    if s.pool == [] && s.held == [] && !s.busy && s.pending == [] {
      QuietMeansServed(s);
      events := [];
    } else {
      var e := WorkerEvent(s);
      WorkerStep(s);
      NextKeepsInv(s, e);
      hide Inv, Work;
      var rest := WorkerServesEverything(Next(s, e));
      events := [e] + rest;
      assert events[1..] == rest;
    }
  }

  // ---- the module's variables and its critical sections ----------------------

  function UpToQuery(url: string): (r: string)
    ensures r <= url && '?' !in r
    ensures r == url || (|r| < |url| && url[|r|] == '?')
  {
    if url == "" || url[0] == '?' then "" else [url[0]] + UpToQuery(url[1..])
  }

  /** `normalize_config_url` */
  function ConfigKey(url: string): (r: string)
    ensures r <= url && '?' !in r
    ensures r == url || (|r| < |url| && url[|r|] == '?')
  {
    UpToQuery(url)
  }

  /** The distinct non-empty keys of a request, in order of first appearance. */
  function Wanted(urls: seq<string>): (r: seq<string>)
    ensures Distinct(r)
    ensures forall u :: u in r <==> u != "" && exists v :: v in urls && u == ConfigKey(v)
  {
    if urls == [] then []
    else
      var n := |urls| - 1;
      assert urls == urls[..n] + [urls[n]];
      var before, key := Wanted(urls[..n]), ConfigKey(urls[n]);
      if key == "" || key in before then before else before + [key]
  }

  method WantedUrls(urls: seq<string>) returns (normalized: seq<string>)
    ensures normalized == Wanted(urls)
    ensures forall i, j :: 0 <= i < j < |normalized| ==> AppearsBefore(urls, normalized[i], normalized[j])
  {
    hide ConfigKey, AppearsBefore;
    WantedInOrder(urls);
    normalized := [];
    var seen: set<string> := {};
    for k := 0 to |urls|
      invariant normalized == Wanted(urls[..k])
      invariant forall u :: u in seen <==> u in normalized
    {
      var key := ConfigKey(urls[k]);
      assert urls[..k + 1][..k] == urls[..k];
      if key != "" && key !in seen {
        seen := seen + {key};
        normalized := normalized + [key];
      }
    }
    assert urls[..|urls|] == urls;
  }

  /** `a` occurs in front of every occurrence of `b`. */
  ghost predicate AppearsBefore(urls: seq<string>, a: string, b: string) {
    forall n :: 0 <= n < |urls| && ConfigKey(urls[n]) == b ==> exists m :: 0 <= m < n && ConfigKey(urls[m]) == a
  }

  /** The accepted URLs keep the order in which the caller first named them. */
  lemma {:induction false} WantedInOrder(urls: seq<string>)
    ensures forall i, j :: 0 <= i < j < |Wanted(urls)| ==> AppearsBefore(urls, Wanted(urls)[i], Wanted(urls)[j])
  {
    hide ConfigKey;
    if urls != [] {
      var front, before, r := urls[..|urls| - 1], Wanted(urls[..|urls| - 1]), Wanted(urls);
      WantedInOrder(front);
      forall i, j | 0 <= i < j < |r| ensures AppearsBefore(urls, r[i], r[j]) {
        assert r[i] in before && before[i] == r[i];
        var v :| v in front && r[i] == ConfigKey(v);
        var m :| 0 <= m < |front| && front[m] == v;
        assert ConfigKey(urls[m]) == r[i];
        forall n | 0 <= n < |urls| && ConfigKey(urls[n]) == r[j]
          ensures exists m' :: 0 <= m' < n && ConfigKey(urls[m']) == r[i]
        {
          if n < |front| {
            assert front[n] == urls[n] && r[j] in before;
            LaterIn(front, before, r, i, j, n);
          }
        }
      }
    }
  }

  lemma LaterIn(front: seq<string>, before: seq<string>, r: seq<string>, i: nat, j: nat, n: nat)
    requires i < j < |r| && n < |front| && before <= r && Distinct(r) && r[j] in before
    requires ConfigKey(front[n]) == r[j]
    requires forall i, j :: 0 <= i < j < |before| ==> AppearsBefore(front, before[i], before[j])
    ensures exists m :: 0 <= m < n && ConfigKey(front[m]) == r[i]
  {
    var k :| 0 <= k < |before| && before[k] == r[j];
    assert r[k] == r[j];
    assert AppearsBefore(front, before[i], before[j]);
  }

  class StemQueue {
    var queued: map<string, Request>
    var pool: seq<Item>
    var held: seq<Item>
    var pending: seq<Item>
    var inflight: seq<Item>
    var busy: bool
    var reserved: seq<Reservation>
    var nextToken: nat
    var nextOrder: nat
    ghost var callers: map<string, seq<Request>>

    constructor ()
      ensures Now() == Initial && Inv(Now())
    {
      queued, pool, held, pending, inflight, busy := map[], [], [], [], [], false;
      reserved, nextToken, nextOrder, callers := [], 0, 0, map[];
      new;
      InitialHolds();
    }

    ghost function Now(): State
      reads this
    {
      State(queued, pool, held, pending, inflight, busy, reserved, callers, nextToken, nextOrder)
    }

    /** The gate and the first half of `enqueue_missing`: admit the URLs. */
    method Admit(urls: seq<string>, priority: bool, force: bool, policy: Policy, enabled: bool, shutdown: bool)
      returns (accepted: seq<string>)
      requires Inv(Now()) && reserved == []
      modifies this
      ensures Inv(Now())
      ensures accepted == if enabled && policy.network && !shutdown then Wanted(urls) else []
      ensures Now() == if accepted == [] then old(Now())
                       else Next(old(Now()), Reserving(accepted, if priority then 0 else 1, force, policy))
      ensures forall u :: u in accepted ==>
        u in queued && Below(Request(if priority then 0 else 1, force, policy, 0), queued[u])
    {
      hide Inv, Wanted, Below, ReserveOne;
      accepted := [];
      if !enabled || !policy.network || shutdown {
        return;
      }
      accepted := WantedUrls(urls);
      var prio := if priority then 0 else 1;
      NextKeepsInv(Now(), Reserving(accepted, prio, force, policy));
      ghost var start := Now();
      for k := 0 to |accepted|
        invariant ReserveAll(Now(), accepted[k..], prio, force, policy)
               == ReserveAll(start, accepted, prio, force, policy)
      {
        assert accepted[k..][0] == accepted[k] && accepted[k..][1..] == accepted[k + 1..];
        ReserveUrl(accepted[k], prio, force, policy);
      }
      assert accepted[|accepted|..] == [];
      AdmittedAreQueued(start, accepted, prio, force, policy);
    }

    method ReserveUrl(key: string, prio: nat, force: bool, policy: Policy)
      modifies this
      ensures Now() == ReserveOne(old(Now()), key, prio, force, policy)
    {
      var request := Request(prio, force, policy, nextToken);
      nextToken := nextToken + 1;
      var previous := if key in queued then Some(queued[key]) else None;
      var merged := if previous.Some? then Join(previous.value, request) else request;
      callers := callers[key := (if key in callers then callers[key] else []) + [request]];
      queued := queued[key := merged];
      reserved := reserved + [Reservation(key, merged, previous)];
    }

    /** The second half of `enqueue_missing`: make the admitted items executable. */
    method ReleaseReserved()
      requires Inv(Now())
      modifies this
      ensures Inv(Now()) && Now() == ReleaseAll(old(Now()))
    {
      hide Inv;
      ReleaseAllKeepsInv(Now());
      while reserved != []
        invariant ReleaseAll(Now()) == ReleaseAll(old(Now()))
        decreases |reserved|
      {
        var r := reserved[0];
        reserved := reserved[1..];
        if r.url in queued && queued[r.url] == r.request {
          PutItem(r.url, r.request);
        }
      }
    }

    method PutItem(url: string, request: Request)
      modifies this
      ensures Now() == Put(old(Now()), url, request)
    {
      pool := Insert(pool, Item(nextOrder, url, request));
      nextOrder := nextOrder + 1;
    }

    /** The `except` branch of `enqueue_missing`. */
    method RollbackReserved()
      requires Inv(Now())
      modifies this
      ensures Now() == RollbackAll(old(Now()))
      ensures Inv(Now()) <==> old(SafeRollbacks(Now()))
    {
      hide Inv, SafeRollbacks;
      RollbackAllKeepsInvIff(Now());
      while reserved != []
        invariant RollbackAll(Now()) == RollbackAll(old(Now()))
        decreases |reserved|
      {
        var r := reserved[0];
        reserved := reserved[1..];
        if r.url in queued && queued[r.url] == r.request {
          match r.previous {
            case None =>
              queued, callers := queued - {r.url}, callers - {r.url};
            case Some(previous) =>
              queued := queued[r.url := previous];
              callers := if r.url in callers then callers[r.url := ButLast(callers[r.url])] else callers;
              PutItem(r.url, previous);
          }
        }
      }
    }

    /** `_url_queue.get()` followed by `_drain_queued_items`; other callers may act between. */
    method TakeFirst()
      requires Inv(Now()) && Enabled(Now(), Taking)
      modifies this
      ensures Inv(Now()) && Now() == Next(old(Now()), Taking)
      ensures |held| == 1 && Urgency(held, old(pool))
    {
      HeadIsFirst(Now());
      hide Inv;
      NextKeepsInv(Now(), Taking);
      held, pool := [pool[0]], pool[1..];
    }

    method DrainItems()
      requires Inv(Now()) && held != []
      modifies this
      ensures Inv(Now()) && Now() == Next(old(Now()), Draining)
    {
      hide Inv, Sort, Deduped, Coalesces;
      NextKeepsInv(Now(), Draining);
      var items := Sort(held + pool);
      held, pool := [], [];
      pending := DedupeSorted(items);
    }

    /** Split off a chunk and keep what is still current. */
    method StartChunk()
      requires Inv(Now()) && Enabled(Now(), Starting)
      modifies this
      ensures Inv(Now()) && Now() == Next(old(Now()), Starting)
      ensures forall c :: c in inflight ==>
        c.url in queued && c.request == queued[c.url] && LeastPrivilege(c.request, callers[c.url])
      ensures Urgency(inflight, pending)
    {
      hide Inv, LeastPrivilege, Urgency;
      ChunkComesFirst(Now());
      ChunkServesCallers(Now());
      busy := true;
      ghost var start := Now();
      var left := Width;
      while left > 0 && pending != []
        invariant 0 <= left <= Width
        invariant StartSome(Now(), left) == StartSome(start, Width)
        decreases left
      {
        var item := pending[0];
        pending := pending[1..];
        if item.url in queued && queued[item.url] == item.request {
          inflight := inflight + [item];
        }
        left := left - 1;
      }
    }

    /** Retire the chunk and take what arrived meanwhile. */
    method FinishChunk()
      requires Inv(Now()) && busy
      modifies this
      ensures Inv(Now()) && Now() == Next(old(Now()), Finishing)
    {
      hide Inv, Sort, Deduped, Coalesces;
      NextKeepsInv(Now(), Finishing);
      while inflight != []
        invariant FinishAll(Now()) == FinishAll(old(Now()))
        decreases |inflight|
      {
        var item := inflight[0];
        inflight := inflight[1..];
        if item.url in queued && queued[item.url] == item.request {
          queued, callers := queued - {item.url}, callers - {item.url};
        }
      }
      var newly := pool;
      pool, busy := [], false;
      if newly != [] {
        pending := DedupeSorted(Sort(pending + newly));
      }
    }
  }

  lemma {:induction false} ReserveAllRaises(s: State, urls: seq<string>, priority: nat, force: bool, policy: Policy,
                                            u: string)
    requires u in s.queued
    ensures var s' := ReserveAll(s, urls, priority, force, policy);
            u in s'.queued && Below(s.queued[u], s'.queued[u])
    decreases |urls|
  {
    if urls != [] {
      ReserveAllRaises(ReserveOne(s, urls[0], priority, force, policy), urls[1..], priority, force, policy, u);
    }
  }

  lemma {:induction false} AdmittedAreQueued(s: State, urls: seq<string>, priority: nat, force: bool, policy: Policy)
    ensures var s' := ReserveAll(s, urls, priority, force, policy);
            forall u :: u in urls ==> u in s'.queued && Below(Request(priority, force, policy, 0), s'.queued[u])
    decreases |urls|
  {
    if urls != [] {
      var s1 := ReserveOne(s, urls[0], priority, force, policy);
      ReserveAllRaises(s1, urls[1..], priority, force, policy, urls[0]);
      AdmittedAreQueued(s1, urls[1..], priority, force, policy);
      assert forall u :: u in urls <==> u == urls[0] || u in urls[1..];
    }
  }
}
