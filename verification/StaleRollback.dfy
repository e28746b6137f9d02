/** A run of the fetch queue in which one caller's failing callback makes the worker drop
    another caller's accepted fetch (core/catalogue_stem_cache.py). */
module StaleRollback {
  import opened Text
  import opened FetchQueue

  function Req(priority: nat, force: bool, p: Policy, token: nat): Request {
    Request(priority, force, p, token)
  }

  /** The first fetch of `u` is in flight when a second caller's callback fails: the version put
      back is a second copy of what is running. */
  function RolledBack(u: string, p: Policy): State {
    State(map[u := Req(1, true, p, 0)], [Item(1, u, Req(1, true, p, 0))], [], [], [Item(0, u, Req(1, true, p, 0))], true,
          [], map[u := [Req(1, true, p, 0)]], 2, 2)
  }

  /** Two better URLs run first, while the stale copy waits. */
  function StaleWaits(u: string, a: string, b: string, p: Policy): State {
    State(map[a := Req(0, false, p, 2), b := Req(0, false, p, 3)], [], [], [Item(1, u, Req(1, true, p, 0))],
          [Item(2, a, Req(0, false, p, 2)), Item(3, b, Req(0, false, p, 3))], true,
          [], map[a := [Req(0, false, p, 2)], b := [Req(0, false, p, 3)]], 4, 4)
  }

  /** A third caller's request is still queued, but nothing will ever run it. */
  function Stranded(u: string, p: Policy): State {
    State(map[u := Req(1, false, p, 4)], [], [], [], [], false, [], map[u := [Req(1, false, p, 4)]], 5, 5)
  }

  lemma ReserveOnly(s: State, u: string, priority: nat, force: bool, p: Policy)
    requires s.reserved == []
    ensures Next(s, Reserving([u], priority, force, p)) == ReserveOne(s, u, priority, force, p)
  {
    var s' := ReserveOne(s, u, priority, force, p);
    assert ReserveAll(s', [], priority, force, p) == s';
    assert [u][1..] == [];
  }

  lemma ReleaseOnly(s: State)
    requires |s.reserved| == 1
    ensures Next(s, Releasing) == ReleaseOne(s) && Next(s, RollingBack) == RollbackOne(s)
  {
    assert ReleaseAll(ReleaseOne(s)) == ReleaseOne(s);
    assert RollbackAll(RollbackOne(s)) == RollbackOne(s);
  }

  lemma DrainOnly(s: State, item: Item)
    requires s.held == [item] && s.pool == []
    ensures Drain(s) == s.(pending := [item], held := [])
  {
    assert s.held + s.pool == [item];
    SortOnly(item);
    DedupeOnly(item);
  }

  lemma SortOnly(item: Item)
    ensures Sort([item]) == [item]
  {
    assert [item][..0] == [];
    assert Sort([]) == [];
    assert Insert([], item) == [item];
  }

  lemma DedupeOnly(item: Item)
    ensures Deduped([item]) == [item]
  {
    assert [item][..0] == [];
    assert FirstUrls([]) == [];
    assert Joined([], item.url) == None;
    assert FirstUrls([item]) == [item.url];
    assert Joins([item]) == [item];
    SortOnly(item);
  }

  lemma StartOnly(s: State, item: Item)
    requires s.pending == [item]
    ensures StartSome(s, Width) == StartOne(s)
  {
    assert StartOne(s).pending == [];
    assert StartSome(StartOne(s), 1) == StartOne(s);
  }

  lemma {:induction false} RunThrough(states: seq<State>, events: seq<Event>)
    requires |states| == |events| + 1
    requires forall k :: 0 <= k < |events| ==> states[k + 1] == Next(states[k], events[k])
    ensures Run(states[0], events) == states[|events|]
    decreases |events|
  {
    if events != [] {
      RunThrough(states[1..], events[1..]);
    }
  }

  function Running(u: string, p: Policy): State {
    RolledBack(u, p).(pool := [], nextToken := 1, nextOrder := 1)
  }

  lemma FirstFetchStarts(u: string, p: Policy)
    ensures Run(Initial, [Reserving([u], 1, true, p), Releasing, Taking, Draining, Starting]) == Running(u, p)
  {
    hide ReserveAll, ReleaseAll, RollbackAll, StartSome, Sort, Deduped, Run;
    var r0 := Req(1, true, p, 0);
    var item := Item(0, u, r0);
    ReserveOnly(Initial, u, 1, true, p);
    var s1 := State(map[u := r0], [], [], [], [], false, [Reservation(u, r0, None)], map[u := [r0]], 1, 0);
    assert Next(Initial, Reserving([u], 1, true, p)) == s1 by {
      assert [] + [r0] == [r0] && [] + [Reservation(u, r0, None)] == [Reservation(u, r0, None)];
    }
    ReleaseOnly(s1);
    var s2 := s1.(pool := [item], reserved := [], nextOrder := 1);
    assert Next(s1, Releasing) == s2 by {
      assert s1.reserved[1..] == [];
      assert Insert([], item) == [item];
    }
    var s3 := s2.(held := [item], pool := []);
    DrainOnly(s3, item);
    var s4 := s3.(pending := [item], held := []);
    StartOnly(s4.(busy := true), item);
    RunThrough([Initial, s1, s2, s3, s4, Running(u, p)],
               [Reserving([u], 1, true, p), Releasing, Taking, Draining, Starting]);
  }

  lemma RollbackWhileRunning(u: string, p: Policy)
    ensures Run(Running(u, p), [Reserving([u], 1, true, p), RollingBack]) == RolledBack(u, p)
  {
    hide ReserveAll, RollbackAll, Run;
    var s5 := Running(u, p);
    ReserveOnly(s5, u, 1, true, p);
    var s6 := ReserveOne(s5, u, 1, true, p);
    SecondReservation(s5, u, p);
    ReleaseOnly(s6);
    RunThrough([s5, s6, RolledBack(u, p)], [Reserving([u], 1, true, p), RollingBack]);
  }

  lemma SecondReservation(s: State, u: string, p: Policy)
    requires s == State(map[u := Req(1, true, p, 0)], [], [], [], [Item(0, u, Req(1, true, p, 0))], true, [],
                        map[u := [Req(1, true, p, 0)]], 1, 1)
    ensures RollbackOne(ReserveOne(s, u, 1, true, p)) == RolledBack(u, p)
    ensures |ReserveOne(s, u, 1, true, p).reserved| == 1
  {
    var r0, r1 := Req(1, true, p, 0), Req(1, true, p, 1);
    var s1 := ReserveOne(s, u, 1, true, p);
    assert s1.reserved == [Reservation(u, r1, Some(r0))];
    assert s1.callers[u] == [r0, r1];
    assert ButLast([r0, r1]) == [r0];
    assert Insert([], Item(1, u, r0)) == [Item(1, u, r0)];
  }

  predicate StrictlySorted(items: seq<Item>) {
    forall i, j :: 0 <= i < j < |items| ==> !NotAfter(items[j], items[i])
  }

  lemma {:induction false} InsertLast(items: seq<Item>, x: Item)
    requires forall c :: c in items ==> !NotAfter(x, c)
    ensures Insert(items, x) == items + [x]
  {
    if items != [] {
      InsertLast(items[1..], x);
      assert items == [items[0]] + items[1..];
    }
  }

  lemma {:induction false} SortOfSorted(items: seq<Item>)
    requires StrictlySorted(items)
    ensures Sort(items) == items
  {
    if items != [] {
      var n := |items| - 1;
      SortOfSorted(items[..n]);
      InsertLast(items[..n], items[n]);
      assert items == items[..n] + [items[n]];
    }
  }

  lemma {:induction false} JoinedAlone(items: seq<Item>, k: nat)
    requires UniqueUrls(items) && k < |items|
    ensures Joined(items, items[k].url) == Some(items[k])
  {
    var n := |items| - 1;
    if k < n {
      JoinedAlone(items[..n], k);
    } else {
      assert forall c :: c in items[..n] ==> c.url != items[n].url;
    }
  }

  lemma {:induction false} FirstUrlsAlone(items: seq<Item>)
    requires UniqueUrls(items)
    ensures |FirstUrls(items)| == |items| && forall k :: 0 <= k < |items| ==> FirstUrls(items)[k] == items[k].url
  {
    if items != [] {
      var n := |items| - 1;
      FirstUrlsAlone(items[..n]);
      assert forall c :: c in items[..n] ==> c.url != items[n].url;
    }
  }

  lemma DedupeOfSorted(items: seq<Item>)
    requires UniqueUrls(items) && StrictlySorted(items)
    ensures Sort(items) == items && Deduped(items) == items
  {
    FirstUrlsAlone(items);
    forall k | 0 <= k < |items| ensures Joins(items)[k] == items[k] {
      JoinedAlone(items, k);
    }
    assert Joins(items) == items;
    SortOfSorted(items);
  }

  lemma DedupeOfPair(x: Item, y: Item)
    requires x.url == y.url && !NotAfter(y, x) && x.order <= y.order
    ensures Sort([x, y]) == [x, y] && Deduped([x, y]) == [Absorbed(x, y)]
  {
    var items := [x, y];
    SortOfSorted(items);
    assert items[..1] == [x];
    JoinedAlone([x], 0);
    FirstUrlsAlone([x]);
    assert FirstUrls(items) == [x.url];
    assert Joined(items, x.url) == Some(Absorbed(x, y));
    assert Joins(items) == [Absorbed(x, y)];
    SortOnly(Absorbed(x, y));
  }

  /** Two better URLs overtake the stale copy. */
  lemma BetterUrlsOvertake(u: string, a: string, b: string, p: Policy)
    requires a != b && u != a && u != b
    ensures Run(RolledBack(u, p), [Reserving([a, b], 0, false, p), Releasing, Finishing, Starting]) == StaleWaits(u, a, b, p)
  {
    hide Run, Sort, Deduped, Insert, Next, NotAfter;
    var t0 := RolledBack(u, p);
    var r0, ra, rb := Req(1, true, p, 0), Req(0, false, p, 2), Req(0, false, p, 3);
    var iu, ia, ib := Item(1, u, r0), Item(2, a, ra), Item(3, b, rb);
    ReservePair(t0, a, b, p);
    var t1 := t0.(queued := map[u := r0, a := ra, b := rb], callers := map[u := [r0], a := [ra], b := [rb]],
                  reserved := [Reservation(a, ra, None), Reservation(b, rb, None)], nextToken := 4);
    ReleasePair(t1, u, a, b, p);
    var t2 := t1.(pool := [ia, ib, iu], reserved := [], nextOrder := 4);
    var t3 := t2.(pool := [], pending := [ia, ib, iu], inflight := [], busy := false,
                  queued := map[a := ra, b := rb], callers := map[a := [ra], b := [rb]]);
    FinishTriple(t2, u, a, b, p);
    assert t2.queued - {u} == t3.queued && t2.callers - {u} == t3.callers;
    StartPair(t3, ia, ib, iu);
    RunThrough([t0, t1, t2, t3, StaleWaits(u, a, b, p)],
               [Reserving([a, b], 0, false, p), Releasing, Finishing, Starting]);
  }

  lemma FinishTriple(s: State, u: string, a: string, b: string, p: Policy)
    requires a != b && u != a && u != b && s.busy && s.pending == []
    requires var iu, ia, ib := Item(1, u, Req(1, true, p, 0)), Item(2, a, Req(0, false, p, 2)),
                               Item(3, b, Req(0, false, p, 3));
             s.pool == [ia, ib, iu] && s.inflight == [iu.(order := 0)] && u in s.queued && s.queued[u] == iu.request
    ensures Next(s, Finishing) == s.(pool := [], pending := s.pool, inflight := [], busy := false,
                                        queued := s.queued - {u}, callers := s.callers - {u})
  {
    hide Sort, Deduped, NotAfter, Joins;
    var f := s.(inflight := [], queued := s.queued - {u}, callers := s.callers - {u});
    assert FinishOne(s) == f;
    assert FinishAll(f) == f && FinishAll(s) == f;
    assert [] + s.pool == s.pool;
    DedupeOfTriple(Item(2, a, Req(0, false, p, 2)), Item(3, b, Req(0, false, p, 3)), Item(1, u, Req(1, true, p, 0)));
  }

  lemma DedupeOfTriple(x: Item, y: Item, z: Item)
    requires x.url != y.url && y.url != z.url && x.url != z.url
    requires x.request.priority == y.request.priority < z.request.priority && x.order < y.order
    ensures Sort([x, y, z]) == [x, y, z] && Deduped([x, y, z]) == [x, y, z]
  {
    hide Sort, Deduped;
    DedupeOfSorted([x, y, z]);
  }

  lemma ReservePair(s: State, a: string, b: string, p: Policy)
    requires s.reserved == [] && a != b && a !in s.queued && b !in s.queued && a !in s.callers && b !in s.callers
    ensures var ra, rb := Req(0, false, p, s.nextToken), Req(0, false, p, s.nextToken + 1);
            Next(s, Reserving([a, b], 0, false, p)) ==
            s.(queued := s.queued[a := ra][b := rb], callers := s.callers[a := [ra]][b := [rb]],
               reserved := [Reservation(a, ra, None), Reservation(b, rb, None)], nextToken := s.nextToken + 2)
  {
    var s1 := ReserveOne(s, a, 0, false, p);
    var s2 := ReserveOne(s1, b, 0, false, p);
    assert [a, b][1..] == [b] && [b][1..] == [];
    assert ReserveAll(s2, [], 0, false, p) == s2;
    assert ReserveAll(s1, [b], 0, false, p) == s2;
    var ra, rb := Req(0, false, p, s.nextToken), Req(0, false, p, s.nextToken + 1);
    assert [] + [ra] == [ra] && [] + [rb] == [rb];
    assert s2.reserved == [Reservation(a, ra, None), Reservation(b, rb, None)];
  }

  lemma ReleasePair(s: State, u: string, a: string, b: string, p: Policy)
    requires a != b && u != a && u != b && s.nextOrder == 2
    requires var r0, ra, rb := Req(1, true, p, 0), Req(0, false, p, 2), Req(0, false, p, 3);
             && s.queued == map[u := r0, a := ra, b := rb] && s.pool == [Item(1, u, r0)]
             && s.reserved == [Reservation(a, ra, None), Reservation(b, rb, None)]
    ensures Next(s, Releasing) == s.(reserved := [], nextOrder := 4,
              pool := [Item(2, a, Req(0, false, p, 2)), Item(3, b, Req(0, false, p, 3)), Item(1, u, Req(1, true, p, 0))])
  {
    var s1 := ReleaseOne(s);
    var iu, ia, ib := Item(1, u, Req(1, true, p, 0)), Item(2, a, Req(0, false, p, 2)), Item(3, b, Req(0, false, p, 3));
    assert Insert([iu], ia) == [ia, iu];
    assert s1.pool == [ia, iu];
    assert [ia, iu][1..] == [iu];
    assert Insert([iu], ib) == [ib, iu];
    assert Insert([ia, iu], ib) == [ia, ib, iu];
    assert s1.reserved == [Reservation(b, Req(0, false, p, 3), None)];
    var s2 := ReleaseOne(s1);
    assert s2.reserved == [];
    assert ReleaseAll(s2) == s2 && ReleaseAll(s1) == s2;
  }

  lemma StartPair(s: State, x: Item, y: Item, z: Item)
    requires s.pending == [x, y, z] && s.inflight == [] && !s.busy && Current(s, x) && Current(s, y)
    ensures Next(s, Starting) == s.(pending := [z], inflight := [x, y], busy := true)
  {
    var s0 := s.(busy := true);
    var s1 := StartOne(s0);
    var s2 := StartOne(s1);
    assert s1 == s0.(pending := [y, z], inflight := [x]);
    assert s2 == s0.(pending := [z], inflight := [x, y]);
    assert StartSome(s2, 0) == s2;
    assert StartSome(s1, 1) == s2;
    assert StartSome(s0, 2) == s2;
  }

  function Waiting(u: string, a: string, b: string, p: Policy): State {
    StaleWaits(u, a, b, p).(
      queued := StaleWaits(u, a, b, p).queued[u := Req(1, false, p, 4)],
      callers := StaleWaits(u, a, b, p).callers[u := [Req(1, false, p, 4)]],
      pool := [Item(4, u, Req(1, false, p, 4))], nextToken := 5, nextOrder := 5)
  }

  lemma ThirdCaller(u: string, a: string, b: string, p: Policy)
    requires a != b && u != a && u != b
    ensures Next(Next(StaleWaits(u, a, b, p), Reserving([u], 1, false, p)), Releasing) == Waiting(u, a, b, p)
  {
    hide Sort, Deduped, ReserveAll, ReleaseAll, NotAfter;
    var t0, newer := StaleWaits(u, a, b, p), Item(4, u, Req(1, false, p, 4));
    ReserveOnly(t0, u, 1, false, p);
    var t1 := ReserveOne(t0, u, 1, false, p);
    assert t1.reserved == [Reservation(u, newer.request, None)] && t1.callers[u] == [newer.request];
    ReleaseOnly(t1);
    assert t1.reserved[1..] == [] && Insert([], newer) == [newer];
  }

  /** The third caller's request joins the stale copy into one that is not current. */
  lemma StaleCopySwallows(u: string, a: string, b: string, p: Policy)
    requires a != b && u != a && u != b
    ensures Run(StaleWaits(u, a, b, p), [Reserving([u], 1, false, p), Releasing, Finishing, Starting, Finishing])
         == Stranded(u, p)
  {
    hide Run, Next, StaleWaits;
    ThirdCaller(u, a, b, p);
    var t0, t2 := StaleWaits(u, a, b, p), Waiting(u, a, b, p);
    var joined := Absorbed(Item(1, u, Req(1, true, p, 0)), Item(4, u, Req(1, false, p, 4)));
    WaitingFinishes(u, a, b, p, joined);
    NotCurrent(u, p, joined);
    RunThrough([t0, Next(t0, Reserving([u], 1, false, p)), t2, Stranded(u, p).(pending := [joined]),
                Stranded(u, p).(busy := true), Stranded(u, p)],
               [Reserving([u], 1, false, p), Releasing, Finishing, Starting, Finishing]);
  }

  lemma WaitingFinishes(u: string, a: string, b: string, p: Policy, joined: Item)
    requires a != b && u != a && u != b
    requires joined == Absorbed(Item(1, u, Req(1, true, p, 0)), Item(4, u, Req(1, false, p, 4)))
    ensures Next(Waiting(u, a, b, p), Finishing) == Stranded(u, p).(pending := [joined])
  {
    hide Next;
    var t2 := Waiting(u, a, b, p);
    FinishPair(t2, u, a, b, p);
    assert t2.queued - {a} - {b} == Stranded(u, p).queued && t2.callers - {a} - {b} == Stranded(u, p).callers;
  }

  lemma NotCurrent(u: string, p: Policy, item: Item)
    requires item.url == u && item.request.force
    ensures Next(Stranded(u, p).(pending := [item]), Starting) == Stranded(u, p).(busy := true)
    ensures Next(Stranded(u, p).(busy := true), Finishing) == Stranded(u, p)
  {
    hide Sort, Deduped;
    StartOnly(Stranded(u, p).(pending := [item], busy := true), item);
  }

  lemma FinishPair(s: State, u: string, a: string, b: string, p: Policy)
    requires a != b && u != a && u != b && s.busy
    requires var stale, newer := Item(1, u, Req(1, true, p, 0)), Item(4, u, Req(1, false, p, 4));
             var ia, ib := Item(2, a, Req(0, false, p, 2)), Item(3, b, Req(0, false, p, 3));
             && s.pool == [newer] && s.pending == [stale] && s.inflight == [ia, ib]
             && a in s.queued && s.queued[a] == ia.request && b in s.queued && s.queued[b] == ib.request
    ensures Next(s, Finishing)
         == s.(pool := [], pending := [Absorbed(s.pending[0], s.pool[0])], inflight := [], busy := false,
               queued := s.queued - {a} - {b}, callers := s.callers - {a} - {b})
  {
    hide Sort, Deduped;
    var f1 := FinishOne(s);
    var f2 := FinishOne(f1);
    assert f1.inflight == [Item(3, b, Req(0, false, p, 3))] && f2.inflight == [];
    assert FinishAll(f2) == f2 && FinishAll(f1) == f2 && FinishAll(s) == f2;
    assert s.pending + s.pool == [s.pending[0], s.pool[0]];
    DedupeOfPair(s.pending[0], s.pool[0]);
  }

  /** The failing callback of one caller can make the worker drop another caller's accepted
      fetch: the run ends idle with a request queued that no copy carries. */
  lemma RollbackCanLoseAFetch(u: string, a: string, b: string, p: Policy)
    requires a != b && u != a && u != b
    ensures exists events :: Run(Initial, events) == Stranded(u, p)
  {
    hide Run, RolledBack, Running, StaleWaits, Stranded;
    FirstFetchStarts(u, p);
    RollbackWhileRunning(u, p);
    BetterUrlsOvertake(u, a, b, p);
    StaleCopySwallows(u, a, b, p);
    var first, second := [Reserving([u], 1, true, p), Releasing, Taking, Draining, Starting],
                         [Reserving([u], 1, true, p), RollingBack];
    var third, fourth := [Reserving([a, b], 0, false, p), Releasing, Finishing, Starting],
                         [Reserving([u], 1, false, p), Releasing, Finishing, Starting, Finishing];
    RunConcat(RolledBack(u, p), third, fourth);
    RunConcat(Running(u, p), second, third + fourth);
    RunConcat(Initial, first, second + (third + fourth));
  }

  lemma StrandedIsLost(u: string, p: Policy)
    ensures u in Stranded(u, p).queued && Copies(Stranded(u, p)) == {} && Stranded(u, p).reserved == []
    ensures !Inv(Stranded(u, p))
  {
    assert Copies(Stranded(u, p)) == {};
    assert !Outstanding({}, u, Req(1, false, p, 4));
  }

  lemma {:induction false} RunConcat(s: State, x: seq<Event>, y: seq<Event>)
    ensures Run(s, x + y) == Run(Run(s, x), y)
    decreases |x|
  {
    if x == [] {
      assert x + y == y;
    } else {
      assert (x + y)[1..] == x[1..] + y;
      RunConcat(Next(s, x[0]), x[1..], y);
    }
  }
}
