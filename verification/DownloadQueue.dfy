/** The sequential download queue and its self-restarting worker (core/download_queue.py):
    callers and worker threads interleave at every lock. */
module DownloadQueue {
  import opened Text

  datatype Status = Queued | Downloading | Complete | Exists | Failed | Cancelled

  datatype Item = Item(id: nat, selection: string, arch: string, status: Status, stop: bool)

  /** Where a thread that still has work to do stands. `Ensuring` is about to call
      `_ensure_worker`; the others are steps of `_worker_main`. */
  datatype Thread =
    | Ensuring
    | Looping                               // about to call `_next_queued`
    | Picked(item: nat)                     // marked downloading, transfer not started
    | Transferring(item: nat)
    | Leaving                               // saw nothing queued, still active
    | Checking                              // no longer active, about to look again
    | Ended

  datatype State = State(items: seq<Item>, active: bool, threads: seq<Thread>)

  const Initial := State([], false, [])

  /** What the manager's `download` and the publication of its result report. */
  datatype Transfer = Raised | Stopped | Unknown | Got(exists_: bool, ready: bool)

  predicate IsActive(s: Status) {
    s.Queued? || s.Downloading?
  }

  /** The status the worker writes when a transfer ends. */
  function Outcome(stop: bool, t: Transfer): Status {
    match t
    case Raised => if stop then Cancelled else Failed
    case Stopped => Cancelled
    case Unknown => Failed
    case Got(e, ready) => if !ready then Failed else if e then Exists else Complete
  }

  // ---- items -----------------------------------------------------------------

  function Stop(x: Item): Item {
    x.(stop := true, status := if x.status.Queued? then Cancelled else x.status)
  }

  function CancelItem(x: Item, id: nat): Item {
    if x.id == id && IsActive(x.status) then Stop(x) else x
  }

  function CancelAnyItem(x: Item): Item {
    if IsActive(x.status) then Stop(x) else x
  }

  function RetryItem(x: Item, id: nat): Item {
    if x.id == id && x.status.Failed? then x.(status := Queued, stop := false) else x
  }

  function SetItem(x: Item, id: nat, status: Status): Item {
    if x.id == id then x.(status := status) else x
  }

  function Mapped(items: seq<Item>, f: Item -> Item): (r: seq<Item>)
    ensures |r| == |items|
  {
    seq(|items|, k requires 0 <= k < |items| => f(items[k]))
  }

  function CancelIn(items: seq<Item>, id: nat): (r: seq<Item>)
    ensures |r| == |items| && forall k :: 0 <= k < |r| ==> r[k] == CancelItem(items[k], id)
  {
    Mapped(items, x => CancelItem(x, id))
  }

  predicate ActiveFor(items: seq<Item>, selection: string, arch: string) {
    exists x :: x in items && IsActive(x.status) && x.selection == selection && x.arch == arch
  }

  function FirstQueued(items: seq<Item>): (r: Option<nat>)
    ensures r.Some? ==> r.value < |items| && items[r.value].status.Queued?
    ensures r.Some? ==> forall j :: 0 <= j < r.value ==> !items[j].status.Queued?
    ensures r.None? ==> forall x :: x in items ==> !x.status.Queued?
  {
    if items == [] then None
    else if items[0].status.Queued? then Some(0)
    else
      assert items == [items[0]] + items[1..];
      var rest := FirstQueued(items[1..]);
      if rest.Some? then Some(rest.value + 1) else None
  }

  function Finished(items: seq<Item>): (r: seq<Item>)
    ensures forall x :: x in r <==> x in items && (x.status.Queued? || x.status.Downloading? || x.status.Failed?)
    ensures |r| <= |items|
  {
    if items == [] then []
    else
      var n := |items| - 1;
      assert items == items[..n] + [items[n]];
      Finished(items[..n]) + if IsActive(items[n].status) || items[n].status.Failed? then [items[n]] else []
  }

  function StopOf(items: seq<Item>, id: nat): bool {
    exists x :: x in items && x.id == id && x.stop
  }

  // ---- steps -----------------------------------------------------------------

  datatype Event =
    | Enqueue(id: nat, selection: string, arch: string)
    | Cancel(id: nat)
    | CancelAll
    | Retry(id: nat)
    | ClearFinished
    | Advance(thread: nat, transfer: Transfer)   // one step of one thread

  function Moves(s: State, t: nat, to: Thread): State
    requires t < |s.threads|
  {
    s.(threads := s.threads[t := to])
  }

  /** `_ensure_worker`: start a worker unless one is active. */
  function Ensure(s: State, t: nat): State
    requires t < |s.threads|
  {
    if s.active then Moves(s, t, Ended)
    else Moves(s, t, Ended).(active := true, threads := s.threads[t := Ended] + [Looping])
  }

  /** `_next_queued` */
  function Pick(s: State, t: nat): State
    requires t < |s.threads|
  {
    match FirstQueued(s.items)
    case None => Moves(s, t, Leaving)
    case Some(k) => Moves(s.(items := s.items[k := s.items[k].(status := Downloading)]), t, Picked(s.items[k].id))
  }

  function Write(s: State, t: nat, id: nat, status: Status): State
    requires t < |s.threads|
  {
    Moves(s.(items := Mapped(s.items, x => SetItem(x, id, status))), t, Looping)
  }

  function Step(s: State, t: nat, transfer: Transfer): State
    requires t < |s.threads|
  {
    match s.threads[t]
    case Ensuring => Ensure(s, t)
    case Looping => Pick(s, t)
    case Picked(id) => if StopOf(s.items, id) then Write(s, t, id, Cancelled) else Moves(s, t, Transferring(id))
    case Transferring(id) => Write(s, t, id, Outcome(StopOf(s.items, id), transfer))
    case Leaving => Moves(s, t, Checking).(active := false)
    case Checking => Moves(s, t, if FirstQueued(s.items).Some? then Ensuring else Ended)
    case Ended => s
  }

  predicate KnownId(items: seq<Item>, id: nat) {
    exists x :: x in items && x.id == id
  }

  function Next(s: State, e: Event): State {
    match e
    case Enqueue(id, selection, arch) =>
      if KnownId(s.items, id) || ActiveFor(s.items, selection, arch) then s
      else s.(items := s.items + [Item(id, selection, arch, Queued, false)], threads := s.threads + [Ensuring])
    case Cancel(id) => s.(items := CancelIn(s.items, id))
    case CancelAll => s.(items := Mapped(s.items, CancelAnyItem))
    case Retry(id) =>
      if exists x :: x in s.items && x.id == id && x.status.Failed?
      then s.(items := Mapped(s.items, x => RetryItem(x, id)), threads := s.threads + [Ensuring])
      else s
    case ClearFinished => s.(items := Finished(s.items))
    case Advance(t, transfer) => if t < |s.threads| then Step(s, t, transfer) else s
  }

  function Run(s: State, events: seq<Event>): State
    decreases |events|
  {
    if events == [] then s else Run(Next(s, events[0]), events[1..])
  }

  // ---- the invariant ---------------------------------------------------------

  predicate DistinctIds(items: seq<Item>) {
    forall i, j :: 0 <= i < j < |items| ==> items[i].id != items[j].id
  }

  /** A thread that holds the worker role. */
  predicate Working(t: Thread) {
    t.Looping? || t.Picked? || t.Transferring? || t.Leaving?
  }

  predicate Holds(t: Thread, id: nat) {
    (t.Picked? || t.Transferring?) && t.item == id
  }

  /** A thread that will call `_ensure_worker`, or look for queued items first. */
  predicate Due(t: Thread) {
    t.Ensuring? || t.Checking?
  }

  /** The active flag tells the truth: exactly one thread works, or none does. */
  ghost predicate OneWorker(s: State) {
    && (s.active <==> exists t :: 0 <= t < |s.threads| && Working(s.threads[t]))
    && (forall a, b :: 0 <= a < b < |s.threads| && Working(s.threads[a]) ==> !Working(s.threads[b]))
  }

  /** Downloading items are those the worker holds. */
  ghost predicate HeldIsDownloading(s: State) {
    && (forall x :: x in s.items && x.status.Downloading? ==> exists t :: 0 <= t < |s.threads| && Holds(s.threads[t], x.id))
    && (forall t, id :: 0 <= t < |s.threads| && Holds(s.threads[t], id) ==>
          exists x :: x in s.items && x.id == id && x.status.Downloading?)
  }

  /** A queued item has an active worker, or a thread that will see to one. */
  ghost predicate NoneStranded(s: State) {
    (exists x :: x in s.items && x.status.Queued?) ==>
      s.active || exists t :: 0 <= t < |s.threads| && Due(s.threads[t])
  }

  ghost predicate QueuedNotStopped(items: seq<Item>) {
    forall x :: x in items && x.status.Queued? ==> !x.stop
  }

  ghost predicate Inv(s: State) {
    && DistinctIds(s.items) && QueuedNotStopped(s.items)
    && OneWorker(s) && HeldIsDownloading(s) && NoneStranded(s)
  }

  /** At most one item is downloading. */
  lemma OneDownload(s: State, x: Item, y: Item)
    requires Inv(s) && x in s.items && y in s.items && x.status.Downloading? && y.status.Downloading?
    ensures x == y
  {
    var a :| 0 <= a < |s.threads| && Holds(s.threads[a], x.id);
    var b :| 0 <= b < |s.threads| && Holds(s.threads[b], y.id);
    assert Working(s.threads[a]) && Working(s.threads[b]);
  }

  lemma MappedMembers(items: seq<Item>, f: Item -> Item)
    ensures forall x :: x in items ==> f(x) in Mapped(items, f)
    ensures forall y :: y in Mapped(items, f) ==> exists x :: x in items && y == f(x)
  {
    forall x | x in items ensures f(x) in Mapped(items, f) {
      var k :| 0 <= k < |items| && items[k] == x;
      assert Mapped(items, f)[k] == f(x);
    }
  }

  /** Cancelling: no thread moves, nothing becomes queued, downloading items stay so. */
  lemma MapKeepsInv(s: State, f: Item -> Item)
    requires Inv(s)
    requires forall x :: f(x).id == x.id && (f(x).status.Downloading? <==> x.status.Downloading?)
    requires forall x :: f(x).status.Queued? ==> f(x) == x
    ensures Inv(s.(items := Mapped(s.items, f)))
  {
    hide OneWorker, Holds;
    MappedMembers(s.items, f);
    var s' := s.(items := Mapped(s.items, f));
    forall t, id | 0 <= t < |s.threads| && Holds(s.threads[t], id)
      ensures exists x :: x in s'.items && x.id == id && x.status.Downloading?
    {
      var x :| x in s.items && x.id == id && x.status.Downloading?;
      assert f(x) in s'.items;
    }
    SameWorkers(s, s');
  }

  lemma SameWorkers(s: State, s': State)
    requires OneWorker(s) && s'.threads == s.threads && s'.active == s.active
    ensures OneWorker(s')
  {
  }

  lemma AddDue(s: State, s': State)
    requires OneWorker(s) && s'.threads == s.threads + [Ensuring] && s'.active == s.active
    ensures OneWorker(s')
    ensures forall id, t :: 0 <= t < |s'.threads| && Holds(s'.threads[t], id) ==> t < |s.threads|
    ensures exists t :: 0 <= t < |s'.threads| && Due(s'.threads[t])
  {
    assert forall t :: 0 <= t < |s.threads| ==> s'.threads[t] == s.threads[t];
    assert Due(s'.threads[|s.threads|]);
    if s.active {
      var t :| 0 <= t < |s.threads| && Working(s.threads[t]);
      assert Working(s'.threads[t]);
    }
  }

  lemma HeldAddDue(s: State, s': State)
    requires HeldIsDownloading(s) && s'.threads == s.threads + [Ensuring]
    requires forall x :: x in s'.items && x.status.Downloading? <==> x in s.items && x.status.Downloading?
    ensures HeldIsDownloading(s')
  {
    assert forall t :: 0 <= t < |s.threads| ==> s'.threads[t] == s.threads[t];
    forall x | x in s'.items && x.status.Downloading? ensures exists t :: 0 <= t < |s'.threads| && Holds(s'.threads[t], x.id) {
      var t :| 0 <= t < |s.threads| && Holds(s.threads[t], x.id);
      assert Holds(s'.threads[t], x.id);
    }
  }

  lemma EnqueueKeepsInv(s: State, id: nat, selection: string, arch: string)
    requires Inv(s)
    ensures Inv(Next(s, Enqueue(id, selection, arch)))
  {
    hide OneWorker, HeldIsDownloading;
    if !KnownId(s.items, id) && !ActiveFor(s.items, selection, arch) {
      var s', x := Next(s, Enqueue(id, selection, arch)), Item(id, selection, arch, Queued, false);
      assert forall y :: y in s'.items <==> y in s.items || y == x;
      AddDue(s, s');
      HeldAddDue(s, s');
      assert forall k :: 0 <= k < |s.items| ==> s.items[k] in s.items;
    }
  }

  lemma RetryKeepsInv(s: State, id: nat)
    requires Inv(s)
    ensures Inv(Next(s, Retry(id)))
  {
    hide OneWorker, HeldIsDownloading;
    var s' := Next(s, Retry(id));
    if exists x :: x in s.items && x.id == id && x.status.Failed? {
      MappedMembers(s.items, x => RetryItem(x, id));
      forall x: Item | x.status.Downloading? ensures x in s'.items <==> x in s.items {
        if x in s.items {
          assert RetryItem(x, id) == x;
        }
      }
      AddDue(s, s');
      HeldAddDue(s, s');
    }
  }

  lemma {:induction false} FinishedDistinct(items: seq<Item>)
    requires DistinctIds(items)
    ensures DistinctIds(Finished(items))
  {
    if items != [] {
      var n := |items| - 1;
      FinishedDistinct(items[..n]);
      assert forall x :: x in Finished(items[..n]) ==> x in items[..n];
      assert forall x :: x in items[..n] ==> x.id != items[n].id;
    }
  }

  lemma ClearKeepsInv(s: State)
    requires Inv(s)
    ensures Inv(Next(s, ClearFinished))
  {
    hide OneWorker, Holds;
    FinishedDistinct(s.items);
    var s' := Next(s, ClearFinished);
    assert forall x: Item :: x.status.Downloading? ==> (x in s'.items <==> x in s.items);
    SameWorkers(s, s');
    forall t, id | 0 <= t < |s.threads| && Holds(s.threads[t], id)
      ensures exists x :: x in s'.items && x.id == id && x.status.Downloading?
    {
      var x :| x in s.items && x.id == id && x.status.Downloading?;
      assert x in s'.items;
    }
  }

  // ---- thread steps ----------------------------------------------------------

  lemma WorkerStays(s: State, s': State, t: nat, to: Thread)
    requires OneWorker(s) && t < |s.threads| && Working(s.threads[t]) && Working(to)
    requires s'.threads == s.threads[t := to] && s'.active == s.active
    ensures OneWorker(s') && s'.active
  {
    assert Working(s'.threads[t]);
  }

  lemma WorkerLeaves(s: State, s': State, t: nat)
    requires OneWorker(s) && t < |s.threads| && Working(s.threads[t])
    requires s'.threads == s.threads[t := Checking] && !s'.active
    ensures OneWorker(s') && Due(s'.threads[t])
  {
  }

  lemma IdleMoves(s: State, s': State, t: nat, to: Thread)
    requires OneWorker(s) && t < |s.threads| && !Working(s.threads[t]) && !Working(to)
    requires s'.threads == s.threads[t := to] && s'.active == s.active
    ensures OneWorker(s')
  {
    if s.active {
      var w :| 0 <= w < |s.threads| && Working(s.threads[w]);
      assert Working(s'.threads[w]);
    }
  }

  lemma WorkerStarts(s: State, s': State, t: nat)
    requires OneWorker(s) && t < |s.threads| && !Working(s.threads[t]) && !s.active
    requires s'.threads == s.threads[t := Ended] + [Looping] && s'.active
    ensures OneWorker(s')
  {
    assert Working(s'.threads[|s.threads|]);
    assert forall w :: 0 <= w < |s.threads| ==> !Working(s.threads[w]);
    assert forall w :: 0 <= w < |s.threads| ==> !Working(s'.threads[w]);
  }

  /** Moves of threads that hold no item. */
  lemma HeldUnmoved(s: State, s': State, t: nat)
    requires HeldIsDownloading(s) && t < |s.threads| <= |s'.threads| && s'.items == s.items
    requires forall w :: 0 <= w < |s'.threads| && w != t && w < |s.threads| ==> s'.threads[w] == s.threads[w]
    requires forall w, id :: |s.threads| <= w < |s'.threads| ==> !Holds(s'.threads[w], id)
    requires forall id :: Holds(s.threads[t], id) <==> Holds(s'.threads[t], id)
    ensures HeldIsDownloading(s')
  {
    forall x | x in s'.items && x.status.Downloading? ensures exists w :: 0 <= w < |s'.threads| && Holds(s'.threads[w], x.id) {
      var w :| 0 <= w < |s.threads| && Holds(s.threads[w], x.id);
      assert Holds(s'.threads[w], x.id);
    }
  }

  lemma EnsureKeepsInv(s: State, t: nat)
    requires Inv(s) && t < |s.threads| && s.threads[t].Ensuring?
    ensures Inv(Ensure(s, t))
  {
    hide OneWorker, HeldIsDownloading;
    var s' := Ensure(s, t);
    HeldUnmoved(s, s', t);
    if s.active {
      IdleMoves(s, s', t, Ended);
    } else {
      WorkerStarts(s, s', t);
    }
  }

  /** The worker is the only thread that can hold an item. */
  lemma OnlyWorkerHolds(s: State, t: nat)
    requires OneWorker(s) && t < |s.threads| && Working(s.threads[t])
    ensures forall w, id :: 0 <= w < |s.threads| && Holds(s.threads[w], id) ==> w == t
    ensures s.active
  {
    forall w, id | 0 <= w < |s.threads| && Holds(s.threads[w], id) ensures w == t {
      assert Working(s.threads[w]);
    }
  }

  lemma NobodyHolds(s: State)
    requires HeldIsDownloading(s)
    ensures (forall w, id :: 0 <= w < |s.threads| ==> !Holds(s.threads[w], id)) ==>
              forall x :: x in s.items ==> !x.status.Downloading?
  {
  }

  lemma PickKeepsInv(s: State, t: nat)
    requires Inv(s) && t < |s.threads| && s.threads[t].Looping?
    ensures Inv(Pick(s, t))
  {
    hide OneWorker;
    var s' := Pick(s, t);
    match FirstQueued(s.items)
    case None =>
      WorkerStays(s, s', t, Leaving);
      HeldUnmoved(s, s', t);
    case Some(k) =>
      var id := s.items[k].id;
      WorkerStays(s, s', t, Picked(id));
      OnlyWorkerHolds(s, t);
      assert Holds(s'.threads[t], id) && s'.items[k] in s'.items;
      NobodyHolds(s);
      forall x | x in s'.items && x.status.Queued? ensures x in s.items {
      }
  }

  lemma WriteKeepsInv(s: State, t: nat, id: nat, status: Status)
    requires Inv(s) && t < |s.threads| && Holds(s.threads[t], id) && !IsActive(status)
    ensures Inv(Write(s, t, id, status))
  {
    hide OneWorker;
    var s' := Write(s, t, id, status);
    MappedMembers(s.items, x => SetItem(x, id, status));
    WorkerStays(s, s', t, Looping);
    OnlyWorkerHolds(s, t);
    forall x | x in s'.items ensures !x.status.Downloading? {
      var y :| y in s.items && x == SetItem(y, id, status);
      if y.status.Downloading? {
        var w :| 0 <= w < |s.threads| && Holds(s.threads[w], y.id);
      }
    }
    forall x | x in s'.items && x.status.Queued? ensures x in s.items {
    }
  }

  lemma StepKeepsInv(s: State, t: nat, transfer: Transfer)
    requires Inv(s) && t < |s.threads|
    ensures Inv(Step(s, t, transfer))
  {
    hide OneWorker, HeldIsDownloading;
    var s' := Step(s, t, transfer);
    match s.threads[t]
    case Ensuring => EnsureKeepsInv(s, t);
    case Looping => PickKeepsInv(s, t);
    case Picked(id) =>
      if StopOf(s.items, id) {
        WriteKeepsInv(s, t, id, Cancelled);
      } else {
        WorkerStays(s, s', t, Transferring(id));
        HeldUnmoved(s, s', t);
      }
    case Transferring(id) => WriteKeepsInv(s, t, id, Outcome(StopOf(s.items, id), transfer));
    case Leaving =>
      WorkerLeaves(s, s', t);
      HeldUnmoved(s, s', t);
    case Checking =>
      IdleMoves(s, s', t, s'.threads[t]);
      HeldUnmoved(s, s', t);
      CheckedIsDue(s, t);
    case Ended =>
  }

  lemma CheckedIsDue(s: State, t: nat)
    requires NoneStranded(s) && t < |s.threads| && s.threads[t].Checking?
    ensures NoneStranded(Moves(s, t, if FirstQueued(s.items).Some? then Ensuring else Ended))
  {
    var s' := Moves(s, t, if FirstQueued(s.items).Some? then Ensuring else Ended);
    if FirstQueued(s.items).Some? {
      assert Due(s'.threads[t]);
    }
  }

  lemma NextKeepsInv(s: State, e: Event)
    requires Inv(s)
    ensures Inv(Next(s, e))
  {
    match e
    case Enqueue(id, selection, arch) => EnqueueKeepsInv(s, id, selection, arch);
    case Cancel(id) => MapKeepsInv(s, x => CancelItem(x, id));
    case CancelAll => MapKeepsInv(s, CancelAnyItem);
    case Retry(id) => RetryKeepsInv(s, id);
    case ClearFinished => ClearKeepsInv(s);
    case Advance(t, transfer) =>
      if t < |s.threads| {
        StepKeepsInv(s, t, transfer);
      }
  }

  /** In every interleaving, nothing queued is stranded and at most one item downloads. */
  lemma {:induction false} RunKeepsInv(s: State, events: seq<Event>)
    requires Inv(s)
    ensures Inv(Run(s, events))
    decreases |events|
  {
    if events != [] {
      hide Inv;
      NextKeepsInv(s, events[0]);
      RunKeepsInv(Next(s, events[0]), events[1..]);
    }
  }

  /** When every thread has ended, nothing is queued or downloading. */
  lemma QuietMeansDone(s: State)
    requires Inv(s) && forall t :: 0 <= t < |s.threads| ==> s.threads[t].Ended?
    ensures !s.active && forall x :: x in s.items ==> !IsActive(x.status)
  {
  }

  // ---- how an item's status moves --------------------------------------------

  /** The same item before and after an event. */
  predicate Moved(x: Item, y: Item, e: Event) {
    && x.id == y.id && SameModel(x, y) && Allowed(x.status, y.status)
    && (x.status.Failed? && y.status.Queued? ==> e == Retry(y.id))
  }

  predicate Allowed(a: Status, b: Status) {
    || a == b
    || (a.Queued? && (b.Downloading? || b.Cancelled?))
    || (a.Downloading? && !b.Queued?)
    || (a.Failed? && b.Queued?)
  }

  /** Statuses only move queued to downloading or cancelled, downloading to a final status, and
      failed back to queued; an item that appears is queued. */
  lemma StatusMoves(s: State, e: Event, y: Item)
    requires Inv(s) && y in Next(s, e).items
    ensures (exists x :: x in s.items && Moved(x, y, e))
            || (e.Enqueue? && y.status.Queued? && !KnownId(s.items, y.id))
  {
    hide OneWorker, NoneStranded;
    match e
    case Enqueue(id, selection, arch) =>
    case Cancel(id) => MappedMembers(s.items, x => CancelItem(x, id));
    case CancelAll => MappedMembers(s.items, CancelAnyItem);
    case Retry(id) => MappedMembers(s.items, x => RetryItem(x, id));
    case ClearFinished =>
    case Advance(t, transfer) =>
      if t < |s.threads| {
        StepMoves(s, t, transfer, y);
      }
  }

  lemma StepMoves(s: State, t: nat, transfer: Transfer, y: Item)
    requires Inv(s) && t < |s.threads| && y in Step(s, t, transfer).items
    ensures exists x :: x in s.items && Moved(x, y, Advance(t, Raised))
  {
    hide OneWorker, NoneStranded, QueuedNotStopped;
    match s.threads[t]
    case Looping =>
      var first := FirstQueued(s.items);
      if first.Some? && y !in s.items {
        assert s.items[first.value] in s.items;
      }
    case Picked(id) => WriteMoves(s, t, id, Cancelled, y);
    case Transferring(id) => WriteMoves(s, t, id, Outcome(StopOf(s.items, id), transfer), y);
    case _ =>
  }

  lemma WriteMoves(s: State, t: nat, id: nat, status: Status, y: Item)
    requires Inv(s) && t < |s.threads| && Holds(s.threads[t], id) && !status.Queued?
    requires y in s.items || y in Write(s, t, id, status).items
    ensures exists x :: x in s.items && Moved(x, y, Advance(t, Raised))
  {
    hide OneWorker, NoneStranded;
    if y !in s.items {
      MappedMembers(s.items, x => SetItem(x, id, status));
      var x :| x in s.items && y == SetItem(x, id, status);
      var held :| held in s.items && held.id == id && held.status.Downloading?;
      assert x.id == id ==> x == held;
    }
  }

  // ---- the queue drains ------------------------------------------------------

  function CountQueued(items: seq<Item>): nat {
    if items == [] then 0
    else CountQueued(items[..|items| - 1]) + if items[|items| - 1].status.Queued? then 1 else 0
  }

  /** Steps a thread can still take; a thread that may find queued items again counts for more. */
  function Rank(t: Thread, waiting: bool): nat {
    match t
    case Ensuring => 7
    case Looping => 6
    case Picked(_) => 8
    case Transferring(_) => 7
    case Leaving => if waiting then 9 else 5
    case Checking => if waiting then 8 else 4
    case Ended => 0
  }

  function Ranks(threads: seq<Thread>, waiting: bool): nat {
    if threads == [] then 0 else Ranks(threads[..|threads| - 1], waiting) + Rank(threads[|threads| - 1], waiting)
  }

  function Work(s: State): nat {
    5 * CountQueued(s.items) + Ranks(s.threads, CountQueued(s.items) > 0)
  }

  lemma {:induction false} RanksUpdate(threads: seq<Thread>, t: nat, to: Thread, waiting: bool)
    requires t < |threads|
    ensures Ranks(threads[t := to], waiting) == Ranks(threads, waiting) - Rank(threads[t], waiting) + Rank(to, waiting)
  {
    var n := |threads| - 1;
    if t == n {
      assert threads[t := to][..n] == threads[..n];
    } else {
      assert threads[t := to][..n] == threads[..n][t := to];
      RanksUpdate(threads[..n], t, to, waiting);
    }
  }

  lemma {:induction false} RanksCalm(threads: seq<Thread>)
    ensures Ranks(threads, false) <= Ranks(threads, true)
  {
    if threads != [] {
      RanksCalm(threads[..|threads| - 1]);
    }
  }

  lemma {:induction false} CountUpdate(items: seq<Item>, k: nat, x: Item)
    requires k < |items|
    ensures CountQueued(items[k := x])
         == CountQueued(items) - (if items[k].status.Queued? then 1 else 0) + if x.status.Queued? then 1 else 0
  {
    var n := |items| - 1;
    if k == n {
      assert items[k := x][..n] == items[..n];
    } else {
      assert items[k := x][..n] == items[..n][k := x];
      CountUpdate(items[..n], k, x);
    }
  }

  lemma {:induction false} CountWrite(items: seq<Item>, f: Item -> Item)
    requires forall x :: x in items ==> (f(x).status.Queued? <==> x.status.Queued?)
    ensures CountQueued(Mapped(items, f)) == CountQueued(items)
  {
    if items != [] {
      var n := |items| - 1;
      assert Mapped(items, f)[..n] == Mapped(items[..n], f);
      assert items[n] in items;
      CountWrite(items[..n], f);
    }
  }

  lemma {:induction false} CountIsNone(items: seq<Item>)
    ensures CountQueued(items) == 0 <==> FirstQueued(items).None?
    ensures CountQueued(items) == 0 <==> forall x :: x in items ==> !x.status.Queued?
  {
    if items != [] {
      var n := |items| - 1;
      assert items == items[..n] + [items[n]];
      CountIsNone(items[..n]);
      assert FirstQueued(items).Some? ==> items[FirstQueued(items).value] in items;
    }
  }

  lemma PickUsesWork(s: State, t: nat)
    requires t < |s.threads| && s.threads[t].Looping?
    ensures Work(Pick(s, t)) < Work(s)
  {
    hide Ranks, CountQueued;
    var first := FirstQueued(s.items);
    CountIsNone(s.items);
    if first.None? {
      RanksUpdate(s.threads, t, Leaving, false);
    } else {
      CountUpdate(s.items, first.value, s.items[first.value].(status := Downloading));
      RanksUpdate(s.threads, t, Picked(s.items[first.value].id), true);
      RanksCalm(s.threads[t := Picked(s.items[first.value].id)]);
    }
  }

  /** Every step of a live thread uses up work: no schedule of the threads runs for ever. */
  lemma StepUsesWork(s: State, t: nat, transfer: Transfer)
    requires Inv(s) && t < |s.threads| && !s.threads[t].Ended?
    ensures Work(Step(s, t, transfer)) < Work(s)
  {
    hide OneWorker, NoneStranded, DistinctIds, Ranks, CountQueued, HeldIsDownloading, QueuedNotStopped, FirstQueued, StopOf;
    var s', waiting := Step(s, t, transfer), CountQueued(s.items) > 0;
    CountIsNone(s.items);
    match s.threads[t]
    case Ensuring =>
      RanksUpdate(s.threads, t, Ended, waiting);
      RanksAppend(s.threads[t := Ended], waiting);
    case Looping => PickUsesWork(s, t);
    case Picked(id) =>
      WriteCount(s, t, id, Cancelled);
      RanksUpdate(s.threads, t, s'.threads[t], waiting);
    case Transferring(id) =>
      WriteCount(s, t, id, Outcome(StopOf(s.items, id), transfer));
      RanksUpdate(s.threads, t, Looping, waiting);
    case Leaving =>
      RanksUpdate(s.threads, t, Checking, waiting);
    case Checking =>
      RanksUpdate(s.threads, t, s'.threads[t], waiting);
  }

  lemma RanksAppend(threads: seq<Thread>, waiting: bool)
    ensures Ranks(threads + [Looping], waiting) == Ranks(threads, waiting) + 6
  {
    assert (threads + [Looping])[..|threads|] == threads;
  }

  lemma WriteCount(s: State, t: nat, id: nat, status: Status)
    requires Inv(s) && t < |s.threads| && Holds(s.threads[t], id) && !status.Queued?
    ensures CountQueued(Write(s, t, id, status).items) == CountQueued(s.items)
  {
    hide OneWorker, NoneStranded;
    var held :| held in s.items && held.id == id && held.status.Downloading?;
    forall x | x in s.items ensures SetItem(x, id, status).status.Queued? <==> x.status.Queued? {
      assert x.id == id ==> x == held;
    }
    CountWrite(s.items, x => SetItem(x, id, status));
  }

  /** Callers are quiet: every event advances a thread that has not ended. */
  predicate Schedule(s: State, events: seq<Event>)
    decreases |events|
  {
    events != [] ==>
      && events[0].Advance? && events[0].thread < |s.threads| && !s.threads[events[0].thread].Ended?
      && Schedule(Next(s, events[0]), events[1..])
  }

  /** However the threads are scheduled and whatever the transfers report, once callers stop the
      threads take no more than `Work(s)` steps, and when they have all ended, nothing is left
      queued or downloading. */
  lemma {:induction false} ThreadsDrain(s: State, events: seq<Event>)
    requires Inv(s) && Schedule(s, events)
    ensures |events| + Work(Run(s, events)) <= Work(s)
    ensures var last := Run(s, events);
            (forall t :: 0 <= t < |last.threads| ==> last.threads[t].Ended?) ==>
              !last.active && forall x :: x in last.items ==> !IsActive(x.status)
    decreases |events|
  {
    if events == [] {
      if forall t :: 0 <= t < |s.threads| ==> s.threads[t].Ended? {
        QuietMeansDone(s);
      }
    } else {
      hide Inv, Work;
      StepUsesWork(s, events[0].thread, events[0].transfer);
      StepKeepsInv(s, events[0].thread, events[0].transfer);
      ThreadsDrain(Next(s, events[0]), events[1..]);
    }
  }

  /** A schedule that is not over can go on, so every schedule can be completed. */
  lemma {:induction false} ScheduleEnds(s: State, transfer: Transfer) returns (events: seq<Event>)
    requires Inv(s)
    ensures Schedule(s, events)
    ensures forall t :: 0 <= t < |Run(s, events).threads| ==> Run(s, events).threads[t].Ended?
    decreases Work(s)
  {
    if t: nat :| t < |s.threads| && !s.threads[t].Ended? {
      StepUsesWork(s, t, transfer);
      StepKeepsInv(s, t, transfer);
      hide Inv;
      var rest := ScheduleEnds(Step(s, t, transfer), transfer);
      events := [Advance(t, transfer)] + rest;
      assert events[1..] == rest;
    } else {
      events := [];
    }
  }

  // ---- one active item per selection -----------------------------------------

  predicate SameModel(x: Item, y: Item) {
    x.selection == y.selection && x.arch == y.arch
  }

  ghost predicate UniqueActive(items: seq<Item>) {
    forall x, y :: x in items && y in items && IsActive(x.status) && IsActive(y.status) && SameModel(x, y) ==> x.id == y.id
  }

  lemma SameIdSameItem(items: seq<Item>, x: Item, y: Item)
    requires DistinctIds(items) && x in items && y in items && x.id == y.id
    ensures x == y
  {
    var i :| 0 <= i < |items| && items[i] == x;
    var j :| 0 <= j < |items| && items[j] == y;
  }

  lemma OthersKeepUnique(s: State, e: Event)
    requires Inv(s) && UniqueActive(s.items) && !e.Retry?
    ensures UniqueActive(Next(s, e).items)
  {
    hide OneWorker, HeldIsDownloading, NoneStranded, Next;
    var after := Next(s, e).items;
    forall x, y | x in after && y in after && IsActive(x.status) && IsActive(y.status) && SameModel(x, y)
      ensures x.id == y.id
    {
      StatusMoves(s, e, x);
      StatusMoves(s, e, y);
      if e.Enqueue? && !KnownId(s.items, x.id) {
        NewItemIsAlone(s, e, x, y);
      } else if e.Enqueue? && !KnownId(s.items, y.id) {
        NewItemIsAlone(s, e, y, x);
      }
    }
  }

  /** An enqueued item found no active item of its selection. */
  lemma NewItemIsAlone(s: State, e: Event, x: Item, y: Item)
    requires e.Enqueue? && x in Next(s, e).items && y in Next(s, e).items
    requires !KnownId(s.items, x.id) && IsActive(y.status) && SameModel(x, y)
    ensures x.id == y.id
  {
    assert x !in s.items;
  }

  /** Requeuing a failed item keeps one active item per selection exactly when the selection has
      no active item. */
  lemma RetryKeepsUniqueIff(s: State, x: Item)
    requires Inv(s) && UniqueActive(s.items) && x in s.items && x.status.Failed?
    ensures UniqueActive(Next(s, Retry(x.id)).items) <==> !ActiveFor(s.items, x.selection, x.arch)
  {
    hide OneWorker, HeldIsDownloading, NoneStranded;
    var after := Next(s, Retry(x.id)).items;
    MappedMembers(s.items, y => RetryItem(y, x.id));
    assert RetryItem(x, x.id) in after;
    forall y | y in s.items && y.id == x.id ensures y == x {
      SameIdSameItem(s.items, x, y);
    }
    if z :| z in s.items && IsActive(z.status) && z.selection == x.selection && z.arch == x.arch {
      assert RetryItem(z, x.id) == z && z in after;
      assert SameModel(z, RetryItem(x, x.id));
    }
  }

  /** Every retry looks for an active item of the same selection first. */
  ghost predicate GuardedRetries(s: State, events: seq<Event>)
    decreases |events|
  {
    events != [] ==>
      && (events[0].Retry? ==>
            forall x :: x in s.items && x.id == events[0].id && x.status.Failed? ==> !ActiveFor(s.items, x.selection, x.arch))
      && GuardedRetries(Next(s, events[0]), events[1..])
  }

  /** In every run whose retries are guarded, no selection ever has two active items. */
  lemma {:induction false} GuardedRunsStayUnique(s: State, events: seq<Event>)
    requires Inv(s) && UniqueActive(s.items) && GuardedRetries(s, events)
    ensures UniqueActive(Run(s, events).items)
    decreases |events|
  {
    if events != [] {
      var e := events[0];
      if !e.Retry? {
        OthersKeepUnique(s, e);
      } else if x :| x in s.items && x.id == e.id && x.status.Failed? {
        RetryKeepsUniqueIff(s, x);
      }
      NextKeepsInv(s, e);
      hide Inv, UniqueActive;
      GuardedRunsStayUnique(Next(s, e), events[1..]);
    }
  }

  /** A run from the empty queue in which an unguarded retry gives one selection two active
      items: it fails, is enqueued again, and then the failed row is retried. */
  lemma RetryCanDuplicate(selection: string, arch: string) returns (events: seq<Event>)
    ensures Run(Initial, events).items
         == [Item(0, selection, arch, Queued, false), Item(1, selection, arch, Queued, false)]
    ensures !UniqueActive(Run(Initial, events).items)
  {
    var x, y := Item(0, selection, arch, Queued, false), Item(1, selection, arch, Queued, false);
    var first := [Enqueue(0, selection, arch), Advance(0, Raised), Advance(1, Raised), Advance(1, Raised), Advance(1, Raised)];
    var second := [Enqueue(1, selection, arch), Retry(0)];
    events := first + second;
    FirstDownloadFails(selection, arch);
    var failed := State([x.(status := Failed)], true, [Ended, Looping]);
    RunConcat(Initial, first, second);
    var again := State([x.(status := Failed), y], true, [Ended, Looping, Ensuring]);
    assert Next(failed, Enqueue(1, selection, arch)) == again;
    assert x.(status := Failed) in again.items;
    assert Next(again, Retry(0)).items == [x, y];
    assert second[1..] == [Retry(0)] && [Retry(0)][1..] == [];
    assert Run(failed, second) == Run(again, [Retry(0)]) == Run(Next(again, Retry(0)), []);
    assert x in [x, y] && y in [x, y] && SameModel(x, y);
  }

  lemma {:induction false} RunConcat(s: State, a: seq<Event>, b: seq<Event>)
    ensures Run(s, a + b) == Run(Run(s, a), b)
    decreases |a|
  {
    if a == [] {
      assert a + b == b;
    } else {
      assert (a + b)[1..] == a[1..] + b;
      RunConcat(Next(s, a[0]), a[1..], b);
    }
  }

  lemma {:induction false} RunThrough(states: seq<State>, events: seq<Event>)
    requires |states| == |events| + 1
    requires forall k :: 0 <= k < |events| ==> states[k + 1] == Next(states[k], events[k])
    ensures Run(states[0], events) == states[|events|]
    decreases |events|
  {
    if events != [] {
      RunThrough(states[1..], events[1..]);
    }
  }

  lemma FirstDownloadFails(selection: string, arch: string)
    ensures Run(Initial, [Enqueue(0, selection, arch), Advance(0, Raised), Advance(1, Raised), Advance(1, Raised),
                          Advance(1, Raised)])
         == State([Item(0, selection, arch, Failed, false)], true, [Ended, Looping])
  {
    hide Run;
    var x := Item(0, selection, arch, Queued, false);
    var s1 := State([x], false, [Ensuring]);
    assert Next(Initial, Enqueue(0, selection, arch)) == s1;
    var s2 := State([x], true, [Ended, Looping]);
    assert Next(s1, Advance(0, Raised)) == s2;
    var loading := x.(status := Downloading);
    var s3 := State([loading], true, [Ended, Picked(0)]);
    assert Next(s2, Advance(1, Raised)) == s3 by { FirstIs([x], 0); }
    var s4 := State([loading], true, [Ended, Transferring(0)]);
    assert Next(s3, Advance(1, Raised)) == s4;
    var s5 := State([x.(status := Failed)], true, [Ended, Looping]);
    assert Next(s4, Advance(1, Raised)) == s5;
    RunThrough([Initial, s1, s2, s3, s4, s5],
               [Enqueue(0, selection, arch), Advance(0, Raised), Advance(1, Raised), Advance(1, Raised),
                Advance(1, Raised)]);
  }

  // ---- what the operations mean ----------------------------------------------

  /** The end of one item: complete or existing when the transfer delivered that and the model is
      ready, cancelled when the transfer reported a stop or raised after one was asked for, failed
      otherwise. Nothing else of the item changes. */
  ghost predicate Ends(transfer: Transfer, before: Item, after: Item) {
    && after.id == before.id && after.selection == before.selection && after.arch == before.arch
    && after.stop == before.stop
    && (after.status.Complete? <==> transfer == Got(false, true))
    && (after.status.Exists? <==> transfer == Got(true, true))
    && (after.status.Cancelled? <==> transfer.Stopped? || (transfer.Raised? && before.stop))
    && (after.status.Failed? <==>
          transfer.Unknown? || (transfer.Got? && !transfer.ready) || (transfer.Raised? && !before.stop))
  }

  lemma EndsAs(items: seq<Item>, id: nat, transfer: Transfer)
    requires DistinctIds(items)
    ensures forall k :: 0 <= k < |items| && items[k].id == id ==>
      Ends(transfer, items[k], SetItem(items[k], id, Outcome(StopOf(items, id), transfer)))
  {
    forall k | 0 <= k < |items| && items[k].id == id
      ensures Ends(transfer, items[k], SetItem(items[k], id, Outcome(StopOf(items, id), transfer)))
    {
      assert items[k] in items;
      forall x | x in items && x.id == id ensures x == items[k] {
        SameIdSameItem(items, x, items[k]);
      }
    }
  }

  lemma HeldIsKnown(s: State, t: nat, id: nat)
    requires Inv(s) && t < |s.threads| && Holds(s.threads[t], id)
    ensures exists k :: 0 <= k < |s.items| && s.items[k].id == id
  {
    var x :| x in s.items && x.id == id && x.status.Downloading?;
    var k :| 0 <= k < |s.items| && s.items[k] == x;
  }

  lemma {:induction false} CountIsSize(items: seq<Item>)
    requires DistinctIds(items)
    ensures CountActive(items) == |set x | x in items && (x.status.Queued? || x.status.Downloading?)|
  {
    if items != [] {
      var front, last := items[..|items| - 1], items[|items| - 1];
      CountIsSize(front);
      assert items == front + [last];
      var before := set x | x in front && (x.status.Queued? || x.status.Downloading?);
      var all := set x | x in items && (x.status.Queued? || x.status.Downloading?);
      assert last !in front;
      assert all == if last.status.Queued? || last.status.Downloading? then before + {last} else before;
    }
  }

  /** Clearing keeps the order of what stays. */
  lemma {:induction false} FinishedConcat(a: seq<Item>, b: seq<Item>)
    ensures Finished(a + b) == Finished(a) + Finished(b)
  {
    hide Finished;
    if b == [] {
      assert a + b == a && Finished(b) == [] by { NothingFinished(); }
    } else {
      var front, last := b[..|b| - 1], b[|b| - 1];
      FinishedConcat(a, front);
      assert a + b == (a + front) + [last] && b == front + [last];
      FinishedLast(a + front, last);
      FinishedLast(front, last);
    }
  }

  lemma NothingFinished()
    ensures Finished([]) == []
  {
  }

  lemma FinishedLast(items: seq<Item>, x: Item)
    ensures Finished(items + [x]) == Finished(items) + if IsActive(x.status) || x.status.Failed? then [x] else []
  {
    assert (items + [x])[..|items|] == items;
  }

  // ---- the shared object -----------------------------------------------------

  class Queue {
    var items: seq<Item>
    var workerActive: bool
    ghost var threads: seq<Thread>

    constructor ()
      ensures Now() == Initial && Inv(Now())
    {
      items, workerActive, threads := [], false, [];
    }

    ghost function Now(): State
      reads this
    {
      State(items, workerActive, threads)
    }

    /** The locked part of `enqueue`. */
    method EnqueueItem(id: nat, selection: string, arch: string) returns (added: bool)
      requires Inv(Now()) && !KnownId(items, id)
      modifies this
      ensures Inv(Now()) && Now() == Next(old(Now()), Enqueue(id, selection, arch))
      ensures added <==> !exists x :: x in old(items) && (x.status.Queued? || x.status.Downloading?)
                                    && x.selection == selection && x.arch == arch
      ensures items == old(items) + if added then [Item(id, selection, arch, Queued, false)] else []
    {
      hide Inv;
      NextKeepsInv(Now(), Enqueue(id, selection, arch));
      for k := 0 to |items|
        invariant forall x :: x in items[..k] ==> !(IsActive(x.status) && x.selection == selection && x.arch == arch)
      {
        if IsActive(items[k].status) && items[k].selection == selection && items[k].arch == arch {
          assert items[k] in items;
          return false;
        }
      }
      assert items[..|items|] == items;
      items := items + [Item(id, selection, arch, Queued, false)];
      threads := threads + [Ensuring];
      added := true;
    }

    /** `cancel` */
    method CancelOne(id: nat)
      requires Inv(Now())
      modifies this
      ensures Inv(Now()) && Now() == Next(old(Now()), Cancel(id))
      ensures forall x :: x in items && x.id == id ==> !x.status.Queued? && (x.status.Downloading? ==> x.stop)
      ensures forall x :: x in old(items) && x.id != id ==> x in items
    {
      NextKeepsInv(Now(), Cancel(id));
      hide Inv, Mapped;
      items := StopOne(items, id);
    }

    /** `cancel_all` */
    method CancelEvery() returns (cancelled: nat)
      requires Inv(Now())
      modifies this
      ensures Inv(Now()) && Now() == Next(old(Now()), CancelAll)
      ensures forall x :: x in items ==> !x.status.Queued? && (x.status.Downloading? ==> x.stop)
      ensures cancelled == |set x | x in old(items) && (x.status.Queued? || x.status.Downloading?)|
    {
      CountIsSize(items);
      hide Inv, Mapped, CountActive;
      NextKeepsInv(Now(), CancelAll);
      items, cancelled := StopAll(items);
    }

    /** `retry` */
    method RetryOne(id: nat) returns (requeued: bool)
      requires Inv(Now())
      modifies this
      ensures Inv(Now()) && Now() == Next(old(Now()), Retry(id))
      ensures requeued <==> exists x :: x in old(items) && x.id == id && x.status.Failed?
    {
      NextKeepsInv(Now(), Retry(id));
      hide OneWorker, HeldIsDownloading, NoneStranded;
      requeued := false;
      for k := 0 to |items|
        invariant items == old(items) && threads == old(threads) && !requeued
        invariant forall j :: 0 <= j < k ==> !(items[j].id == id && items[j].status.Failed?)
      {
        if items[k].id == id && items[k].status.Failed? {
          assert items[k] in items;
          items := items[k := items[k].(status := Queued, stop := false)];
          threads := threads + [Ensuring];
          requeued := true;
          break;
        }
      }
      assert requeued ==> items == Mapped(old(items), x => RetryItem(x, id));
    }

    /** `_next_queued` */
    method NextQueued(ghost t: nat) returns (picked: Option<Item>)
      requires Inv(Now()) && t < |threads| && threads[t].Looping?
      modifies this
      ensures Inv(Now()) && Now() == Pick(old(Now()), t)
      ensures picked.None? <==> FirstQueued(old(items)).None?
      ensures picked.Some? ==>
        picked.value in items && picked.value.status.Downloading? && threads[t] == Picked(picked.value.id)
    {
      PickKeepsInv(Now(), t);
      hide Inv;
      picked := None;
      for k := 0 to |items|
        invariant items == old(items) && threads == old(threads) && picked.None?
        invariant forall j :: 0 <= j < k ==> !items[j].status.Queued?
      {
        if items[k].status.Queued? {
          FirstIs(items, k);
          items := items[k := items[k].(status := Downloading)];
          picked := Some(items[k]);
          threads := threads[t := Picked(items[k].id)];
          assert items[k] in items;
          return;
        }
      }
      assert FirstQueued(items).None?;
      threads := threads[t := Leaving];
    }

    /** `_ensure_worker` */
    method EnsureWorker(ghost t: nat) returns (started: bool)
      requires Inv(Now()) && t < |threads| && threads[t].Ensuring?
      modifies this
      ensures Inv(Now()) && Now() == Ensure(old(Now()), t)
      ensures started <==> !old(workerActive)
      ensures workerActive
    {
      hide Inv;
      EnsureKeepsInv(Now(), t);
      started := !workerActive;
      threads := threads[t := Ended];
      if started {
        workerActive := true;
        threads := threads + [Looping];
      }
    }

    /** The look at the stop flag before the transfer. */
    method StartTransfer(ghost t: nat, id: nat) returns (go: bool)
      requires Inv(Now()) && t < |threads| && threads[t] == Picked(id)
      modifies this
      ensures Inv(Now()) && Now() == Step(old(Now()), t, Raised)
      ensures go <==> forall x :: x in old(items) && x.id == id ==> !x.stop
      ensures go ==> items == old(items) && threads[t] == Transferring(id)
      ensures !go ==> |items| == |old(items)| && forall k :: 0 <= k < |items| ==>
        items[k] == if old(items)[k].id == id then old(items)[k].(status := Cancelled) else old(items)[k]
    {
      hide Inv;
      StepKeepsInv(Now(), t, Raised);
      go := !StopOf(items, id);
      if go {
        threads := threads[t := Transferring(id)];
      } else {
        items := Mapped(items, x => SetItem(x, id, Cancelled));
        threads := threads[t := Looping];
      }
    }

    /** The status write that ends one item, with the stop flag as the worker sees it. */
    method WriteStatus(ghost t: nat, id: nat, transfer: Transfer)
      requires Inv(Now()) && t < |threads| && threads[t] == Transferring(id)
      modifies this
      ensures Inv(Now()) && Now() == Step(old(Now()), t, transfer)
      ensures |items| == |old(items)| && exists k :: 0 <= k < |items| && old(items)[k].id == id
      ensures forall k :: 0 <= k < |items| && old(items)[k].id == id ==>
        Ends(transfer, old(items)[k], items[k])
      ensures forall k :: 0 <= k < |items| && old(items)[k].id != id ==> items[k] == old(items)[k]
    {
      HeldIsKnown(Now(), t, id);
      EndsAs(items, id, transfer);
      hide Inv, Ends, Outcome, StopOf;
      StepKeepsInv(Now(), t, transfer);
      var status := Outcome(StopOf(items, id), transfer);
      items := Mapped(items, x => SetItem(x, id, status));
      threads := threads[t := Looping];
    }

    /** The `finally` block: give up the role, then look once more. */
    method LeaveRole(ghost t: nat)
      requires Inv(Now()) && t < |threads| && threads[t].Leaving?
      modifies this
      ensures Inv(Now()) && Now() == Step(old(Now()), t, Raised)
    {
      hide Inv;
      StepKeepsInv(Now(), t, Raised);
      workerActive := false;
      threads := threads[t := Checking];
    }

    method CheckAgain(ghost t: nat) returns (again: bool)
      requires Inv(Now()) && t < |threads| && threads[t].Checking?
      modifies this
      ensures Inv(Now()) && Now() == Step(old(Now()), t, Raised)
      ensures again <==> exists x :: x in items && x.status.Queued?
    {
      hide Inv;
      StepKeepsInv(Now(), t, Raised);
      again := FirstQueued(items).Some?;
      CountIsNone(items);
      threads := threads[t := if again then Ensuring else Ended];
    }
  }

  /** The loop of `cancel`, which ends at the first active item with the id. */
  method StopOne(items: seq<Item>, id: nat) returns (r: seq<Item>)
    requires DistinctIds(items)
    ensures r == CancelIn(items, id)
    ensures forall x :: x in r && x.id == id ==> !x.status.Queued? && (x.status.Downloading? ==> x.stop)
    ensures forall x :: x in items && x.id != id ==> x in r
  {
    hide CancelIn;
    StoppedOne(items, id);
    r := items;
    for k := 0 to |items|
      invariant r == items
      invariant forall j :: 0 <= j < k ==> CancelItem(items[j], id) == items[j]
    {
      if items[k].id == id && IsActive(items[k].status) {
        r := items[k := Stop(items[k])];
        break;
      }
    }
    assert r == CancelIn(items, id);
  }

  lemma StoppedOne(items: seq<Item>, id: nat)
    ensures var r := CancelIn(items, id);
            && (forall x :: x in r && x.id == id ==> !x.status.Queued? && (x.status.Downloading? ==> x.stop))
            && (forall x :: x in items && x.id != id ==> x in r)
  {
    var r := CancelIn(items, id);
    forall x | x in items && x.id != id ensures x in r {
      var k :| 0 <= k < |items| && items[k] == x;
      assert r[k] == x;
    }
  }

  /** The loop of `cancel_all`. */
  method StopAll(items: seq<Item>) returns (r: seq<Item>, cancelled: nat)
    ensures r == Mapped(items, CancelAnyItem) && cancelled == CountActive(items)
    ensures forall x :: x in r ==> !x.status.Queued? && (x.status.Downloading? ==> x.stop)
  {
    MappedMembers(items, CancelAnyItem);
    r, cancelled := items, 0;
    for k := 0 to |items|
      invariant |r| == |items| && cancelled == CountActive(items[..k])
      invariant forall j :: 0 <= j < k ==> r[j] == CancelAnyItem(items[j])
      invariant forall j :: k <= j < |items| ==> r[j] == items[j]
    {
      assert items[..k + 1][..k] == items[..k];
      if IsActive(r[k].status) {
        cancelled := cancelled + 1;
        r := r[k := Stop(r[k])];
      }
    }
    assert items[..|items|] == items;
  }

  function CountActive(items: seq<Item>): nat {
    if items == [] then 0
    else CountActive(items[..|items| - 1]) + if IsActive(items[|items| - 1].status) then 1 else 0
  }

  lemma {:induction false} FirstIs(items: seq<Item>, k: nat)
    requires k < |items| && items[k].status.Queued? && forall j :: 0 <= j < k ==> !items[j].status.Queued?
    ensures FirstQueued(items) == Some(k)
  {
    if k > 0 {
      FirstIs(items[1..], k - 1);
    }
  }
}
