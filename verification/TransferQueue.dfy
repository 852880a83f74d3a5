/** The queue of src-tauri/src/transfer/queue.rs as an object: each method changes the fields in
    place, and ends in the state that QueueState says it does. */
module TransferQueue {
  import opened Wrappers
  import Conflict
  import opened TransferItems
  import opened QueueState

  // Starting the items of one session

  /** Stable insertion by descending priority. */
  function InsertByPriority(items: Items, sorted: seq<nat>, x: nat): seq<nat>
    requires x < |items| && forall k :: 0 <= k < |sorted| ==> sorted[k] < |items|
  {
    if sorted == [] then [x]
    else if Precedes(items, sorted[|sorted| - 1], x) then sorted + [x]
    else InsertByPriority(items, sorted[..|sorted| - 1], x) + [sorted[|sorted| - 1]]
  }

  ghost predicate Ordered(items: Items, sorted: seq<nat>) {
    && (forall k :: 0 <= k < |sorted| ==> sorted[k] < |items|)
    && (forall k, l :: 0 <= k < l < |sorted| ==> Precedes(items, sorted[k], sorted[l]))
  }

  lemma {:induction false} InsertKeepsOrder(items: Items, sorted: seq<nat>, x: nat)
    requires Ordered(items, sorted) && x < |items| && x !in sorted
    ensures Ordered(items, InsertByPriority(items, sorted, x))
    ensures forall i :: i in InsertByPriority(items, sorted, x) <==> i in sorted || i == x
  {
    hide Precedes;
    if sorted != [] {
      var n := |sorted| - 1;
      assert sorted == sorted[..n] + [sorted[n]];
      forall k | 0 <= k < n
        ensures Precedes(items, sorted[n], x) ==> Precedes(items, sorted[k], x)
      {
        PrecedesIsTotal(items, sorted[k], sorted[n], x);
      }
      PrecedesIsTotal(items, x, sorted[n], x);
      if !Precedes(items, sorted[n], x) {
        InsertKeepsOrder(items, sorted[..n], x);
        var before := InsertByPriority(items, sorted[..n], x);
        forall k | 0 <= k < |before|
          ensures Precedes(items, before[k], sorted[n])
        {
          assert before[k] in before;
        }
      }
    }
  }

  /** `Precedes` is a strict total order on positions. */
  lemma PrecedesIsTotal(items: Items, a: nat, b: nat, c: nat)
    requires a < |items| && b < |items| && c < |items|
    ensures Precedes(items, a, b) && Precedes(items, b, c) ==> Precedes(items, a, c)
    ensures a != b ==> (Precedes(items, a, b) <==> !Precedes(items, b, a))
  {
  }

  /** In an ordered list of all due items, the number ahead of an item is its place. */
  lemma PlaceIsRank(items: Items, session: string, now: int, sorted: seq<nat>, p: nat)
    requires Ordered(items, sorted) && p < |sorted|
    requires forall i: nat :: i in sorted <==> i < |items| && Due(items[i], session, now)
    ensures |Ahead(items, session, now, sorted[p])| == p
  {
    var ahead := Ahead(items, session, now, sorted[p]);
    forall j: nat
      ensures j in ahead <==> j in sorted[..p]
    {
      if j in sorted[..p] {
        var k :| 0 <= k < p && sorted[k] == j;
      }
      if j in ahead {
        var k :| 0 <= k < |sorted| && sorted[k] == j;
        assert k < p;
        assert sorted[..p][k] == j;
      }
    }
    DistinctSize(items, sorted, p, ahead);
  }

  lemma {:induction false} DistinctSize(items: Items, sorted: seq<nat>, p: nat, s: set<nat>)
    requires Ordered(items, sorted) && p <= |sorted|
    requires forall j: nat :: j in s <==> j in sorted[..p]
    ensures |s| == p
  {
    if p == 0 {
      assert s == {};
    } else {
      var last := sorted[p - 1];
      assert sorted[..p] == sorted[..p - 1] + [last];
      assert last !in sorted[..p - 1];
      DistinctSize(items, sorted, p - 1, s - {last});
    }
  }

  method CountActiveOn(items: Items, session: string) returns (active: nat)
    ensures active == CountActive(items, session)
  {
    active := 0;
    for i := 0 to |items|
      invariant active == CountActive(items[..i], session)
    {
      assert items[..i + 1][..i] == items[..i];
      if IsActiveOn(items[i], session) {
        active := active + 1;
      }
    }
    assert items[..|items|] == items;
  }

  /** The due items in the order in which they are to be started. */
  method Candidates(items: Items, session: string, now: int) returns (sorted: seq<nat>)
    ensures Ordered(items, sorted)
    ensures forall i: nat :: i in sorted <==> i < |items| && Due(items[i], session, now)
  {
    hide Precedes;
    sorted := [];
    for i := 0 to |items|
      invariant Ordered(items, sorted)
      invariant forall k: nat :: k in sorted <==> k < i && Due(items[k], session, now)
    {
      if Due(items[i], session, now) {
        InsertKeepsOrder(items, sorted, i);
        sorted := InsertByPriority(items, sorted, i);
      }
    }
  }

  /** The part of `dispatch` that serves one session. */
  method StartOn(items: Items, session: Session, now: int) returns (items': Items, started: seq<Id>)
    ensures |items'| == |items|
    ensures forall i :: 0 <= i < |items| ==>
              items'[i] == if Starts(items, session, now, i) then Started(items[i]) else items[i]
    ensures forall id :: id in started <==>
              exists i :: 0 <= i < |items| && Starts(items, session, now, i) && items[i].id == id
  {
    hide Due, CountActive, Ahead, Precedes;
    var active := CountActiveOn(items, session.id);
    var free := Max(session.MaxTransfers() - active, 0);
    items', started := items, [];
    if free == 0 {
      return;
    }
    var sorted := Candidates(items, session.id, now);
    RankDecides(items, session, now, sorted);
    var n := 0;
    while n < |sorted| && n < free
      invariant 0 <= n <= |sorted| && n <= free
      invariant |items'| == |items|
      invariant forall i :: 0 <= i < |items| ==>
                  items'[i] == if i in sorted[..n] then Started(items[i]) else items[i]
      invariant forall id :: id in started <==> exists k :: 0 <= k < n && items[sorted[k]].id == id
    {
      var index := sorted[n];
      assert sorted[..n + 1] == sorted[..n] + [index];
      assert index !in sorted[..n] by {
        OrderedIsDistinct(items, sorted, n);
      }
      items' := items'[index := Started(items'[index])];
      started := started + [items'[index].id];
      n := n + 1;
    }
    assert n == Min(|sorted|, free);
  }

  lemma OrderedIsDistinct(items: Items, sorted: seq<nat>, n: nat)
    requires Ordered(items, sorted) && n < |sorted|
    ensures sorted[n] !in sorted[..n]
  {
  }

  /** Starting the first `free` candidates starts exactly the items that should start. */
  lemma RankDecides(items: Items, session: Session, now: int, sorted: seq<nat>)
    requires Ordered(items, sorted)
    requires forall i: nat :: i in sorted <==> i < |items| && Due(items[i], session.id, now)
    ensures forall i: nat :: i < |items| ==>
              (Starts(items, session, now, i) <==> i in sorted[..Min(|sorted|, Free(items, session))])
  {
    hide Due, Free, Ahead, Precedes;
    var n := Min(|sorted|, Free(items, session));
    forall i: nat | i < |items|
      ensures Starts(items, session, now, i) <==> i in sorted[..n]
    {
      if i in sorted {
        var p :| 0 <= p < |sorted| && sorted[p] == i;
        PlaceIsRank(items, session.id, now, sorted, p);
        if p < n {
          assert sorted[..n][p] == i;
        } else if i in sorted[..n] {
          var q :| 0 <= q < n && sorted[q] == i;
          PlaceIsRank(items, session.id, now, sorted, q);
          assert false;
        }
      }
    }
  }

  /** Serving sessions one after the other is serving each of them on the original list. */
  lemma SessionsAreIndependent(items: Items, items': Items, sessions: seq<Session>, k: nat, now: int)
    requires DistinctSessions(sessions) && k < |sessions|
    requires items' == DispatchedItems(items, sessions[..k], now)
    ensures forall i :: 0 <= i < |items| ==>
              && (Starts(items', sessions[k], now, i) <==> Starts(items, sessions[k], now, i))
              && (Starts(items, sessions[k], now, i) ==> items'[i] == items[i])
  {
    hide Starts, StartsOnAny;
    var session := sessions[k].id;
    forall i | 0 <= i < |items| && items[i].sessionId == Some(session)
      ensures items'[i] == items[i]
    {
      StartsOnlyOnOwn(items, sessions, k, now, i);
    }
    forall i | 0 <= i < |items|
      ensures items'[i].sessionId == items[i].sessionId && items'[i].priority == items[i].priority
    {
    }
    SameOnSession(items, items', sessions[k], now);
    forall i | 0 <= i < |items| && Starts(items, sessions[k], now, i)
      ensures items[i].sessionId == Some(session)
    {
      StartsIsDue(items, sessions[k], now, i);
    }
  }

  lemma StartsIsDue(items: Items, session: Session, now: int, i: nat)
    requires i < |items| && Starts(items, session, now, i)
    ensures items[i].sessionId == Some(session.id)
  {
  }

  lemma StartsOnlyOnOwn(items: Items, sessions: seq<Session>, k: nat, now: int, i: nat)
    requires DistinctSessions(sessions) && k < |sessions| && i < |items|
    requires items[i].sessionId == Some(sessions[k].id)
    ensures !StartsOnAny(items, sessions[..k], now, i)
  {
    hide Free, Ahead;
  }

  lemma {:induction false} SameCount(items: Items, items': Items, session: string)
    requires |items| == |items'|
    requires forall i :: 0 <= i < |items| ==> (IsActiveOn(items[i], session) <==> IsActiveOn(items'[i], session))
    ensures CountActive(items, session) == CountActive(items', session)
  {
    if items != [] {
      SameCount(items[..|items| - 1], items'[..|items| - 1], session);
    }
  }

  lemma SameOnSession(items: Items, items': Items, session: Session, now: int)
    requires |items| == |items'|
    requires forall i :: 0 <= i < |items| && items[i].sessionId == Some(session.id) ==> items'[i] == items[i]
    requires forall i :: 0 <= i < |items| ==>
               items'[i].sessionId == items[i].sessionId && items'[i].priority == items[i].priority
    ensures forall i :: 0 <= i < |items| ==> (Starts(items', session, now, i) <==> Starts(items, session, now, i))
  {
    SameCount(items, items', session.id);
    forall i | 0 <= i < |items|
      ensures Ahead(items, session.id, now, i) == Ahead(items', session.id, now, i)
    {
    }
  }

  // The queue

  /** A request of `add`: the item to make of it, and whether its sessions are connected. */
  datatype Request = Request(item: TransferItem, connected: bool)

  datatype QueueError = InvalidSession

  class TransferQueue {
    var items: Items
    var history: Items
    var controls: map<Id, Control>
    var conflicts: set<Id>
    var applyAll: map<string, Conflict.ConflictPolicy>

    function State(): Queue
      reads this
    {
      Queue(items, history, controls, conflicts, applyAll)
    }

    /** Loads what was stored: active items are queued again, and no item has a session. */
    constructor (stored: (Items, Items))
      ensures State() == Loaded(stored)
    {
      items := seq(|stored.0|, i requires 0 <= i < |stored.0| => Restored()(stored.0[i]));
      history := stored.1;
      controls, conflicts, applyAll := map[], {}, map[];
    }

    /** Adds all the items or, when a session is missing, none. */
    method AddRequests(requests: seq<Request>) returns (r: Result<seq<Id>, QueueError>)
      modifies this`items
      ensures (exists k :: 0 <= k < |requests| && !requests[k].connected) <==> r.Failure?
      ensures r.Failure? ==> State() == old(State())
      ensures r.Success? ==>
                && State() == Add(old(State()), seq(|requests|, k requires 0 <= k < |requests| => requests[k].item))
                && r.value == seq(|requests|, k requires 0 <= k < |requests| => requests[k].item.id)
    {
      var newItems, ids := [], [];
      for k := 0 to |requests|
        invariant newItems == seq(k, l requires 0 <= l < k => requests[l].item)
        invariant ids == seq(k, l requires 0 <= l < k => requests[l].item.id)
        invariant forall l :: 0 <= l < k ==> requests[l].connected
        invariant items == old(items)
      {
        if !requests[k].connected {
          return Failure(InvalidSession);
        }
        newItems := newItems + [requests[k].item];
        ids := ids + [requests[k].item.id];
      }
      items := items + newItems;
      r := Success(ids);
    }

    method BatchStatusOf(batch: string) returns (status: BatchStatus)
      ensures status == BatchCount(items, batch)
    {
      status := BatchStatus(0, 0);
      for i := 0 to |items|
        invariant status == BatchCount(items[..i], batch)
      {
        assert items[..i + 1][..i] == items[..i];
        if items[i].batch == Some(batch) {
          if items[i].status.Failed? {
            status := status.(failed := status.failed + 1);
          } else if items[i].IsPending() {
            status := status.(pending := status.pending + 1);
          }
        }
      }
      assert items[..|items|] == items;
    }

    method IndexOf(id: Id) returns (index: nat)
      ensures index == Position(items, id)
    {
      index := 0;
      while index < |items| && items[index].id != id
        invariant index <= |items|
        invariant forall k :: 0 <= k < index ==> items[k].id != id
      {
        index := index + 1;
      }
    }

    method InsertChildren(parent: Id, children: Items)
      modifies this`items
      ensures State() == QueueState.InsertChildren(old(State()), parent, children)
    {
      var position := IndexOf(parent);
      if position < |items| {
        position := position + 1;
      }
      var before, after := items[..position], items[position..];
      var offset := 0;
      while offset < |children|
        invariant 0 <= offset <= |children|
        invariant items == before + children[..offset] + after
      {
        items := items[..position + offset] + [children[offset]] + items[position + offset..];
        assert items[..position + offset] == before + children[..offset];
        assert children[..offset + 1] == children[..offset] + [children[offset]];
        offset := offset + 1;
      }
      assert children[..|children|] == children;
    }

    method UpdateItem(id: Id, f: TransferItem -> TransferItem) returns (updated: bool)
      modifies this`items
      ensures State() == Change(old(State()), id, f)
      ensures updated == Contains(old(items), id)
    {
      var index := IndexOf(id);
      updated := index < |items|;
      if updated {
        items := items[index := f(items[index])];
      }
    }

    method CompleteItem(id: Id, status: TransferStatus, error: Option<string>, now: int, historyCap: nat)
      modifies this`items, this`history, this`controls
      ensures State() == Complete(old(State()), id, status, error, now, historyCap)
    {
      var index := IndexOf(id);
      if index == |items| {
        return;
      }
      var item := items[index].(status := status, error := error, speed := 0, finishedAt := Some(now));
      items := items[index := item];
      if status.Done? || status.Skipped? {
        items := items[..index] + items[index + 1..];
        history := [item] + history;
        var cap := Max(historyCap, 10);
        if |history| > cap {
          history := history[..cap];
        }
      }
      controls := controls - {id};
    }

    method ScheduleRetryOf(id: Id, error: string, delay: nat, now: int)
      modifies this`items, this`controls
      ensures State() == ScheduleRetry(old(State()), id, error, now + delay)
    {
      var _ := UpdateItem(id, Rescheduled(error, now + delay));
      controls := controls - {id};
    }

    method SetItemPaused(id: Id)
      modifies this`items, this`controls
      ensures State() == SetPaused(old(State()), id)
    {
      var _ := UpdateItem(id, Halted());
      controls := controls - {id};
    }

    method PauseItem(id: Id)
      modifies this`items, this`controls
      ensures State() == Pause(old(State()), id)
    {
      if id in controls {
        controls := controls[id := controls[id].(pausing := true)];
        controls := controls[id := controls[id].(cancelled := true)];
      } else {
        var _ := UpdateItem(id, PausedIfQueued());
      }
    }

    method ResumeItem(id: Id)
      modifies this`items
      ensures State() == QueueState.Resume(old(State()), id)
    {
      var _ := UpdateItem(id, ResumedIfStopped());
    }

    method RetainItems(p: TransferItem -> bool)
      modifies this`items
      ensures items == Retain(old(items), p)
    {
      var kept := [];
      for i := 0 to |items|
        invariant kept == Retain(items[..i], p) && items == old(items)
      {
        assert items[..i + 1][..i] == items[..i];
        if p(items[i]) {
          kept := kept + [items[i]];
        }
      }
      assert items[..|items|] == items;
      items := kept;
    }

    method MapItems(f: TransferItem -> TransferItem)
      modifies this`items
      ensures items == Map(old(items), f)
    {
      for i := 0 to |items|
        invariant |items| == |old(items)|
        invariant forall k :: 0 <= k < |items| ==> items[k] == if k < i then f(old(items)[k]) else old(items)[k]
      {
        items := items[i := f(items[i])];
      }
    }

    method RemoveItem(id: Id)
      modifies this`items, this`controls, this`conflicts
      ensures State() == Remove(old(State()), id)
    {
      if id in controls {
        controls := controls[id := Control(true, false)];
      }
      RetainItems(Other(id));
      conflicts := conflicts - {id};
    }

    method Move(id: Id, newIndex: nat)
      modifies this`items
      ensures State() == MoveItem(old(State()), id, newIndex)
    {
      var current := IndexOf(id);
      if current == |items| {
        return;
      }
      var item := items[current];
      items := items[..current] + items[current + 1..];
      var target := Min(newIndex, |items|);
      items := items[..target] + [item] + items[target..];
    }

    method RetryAllFailed()
      modifies this`items
      ensures State() == RetryFailed(old(State()))
    {
      MapItems(RetriedIfFailed());
    }

    method RemoveAllFailed()
      modifies this`items
      ensures State() == RemoveFailed(old(State()))
    {
      RetainItems(NotFailed());
    }

    method ClearAll()
      modifies this
      ensures State() == Clear(old(State()))
    {
      var ids := controls.Keys;
      var left := ids;
      while left != {}
        invariant left <= ids == controls.Keys == old(controls).Keys
        invariant forall id :: id in ids - left ==> controls[id] == Control(true, false)
        invariant items == old(items) && history == old(history) && applyAll == old(applyAll)
      {
        var id :| id in left;
        controls := controls[id := Control(true, false)];
        left := left - {id};
      }
      items, conflicts := [], {};
    }

    method Bind(siteId: string, sessionId: string)
      modifies this`items
      ensures State() == BindSession(old(State()), siteId, sessionId)
    {
      MapItems(Bound(siteId, sessionId));
    }

    /** The ids of the items on a session. */
    method IdsOnSession(sessionId: string) returns (ids: seq<Id>)
      ensures ids == IdsOn(items, sessionId)
    {
      ids := [];
      for i := 0 to |items|
        invariant ids == IdsOn(items[..i], sessionId)
      {
        assert items[..i + 1][..i] == items[..i];
        if items[i].sessionId == Some(sessionId) {
          ids := ids + [items[i].id];
        }
      }
      assert items[..|items|] == items;
    }

    method Unbind(sessionId: string)
      modifies this`items, this`controls, this`applyAll
      ensures State() == UnbindSession(old(State()), sessionId)
    {
      hide Pause, Map;
      var ids := IdsOnSession(sessionId);
      for k := 0 to |ids|
        invariant State() == PauseEach(old(State()), ids[..k])
      {
        assert ids[..k + 1][..k] == ids[..k];
        PauseItem(ids[k]);
      }
      assert ids[..|ids|] == ids;
      MapItems(Unbound(sessionId));
      applyAll := applyAll - {sessionId};
    }

    /** What goes to disk. */
    method Persist() returns (stored: (Items, Items))
      ensures stored == Persisted(State())
    {
      var kept := [];
      for i := 0 to |items|
        invariant kept == Retain(items[..i], Stored())
      {
        assert items[..i + 1][..i] == items[..i];
        if Stored()(items[i]) {
          kept := kept + [items[i]];
        }
      }
      assert items[..|items|] == items;
      stored := (kept, history);
    }

    /** Starts what is due, session by session, and registers a control for each. */
    method DispatchItems(sessions: seq<Session>, now: int) returns (started: seq<Id>)
      requires DistinctSessions(sessions)
      modifies this`items, this`controls
      ensures State() == Dispatch(old(State()), sessions, now)
      ensures forall id :: id in started <==> id in StartedIds(old(items), sessions, now)
    {
      hide Starts, StartedIds, DispatchedItems;
      started := [];
      ghost var before := items;
      NoSessions(items, now);
      assert sessions[..0] == [];
      for k := 0 to |sessions|
        invariant items == DispatchedItems(before, sessions[..k], now) && controls == old(controls)
        invariant forall id :: id in started <==> id in StartedIds(before, sessions[..k], now)
      {
        var next, more := StartOn(items, sessions[k], now);
        OneMoreDispatch(before, items, next, started, more, sessions, k, now);
        items := next;
        started := started + more;
      }
      assert sessions[..|sessions|] == sessions;
      RegisterControls(started);
    }

    method RegisterControls(started: seq<Id>)
      modifies this`controls
      ensures controls == old(controls) + map id | id in started :: Control(false, false)
    {
      for k := 0 to |started|
        invariant controls == old(controls) + map id | id in started[..k] :: Control(false, false)
      {
        assert started[..k + 1] == started[..k] + [started[k]];
        controls := controls[started[k] := Control(false, false)];
      }
      assert started[..|started|] == started;
    }
  }

  lemma NoSessions(items: Items, now: int)
    ensures DispatchedItems(items, [], now) == items && StartedIds(items, [], now) == {}
  {
  }

  /** Serving one more session takes the dispatch of the first k to that of the first k + 1. */
  lemma OneMoreDispatch(before: Items, items: Items, items': Items, started: seq<Id>, more: seq<Id>,
                        sessions: seq<Session>, k: nat, now: int)
    requires DistinctSessions(sessions) && k < |sessions|
    requires items == DispatchedItems(before, sessions[..k], now)
    requires forall id :: id in started <==> id in StartedIds(before, sessions[..k], now)
    requires |items'| == |items|
    requires forall i :: 0 <= i < |items| ==>
               items'[i] == if Starts(items, sessions[k], now, i) then Started(items[i]) else items[i]
    requires forall id :: id in more <==>
               exists i :: 0 <= i < |items| && Starts(items, sessions[k], now, i) && items[i].id == id
    ensures items' == DispatchedItems(before, sessions[..k + 1], now)
    ensures forall id :: id in started + more <==> id in StartedIds(before, sessions[..k + 1], now)
  {
    hide Starts, StartsOnAny;
    SessionsAreIndependent(before, items, sessions, k, now);
    OneMoreSession(before, sessions, k, now);
    assert forall i :: 0 <= i < |items| ==> items[i].id == before[i].id;
    forall id
      ensures id in started + more <==> id in StartedIds(before, sessions[..k + 1], now)
    {
      if id in StartedIds(before, sessions[..k + 1], now) {
        var i :| 0 <= i < |before| && StartsOnAny(before, sessions[..k + 1], now, i) && before[i].id == id;
        if StartsOnAny(before, sessions[..k], now, i) {
          assert id in StartedIds(before, sessions[..k], now);
        } else {
          assert Starts(items, sessions[k], now, i) && items[i].id == id;
        }
      }
      if id in started {
        assert id in StartedIds(before, sessions[..k], now);
        var i :| 0 <= i < |before| && StartsOnAny(before, sessions[..k], now, i) && before[i].id == id;
        assert StartsOnAny(before, sessions[..k + 1], now, i);
      }
      if id in more {
        var i :| 0 <= i < |items| && Starts(items, sessions[k], now, i) && items[i].id == id;
        assert StartsOnAny(before, sessions[..k + 1], now, i) && before[i].id == id;
      }
    }
  }

  lemma OneMoreSession(items: Items, sessions: seq<Session>, k: nat, now: int)
    requires k < |sessions|
    ensures forall i :: 0 <= i < |items| ==>
              (StartsOnAny(items, sessions[..k + 1], now, i)
               <==> StartsOnAny(items, sessions[..k], now, i) || Starts(items, sessions[k], now, i))
  {
    hide Starts;
    assert sessions[..k + 1] == sessions[..k] + [sessions[k]];
    forall i | 0 <= i < |items| && Starts(items, sessions[k], now, i)
      ensures StartsOnAny(items, sessions[..k + 1], now, i)
    {
      assert sessions[..k + 1][k] == sessions[k];
    }
    forall i | 0 <= i < |items| && StartsOnAny(items, sessions[..k], now, i)
      ensures StartsOnAny(items, sessions[..k + 1], now, i)
    {
      var l :| 0 <= l < k && Starts(items, sessions[..k][l], now, i);
      assert sessions[..k + 1][l] == sessions[..k][l];
    }
  }
}
