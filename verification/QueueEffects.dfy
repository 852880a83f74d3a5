/** What the methods of src-tauri/src/transfer/queue.rs that change a single field or two mean to a
    caller: for the item, for the scheduler, for the counts of a batch, and what undoes them. */
module QueueEffects {
  import opened Wrappers
  import opened TransferItems
  import opened QueueState

  /** Of all items only the one with this id can differ, and of all controls only its own. */
  ghost predicate OnlyConcerns(q: Queue, q': Queue, id: Id) {
    && |q'.items| == |q.items|
    && (forall i :: 0 <= i < |q.items| ==>
          q'.items[i].id == q.items[i].id && (q.items[i].id != id ==> q'.items[i] == q.items[i]))
    && q'.controls - {id} == q.controls - {id}
    && q'.history == q.history && q'.conflicts == q.conflicts && q'.applyAll == q.applyAll
  }

  lemma UpdateConcerns(items: Items, id: Id, f: TransferItem -> TransferItem)
    requires UniqueIds(items) && forall item :: f(item).id == item.id
    ensures var items' := Update(items, id, f);
            && |items'| == |items|
            && (forall i :: 0 <= i < |items| ==>
                  items'[i].id == items[i].id && (items[i].id != id ==> items'[i] == items[i]))
            && (Contains(items, id) ==> Contains(items', id) && Get(items', id) == f(Get(items, id)))
            && Position(items', id) == Position(items, id)
  {
    var items', at := Update(items, id, f), Position(items, id);
    if at < |items| {
      SamePosition(items', id, at);
    }
  }

  lemma SamePosition(items: Items, id: Id, at: nat)
    requires at < |items| && items[at].id == id && forall k :: 0 <= k < at ==> items[k].id != id
    ensures Position(items, id) == at
  {
  }

  /** The item is not started by any dispatch on any session. */
  ghost predicate NeverDue(item: TransferItem) {
    forall session, now :: !Due(item, session, now)
  }

  /** The item is due on its own session from a certain time on, and on no other. */
  ghost predicate DueFrom(item: TransferItem, at: int) {
    forall session, now :: Due(item, session, now) <==> item.sessionId == Some(session) && at <= now
  }

  /** The item is due on its own session at once. */
  ghost predicate DueAtOnce(item: TransferItem) {
    forall session, now :: Due(item, session, now) <==> item.sessionId == Some(session)
  }

  /** What a run has achieved and cost so far: the parts of an item that decide how it goes on. */
  predicate SameWork(a: TransferItem, b: TransferItem) {
    && a.id == b.id && a.localPath == b.localPath && a.remotePath == b.remotePath && a.isDir == b.isDir
    && a.transferred == b.transferred && a.size == b.size && a.batch == b.batch && a.priority == b.priority
  }

  /** `schedule_retry`: the item is due again from the given time on and not before, it keeps its
      progress and its count of attempts, and nobody else is concerned. */
  lemma RetryWaits(q: Queue, id: Id, error: string, at: int)
    requires UniqueIds(q.items) && Contains(q.items, id)
    ensures var q' := ScheduleRetry(q, id, error, at);
            && OnlyConcerns(q, q', id) && id !in q'.controls && Contains(q'.items, id)
            && (var item, item' := Get(q.items, id), Get(q'.items, id);
                && DueFrom(item', at) && SameWork(item', item) && item'.attempts == item.attempts
                && item'.sessionId == item.sessionId)
  {
    UpdateConcerns(q.items, id, Rescheduled(error, at));
  }

  /** `set_paused`: no dispatch starts the item until somebody resumes it, which makes it due at
      once with its progress kept. */
  lemma PausedUntilResumed(q: Queue, id: Id)
    requires UniqueIds(q.items) && Contains(q.items, id)
    ensures var q' := SetPaused(q, id);
            && OnlyConcerns(q, q', id) && id !in q'.controls && Contains(q'.items, id)
            && NeverDue(Get(q'.items, id)) && SameWork(Get(q'.items, id), Get(q.items, id))
            && (var q'' := Resume(q', id);
                && Contains(q''.items, id) && DueAtOnce(Get(q''.items, id))
                && SameWork(Get(q''.items, id), Get(q.items, id)))
  {
    var q' := SetPaused(q, id);
    UpdateConcerns(q.items, id, Halted());
    UpdateConcerns(q'.items, id, ResumedIfStopped());
  }

  /** `pause`: an item with a worker stays as it is, and its worker will find itself told to pause;
      any other item is not started by any dispatch afterwards. */
  lemma PauseStops(q: Queue, id: Id)
    requires UniqueIds(q.items) && Contains(q.items, id)
    ensures var q' := Pause(q, id);
            && OnlyConcerns(q, q', id) && Contains(q'.items, id)
            && (if id in q.controls
                then q'.items == q.items && id in q'.controls && q'.controls[id].cancelled && q'.controls[id].pausing
                else NeverDue(Get(q'.items, id)) && q'.controls == q.controls)
  {
    UpdateConcerns(q.items, id, PausedIfQueued());
  }

  /** Resuming undoes the pause of a queued item if and only if the item was not waiting for a
      retry: otherwise its error, its attempts and its waiting time are forgotten. */
  lemma ResumeUndoesPauseIff(q: Queue, id: Id)
    requires UniqueIds(q.items) && Contains(q.items, id) && id !in q.controls
    requires Get(q.items, id).status.Queued?
    ensures var item := Get(q.items, id);
            Resume(Pause(q, id), id) == q <==>
            item.error.None? && item.attempts == 0 && item.retryAfter.None?
  {
    var q' := Pause(q, id);
    var q'' := Resume(q', id);
    UpdateConcerns(q.items, id, PausedIfQueued());
    UpdateConcerns(q'.items, id, ResumedIfStopped());
    var item := Get(q.items, id);
    assert Get(q''.items, id) == Requeued(item);
    if Requeued(item) == item {
      assert forall i :: 0 <= i < |q.items| ==> q''.items[i] == q.items[i];
      assert q''.items == q.items;
    }
  }

  /** `resume`: a paused or failed item is due at once and starts with a clean count; on any other,
      a running one included, it has no effect. */
  lemma ResumeWakes(q: Queue, id: Id)
    requires UniqueIds(q.items) && Contains(q.items, id)
    ensures var q', item := Resume(q, id), Get(q.items, id);
            && OnlyConcerns(q, q', id) && q'.controls == q.controls && Contains(q'.items, id)
            && SameWork(Get(q'.items, id), item)
            && (item.status.Paused? || item.status.Failed? ==>
                  DueAtOnce(Get(q'.items, id)) && Get(q'.items, id).attempts == 0 && Get(q'.items, id).error.None?)
            && (q' == q <==> !(item.status.Paused? || item.status.Failed?))
  {
    UpdateConcerns(q.items, id, ResumedIfStopped());
    var item := Get(q.items, id);
    if !(item.status.Paused? || item.status.Failed?) {
      assert Resume(q, id).items == q.items;
    }
  }

  /** `retry_failed` is resuming exactly the failed items. */
  lemma RetryFailedIsResuming(q: Queue, i: nat)
    requires UniqueIds(q.items) && i < |q.items|
    ensures var item := q.items[i];
            && |RetryFailed(q).items| == |q.items|
            && RetryFailed(q).items[i] == if item.status.Failed? then Resume(q, item.id).items[i] else item
    ensures RetryFailed(q).controls == q.controls && RetryFailed(q).history == q.history
  {
    SamePosition(q.items, q.items[i].id, i);
  }

  /** Afterwards every batch has its failed items pending again. */
  lemma {:induction false} RetryFailedCounts(items: Items, batch: string)
    ensures var before, after := BatchCount(items, batch), BatchCount(Map(items, RetriedIfFailed()), batch);
            after == BatchStatus(before.pending + before.failed, 0)
  {
    if items != [] {
      var n := |items| - 1;
      RetryFailedCounts(items[..n], batch);
      assert Map(items, RetriedIfFailed())[..n] == Map(items[..n], RetriedIfFailed());
    }
  }

  /** `remove_failed` takes the failed items out of every batch, nothing else, and keeps the order
      of the others. */
  lemma {:induction false} RemoveFailedCounts(items: Items, batch: string)
    ensures BatchCount(Retain(items, NotFailed()), batch) == BatchStatus(BatchCount(items, batch).pending, 0)
  {
    if items != [] {
      var n := |items| - 1;
      var kept, item := Retain(items[..n], NotFailed()), items[n];
      RemoveFailedCounts(items[..n], batch);
      if item.status.Failed? {
        assert Retain(items, NotFailed()) == kept;
      } else {
        assert (kept + [item])[..|kept|] == kept;
      }
    }
  }

  lemma RemoveFailedKeepsOthers(q: Queue, i: nat, j: nat)
    requires UniqueIds(q.items) && i < j < |q.items|
    requires !q.items[i].status.Failed? && !q.items[j].status.Failed?
    ensures var kept := RemoveFailed(q).items;
            && (forall item :: item in kept <==> item in q.items && !item.status.Failed?)
            && (exists k, l :: 0 <= k < l < |kept| && kept[k] == q.items[i] && kept[l] == q.items[j])
  {
    var kept := RemoveFailed(q).items;
    forall item ensures item in kept <==> item in q.items && !item.status.Failed? {
      RetainMember(q.items, NotFailed(), item);
    }
    var k, l := RetainOrder(q.items, NotFailed(), i, j);
  }

  lemma {:induction false} RetainOrder(items: Items, p: TransferItem -> bool, i: nat, j: nat) returns (k: nat, l: nat)
    requires i < j < |items| && p(items[i]) && p(items[j])
    ensures var kept := Retain(items, p); k < l < |kept| && kept[k] == items[i] && kept[l] == items[j]
  {
    var n := |items| - 1;
    if j < n {
      k, l := RetainOrder(items[..n], p, i, j);
    } else {
      var front := Retain(items[..n], p);
      RetainMember(items[..n], p, items[i]);
      assert items[..n][i] == items[i];
      k :| 0 <= k < |front| && front[k] == items[i];
      l := |front|;
    }
  }

  /** `bind_session`: an item is due on the bound session if and only if it was, or it belonged to
      the site, had no session and is otherwise ready. On other sessions nothing changes. */
  lemma BindMakesDue(q: Queue, siteId: string, sessionId: string, i: nat, session: string, now: int)
    requires i < |q.items|
    ensures var q', item := BindSession(q, siteId, sessionId), q.items[i];
            && |q'.items| == |q.items| && q'.controls == q.controls && q'.history == q.history
            && SameWork(q'.items[i], item) && q'.items[i].status == item.status
            && (Due(q'.items[i], session, now) <==>
                  || Due(item, session, now)
                  || (session == sessionId && item.siteId == siteId && item.sessionId.None?
                      && Due(item.(sessionId := Some(session)), session, now)))
  {
  }

  /** `complete` with success: the item leaves the list, the others stay in order, and it comes first
      in the history, which keeps the latest. */
  lemma DoneGoesToHistory(q: Queue, id: Id, status: TransferStatus, error: Option<string>, now: int, cap: nat)
    requires UniqueIds(q.items) && Contains(q.items, id) && (status.Done? || status.Skipped?)
    ensures var q', item := Complete(q, id, status, error, now, cap), Get(q.items, id);
            && q'.items == Retain(q.items, Other(id)) && !Contains(q'.items, id)
            && q'.controls == q.controls - {id} && q'.conflicts == q.conflicts && q'.applyAll == q.applyAll
            && |q'.history| == Min(|q.history| + 1, Max(cap, 10))
            && q'.history[0].status == status && q'.history[0].error == error && SameWork(q'.history[0], item)
            && q'.history[0].finishedAt == Some(now)
            && (forall i :: 0 < i < |q'.history| ==> q'.history[i] == q.history[i - 1])
  {
    RetainOthers(q.items, id);
    RetainSatisfies(q.items, Other(id));
  }

  /** Retaining the others is removing the one. */
  lemma {:induction false} RetainOthers(items: Items, id: Id)
    requires UniqueIds(items)
    ensures Retain(items, Other(id)) == if Contains(items, id) then RemoveAt(items, Position(items, id)) else items
  {
    hide UniqueIds;
    if items != [] {
      var n := |items| - 1;
      var front, at := items[..n], Position(items, id);
      FrontUnique(items);
      if at < n {
        SamePosition(front, id, at);
        RetainOthers(front, id);
        LastIsOther(items, at);
        RemoveInFront(items, at);
      } else {
        RetainsAll(front, Other(id));
        assert at == n ==> RemoveAt(items, n) == front;
        assert front + [items[n]] == items;
      }
    }
  }

  lemma FrontUnique(items: Items)
    requires items != [] && UniqueIds(items)
    ensures UniqueIds(items[..|items| - 1])
  {
  }

  lemma LastIsOther(items: Items, at: nat)
    requires UniqueIds(items) && at < |items| - 1
    ensures items[|items| - 1].id != items[at].id
  {
  }

  lemma RemoveInFront(items: Items, at: nat)
    requires at < |items| - 1
    ensures RemoveAt(items, at) == RemoveAt(items[..|items| - 1], at) + [items[|items| - 1]]
  {
  }

  /** `complete` with failure: the item stays, is started by no dispatch until it is resumed, and its
      error can be read. */
  lemma FailedStays(q: Queue, id: Id, error: Option<string>, now: int, cap: nat)
    requires UniqueIds(q.items) && Contains(q.items, id)
    ensures var q' := Complete(q, id, Failed, error, now, cap);
            && OnlyConcerns(q, q', id) && id !in q'.controls && Contains(q'.items, id)
            && (var item := Get(q'.items, id);
                && NeverDue(item) && item.status == Failed && item.error == error
                && SameWork(item, Get(q.items, id)) && item.attempts == Get(q.items, id).attempts)
  {
    UpdateConcerns(q.items, id, Finished(Failed, error, now));
  }

  /** `remove`: the item is gone, nobody else is concerned, and a worker of it is told to stop for
      good, not to pause. */
  lemma RemoveStopsForGood(q: Queue, id: Id)
    requires UniqueIds(q.items)
    ensures var q' := Remove(q, id);
            && !Contains(q'.items, id)
            && q'.items == (if Contains(q.items, id) then RemoveAt(q.items, Position(q.items, id)) else q.items)
            && q'.history == q.history && q'.controls.Keys == q.controls.Keys
            && (id in q.controls ==> q'.controls[id].cancelled && !q'.controls[id].pausing)
            && (forall other :: other in q.controls && other != id ==> q'.controls[other] == q.controls[other])
            && id !in q'.conflicts
  {
    RetainOthers(q.items, id);
    RetainSatisfies(q.items, Other(id));
  }

  /** `clear`: nothing is left to do, and every worker is told to stop for good. */
  lemma ClearStopsAll(q: Queue)
    ensures var q' := Clear(q);
            && q'.items == [] && q'.conflicts == {} && q'.history == q.history
            && q'.controls.Keys == q.controls.Keys
            && (forall id :: id in q'.controls ==> q'.controls[id].cancelled && !q'.controls[id].pausing)
  {
  }

  /** `move_item`: the item gets the wanted place, or the last one, and the others keep their order. */
  lemma MovePlaces(q: Queue, id: Id, newIndex: nat)
    requires UniqueIds(q.items) && Contains(q.items, id)
    ensures var q' := MoveItem(q, id, newIndex);
            && |q'.items| == |q.items| && q'.items[Min(newIndex, |q.items| - 1)] == Get(q.items, id)
            && RemoveAt(q'.items, Min(newIndex, |q.items| - 1)) == RemoveAt(q.items, Position(q.items, id))
            && q'.controls == q.controls && q'.history == q.history
  {
    hide RemoveAt, Position;
    var rest := RemoveAt(q.items, Position(q.items, id));
    OneFewer(q.items, Position(q.items, id));
    InsertedThere(rest, Min(newIndex, |rest|), Get(q.items, id));
  }

  lemma OneFewer(items: Items, at: nat)
    requires at < |items|
    ensures |RemoveAt(items, at)| == |items| - 1
  {
  }

  lemma InsertedThere(rest: Items, to: nat, item: TransferItem)
    requires to <= |rest|
    ensures var all := rest[..to] + [item] + rest[to..];
            |all| == |rest| + 1 && all[to] == item && RemoveAt(all, to) == rest
  {
    var all := rest[..to] + [item] + rest[to..];
    assert all[..to] == rest[..to] && all[to + 1..] == rest[to..];
  }

  /** `insert_children`: in order, right behind the parent, or behind everything if it is gone. */
  lemma ChildrenFollowParent(q: Queue, parent: Id, children: Items)
    ensures var items := InsertChildren(q, parent, children).items;
            var at := if Contains(q.items, parent) then Position(q.items, parent) + 1 else |q.items|;
            && |items| == |q.items| + |children|
            && items[..at] == q.items[..at] && items[at..at + |children|] == children
            && items[at + |children|..] == q.items[at..]
            && (Contains(q.items, parent) ==> items[at - 1].id == parent)
  {
  }

  /** What pausing one item does to the i-th and to the controls. */
  lemma PausedOnce(q: Queue, id: Id, i: nat)
    requires UniqueIds(q.items) && i < |q.items|
    ensures var q', item := Pause(q, id), q.items[i];
            && |q'.items| == |q.items| && UniqueIds(q'.items) && q'.history == q.history
            && q'.items[i] == (if item.id == id && id !in q.controls then PausedIfQueued()(item) else item)
            && q'.controls.Keys == q.controls.Keys
            && (forall other :: other in q.controls ==>
                  q'.controls[other] == if other == id then Control(true, true) else q.controls[other])
  {
    UpdateConcerns(q.items, id, PausedIfQueued());
    if q.items[i].id == id {
      SamePosition(q.items, id, i);
    }
  }

  lemma {:induction false} PausedOneByOne(q: Queue, ids: seq<Id>, i: nat)
    requires UniqueIds(q.items) && i < |q.items|
    ensures var q', item := PauseEach(q, ids), q.items[i];
            && |q'.items| == |q.items| && UniqueIds(q'.items) && q'.history == q.history
            && q'.items[i] == (if item.id in ids && item.id !in q.controls then PausedIfQueued()(item) else item)
            && q'.controls.Keys == q.controls.Keys
            && (forall id :: id in q.controls ==>
                  q'.controls[id] == if id in ids then Control(true, true) else q.controls[id])
  {
    hide Pause, UniqueIds;
    if ids != [] {
      var front, last := ids[..|ids| - 1], ids[|ids| - 1];
      PausedOneByOne(q, front, i);
      PausedOnce(PauseEach(q, front), last, i);
      InFrontOrLast(ids);
    }
  }

  lemma InFrontOrLast(ids: seq<Id>)
    requires ids != []
    ensures forall id :: id in ids <==> id in ids[..|ids| - 1] || id == ids[|ids| - 1]
  {
  }

  lemma {:induction false} OnSession(items: Items, sessionId: string, item: TransferItem)
    requires UniqueIds(items) && item in items
    ensures item.id in IdsOn(items, sessionId) <==> item.sessionId == Some(sessionId)
  {
    var n := |items| - 1;
    if item != items[n] {
      assert item in items[..n];
      OnSession(items[..n], sessionId, item);
    } else {
      NotInFront(items, sessionId, item.id);
    }
  }

  lemma {:induction false} NotInFront(items: Items, sessionId: string, id: Id)
    requires items != [] && forall i :: 0 <= i < |items| - 1 ==> items[i].id != id
    ensures id !in IdsOn(items[..|items| - 1], sessionId)
  {
    var front := items[..|items| - 1];
    if front != [] {
      NotInFront(front, sessionId, id);
    }
  }

  /** `unbind_session`: every item of the session loses it, so no dispatch starts any of them. Those
      with a worker have it told to pause, the queued ones are paused, all others stay as they are. */
  lemma UnbindReleases(q: Queue, sessionId: string, i: nat)
    requires UniqueIds(q.items) && i < |q.items|
    ensures var q', item := UnbindSession(q, sessionId), q.items[i];
            && |q'.items| == |q.items| && q'.history == q.history && sessionId !in q'.applyAll
            && q'.controls.Keys == q.controls.Keys
            && (if item.sessionId != Some(sessionId)
                then q'.items[i] == item && (item.id in q.controls ==> q'.controls[item.id] == q.controls[item.id])
                else
                  && q'.items[i].sessionId == None && NeverDue(q'.items[i]) && SameWork(q'.items[i], item)
                  && (if item.id in q.controls
                      then q'.items[i].status == item.status && q'.controls[item.id].cancelled
                           && q'.controls[item.id].pausing
                      else q'.items[i].status == if item.status == Queued then Paused else item.status))
  {
    PausedOneByOne(q, IdsOn(q.items, sessionId), i);
    OnSession(q.items, sessionId, q.items[i]);
  }

  /** `set_priority`, `record_progress` and the update at the start of a transfer set just what they
      are about, on the one item. */
  lemma UpdatesSetTheirFields(q: Queue, id: Id, priority: int, transferred: nat, speed: nat, size: Option<nat>,
                              planned: nat, localPath: string, remotePath: string)
    requires UniqueIds(q.items) && Contains(q.items, id)
    ensures var q', was := Change(q, id, Prioritised(priority)), Get(q.items, id);
            && OnlyConcerns(q, q', id) && q'.controls == q.controls && Contains(q'.items, id)
            && Get(q'.items, id) == was.(priority := priority)
    ensures var q', was := Change(q, id, Progressed(transferred, speed, size)), Get(q.items, id);
            && OnlyConcerns(q, q', id) && q'.controls == q.controls && Contains(q'.items, id)
            && Get(q'.items, id)
               == was.(transferred := transferred, speed := speed, size := if size == None then was.size else size)
    ensures var q', was := Change(q, id, Planned(planned, localPath, remotePath)), Get(q.items, id);
            && OnlyConcerns(q, q', id) && q'.controls == q.controls && Contains(q'.items, id)
            && Get(q'.items, id) == was.(size := Some(planned), localPath := localPath, remotePath := remotePath)
  {
    UpdateConcerns(q.items, id, Prioritised(priority));
    UpdateConcerns(q.items, id, Progressed(transferred, speed, size));
    UpdateConcerns(q.items, id, Planned(planned, localPath, remotePath));
  }

  // Storing and loading

  /** Nothing that is not stored is in the queue. */
  ghost predicate AtRest(q: Queue) {
    && (forall i :: 0 <= i < |q.items| ==>
          && Stored()(q.items[i]) && !q.items[i].status.Active?
          && q.items[i].sessionId.None? && q.items[i].speed == 0 && q.items[i].retryAfter.None?)
    && q.controls == map[] && q.conflicts == {} && q.applyAll == map[]
  }

  lemma {:induction false} RetainSatisfies(items: Items, p: TransferItem -> bool)
    ensures forall i :: 0 <= i < |Retain(items, p)| ==> p(Retain(items, p)[i])
  {
    if items != [] {
      RetainSatisfies(items[..|items| - 1], p);
    }
  }

  lemma {:induction false} RetainsAll(items: Items, p: TransferItem -> bool)
    requires forall i :: 0 <= i < |items| ==> p(items[i])
    ensures Retain(items, p) == items
  {
    if items != [] {
      RetainsAll(items[..|items| - 1], p);
    }
  }

  lemma LoadedIsAtRest(q: Queue)
    ensures AtRest(Loaded(Persisted(q)))
  {
    RetainSatisfies(q.items, Stored());
  }

  /** A queue comes back as it was if and only if it was at rest: no item active, bound to a session
      or waiting for a retry. What a restart brings back always is, so a second one changes
      nothing more. */
  lemma RestoredIffAtRest(q: Queue)
    ensures Loaded(Persisted(q)) == q <==> AtRest(q)
    ensures Loaded(Persisted(Loaded(Persisted(q)))) == Loaded(Persisted(q))
  {
    LoadedIsAtRest(q);
    LoadedIsAtRest(Loaded(Persisted(q)));
    if AtRest(q) {
      RestKeeps(q);
    }
    RestKeeps(Loaded(Persisted(q)));
  }

  lemma RestKeeps(q: Queue)
    requires AtRest(q)
    ensures Loaded(Persisted(q)) == q
  {
    RetainsAll(q.items, Stored());
    assert Map(q.items, Restored()) == q.items;
  }

  /** What a restart makes of each item: what was active is queued again, everything else keeps its
      status, nothing is bound to a session, and work, error and attempts are kept. Nothing is started
      until the site is bound to a session again; then what was queued or active is due at once. */
  lemma RestartRequeues(q: Queue, i: nat, sessionId: string)
    requires i < |q.items| && forall k :: 0 <= k < |q.items| ==> Stored()(q.items[k])
    ensures var q', was := Loaded(Persisted(q)), q.items[i];
            && |q'.items| == |q.items| && q'.history == q.history
            && (var item := q'.items[i];
                && item.status == (if was.status == Active then Queued else was.status)
                && item.sessionId == None && NeverDue(item) && SameWork(item, was)
                && item.error == was.error && item.attempts == was.attempts)
            && (var bound := BindSession(q', was.siteId, sessionId);
                && |bound.items| == |q'.items|
                && (was.status == Queued || was.status == Active ==>
                      DueAtOnce(bound.items[i]) && bound.items[i].sessionId == Some(sessionId)))
  {
    hide Loaded, Persisted;
    RestoredOneByOne(q, i);
  }

  lemma RestoredOneByOne(q: Queue, i: nat)
    requires i < |q.items| && forall k :: 0 <= k < |q.items| ==> Stored()(q.items[k])
    ensures var q' := Loaded(Persisted(q));
            |q'.items| == |q.items| && q'.history == q.history && q'.items[i] == Restored()(q.items[i])
  {
    RetainsAll(q.items, Stored());
  }
}
