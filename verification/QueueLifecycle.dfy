/** The queue together with its workers as one state machine: every method of the queue and
    every way a worker run of src-tauri/src/transfer/worker.rs can go is an atomic step. */
module QueueLifecycle {
  import opened Wrappers
  import opened TransferItems
  import opened QueueState

  /** A worker run: spawned; past its first look at the item, of which it keeps a snapshot;
      told to stop; past inserting the children of a directory; about to report a failure. */
  datatype Worker =
    | Spawned
    | Running(snapshot: TransferItem)
    | Stopping(snapshot: TransferItem, pausing: bool)
    | Expanded(snapshot: TransferItem)
    | Failing(snapshot: TransferItem)

  /** `used` holds every id ever drawn; new ids are random and never collide with it. */
  datatype System = System(q: Queue, workers: map<Id, Worker>, used: set<Id>)

  datatype Step =
    // requests of the user and the sessions
    | Add(newItems: Items)
    | Pause(id: Id)
    | Resume(id: Id)
    | Remove(id: Id)
    | RetryFailed
    | RemoveFailed
    | Clear
    | ClearHistory
    | Move(id: Id, newIndex: nat)
    | SetPriority(id: Id, priority: int)
    | Bind(siteId: string, sessionId: string)
    | Unbind(sessionId: string)
    | Restart
    // the scheduler
    | Dispatch(sessions: seq<Session>, now: int)
    // a worker
    | Begin(id: Id, connected: bool, now: int, historyCap: nat)
    | Plan(id: Id, planned: nat, localPath: string, remotePath: string)
    | Progress(id: Id, transferred: nat, speed: nat, size: Option<nat>)
    | Expand(id: Id, children: Items)
    | Observe(id: Id)
    | Stop(id: Id)
    | Finish(id: Id, skipped: bool, now: int, historyCap: nat)
    | Fail(id: Id)
    | Retry(id: Id, error: string, at: int)
    | GiveUp(id: Id, error: string, now: int, historyCap: nat)

  /** New items with new ids that have not been tried yet. */
  ghost predicate NewItems(items: Items, used: set<Id>) {
    && UniqueIds(items)
    && forall item :: item in items ==>
         && item.id !in used && (item.status.Queued? || item.status.Paused?)
         && item.attempts == 0 && item.retryAfter.None?
  }

  /** What `child_of` hands down. */
  predicate ChildOf(child: TransferItem, parent: TransferItem) {
    && child.sessionId == parent.sessionId && child.siteId == parent.siteId
    && child.priority == parent.priority && child.batch == parent.batch
    && child.status.Queued? && child.transferred == 0
  }

  ghost predicate Enabled(s: System, step: Step) {
    match step
    case Add(newItems) => NewItems(newItems, s.used)
    case Dispatch(sessions, _) => DistinctSessions(sessions)
    case Begin(id, _, _, _) => id in s.workers && s.workers[id].Spawned?
    case Plan(id, _, _, _) => id in s.workers && s.workers[id].Running? && !s.workers[id].snapshot.isDir
    case Progress(id, _, _, _) =>
      id in s.workers && (s.workers[id].Running? || s.workers[id].Stopping?) && !s.workers[id].snapshot.isDir
    case Expand(id, children) =>
      && id in s.workers && s.workers[id].Running? && s.workers[id].snapshot.isDir
      && NewItems(children, s.used)
      && forall child :: child in children ==> ChildOf(child, s.workers[id].snapshot)
    case Observe(id) =>
      && id in s.workers && s.workers[id].Running? && !s.workers[id].snapshot.isDir
      && id in s.q.controls && s.q.controls[id].cancelled
    case Stop(id) => id in s.workers && s.workers[id].Stopping?
    case Finish(id, skipped, _, _) =>
      && id in s.workers
      && (s.workers[id].Expanded? || (s.workers[id].Running? && !s.workers[id].snapshot.isDir))
      && (skipped ==> s.workers[id].Running?)
    case Fail(id) => id in s.workers && (s.workers[id].Running? || s.workers[id].Stopping?)
    case Retry(id, _, _) => id in s.workers && s.workers[id].Failing?
    case GiveUp(id, _, _, _) => id in s.workers && s.workers[id].Failing?
    case _ => true
  }

  function IdSet(items: Items): set<Id> {
    set item | item in items :: item.id
  }

  ghost function Next(s: System, step: Step): System
    requires Enabled(s, step)
  {
    match step
    case Add(newItems) => s.(q := QueueState.Add(s.q, newItems), used := s.used + IdSet(newItems))
    case Pause(id) => s.(q := QueueState.Pause(s.q, id))
    case Resume(id) => s.(q := QueueState.Resume(s.q, id))
    case Remove(id) => s.(q := QueueState.Remove(s.q, id))
    case RetryFailed => s.(q := QueueState.RetryFailed(s.q))
    case RemoveFailed => s.(q := QueueState.RemoveFailed(s.q))
    case Clear => s.(q := QueueState.Clear(s.q))
    case ClearHistory => s.(q := QueueState.ClearHistory(s.q))
    case Move(id, newIndex) => s.(q := MoveItem(s.q, id, newIndex))
    case SetPriority(id, priority) => s.(q := Change(s.q, id, Prioritised(priority)))
    case Bind(siteId, sessionId) => s.(q := BindSession(s.q, siteId, sessionId))
    case Unbind(sessionId) => s.(q := UnbindSession(s.q, sessionId))
    case Restart => s.(q := Loaded(Persisted(s.q)), workers := map[])
    case Dispatch(sessions, now) =>
      s.(q := QueueState.Dispatch(s.q, sessions, now),
         workers := s.workers + map id | id in StartedIds(s.q.items, sessions, now) :: Spawned)
    case Begin(id, connected, now, historyCap) =>
      if !Contains(s.q.items, id) then s.(workers := s.workers - {id})
      else
        var item := TransferItems.Get(s.q.items, id);
        if item.sessionId.None? || !connected then
          s.(q := Complete(s.q, id, Failed, Some("session is not connected"), now, historyCap),
             workers := s.workers - {id})
        else s.(workers := s.workers[id := Running(item)])
    case Plan(id, planned, localPath, remotePath) => s.(q := Change(s.q, id, Planned(planned, localPath, remotePath)))
    case Progress(id, transferred, speed, size) => s.(q := Change(s.q, id, Progressed(transferred, speed, size)))
    case Expand(id, children) =>
      s.(q := InsertChildren(s.q, id, children),
         workers := s.workers[id := Expanded(s.workers[id].snapshot)],
         used := s.used + IdSet(children))
    case Observe(id) =>
      s.(workers := s.workers[id := Stopping(s.workers[id].snapshot, s.q.controls[id].pausing)])
    case Stop(id) =>
      if s.workers[id].pausing
      then s.(q := SetPaused(s.q, id), workers := s.workers - {id})
      else s.(q := QueueState.Remove(s.q, id), workers := s.workers - {id})
    case Finish(id, skipped, now, historyCap) =>
      s.(q := Complete(s.q, id, if skipped then Skipped else Done, None, now, historyCap), workers := s.workers - {id})
    case Fail(id) =>
      var snapshot := s.workers[id].snapshot;
      s.(q := Change(s.q, id, Attempted(snapshot.attempts + 1)), workers := s.workers[id := Failing(snapshot)])
    case Retry(id, error, at) => s.(q := ScheduleRetry(s.q, id, error, at), workers := s.workers - {id})
    case GiveUp(id, error, now, historyCap) =>
      s.(q := Complete(s.q, id, Failed, Some(error), now, historyCap), workers := s.workers - {id})
  }

  // The invariant

  /** What the worker knows of an item that is still in the list. */
  predicate SnapshotFits(item: TransferItem, worker: Worker) {
    match worker
    case Spawned => true
    case Running(snapshot) => Same(item, snapshot) && item.attempts == snapshot.attempts
    case Stopping(snapshot, pausing) => pausing && Same(item, snapshot) && item.attempts == snapshot.attempts
    case Expanded(snapshot) => Same(item, snapshot) && item.attempts == snapshot.attempts
    case Failing(snapshot) => Same(item, snapshot) && item.attempts == snapshot.attempts + 1
  }

  predicate Same(item: TransferItem, snapshot: TransferItem) {
    item.id == snapshot.id && item.isDir == snapshot.isDir && item.batch == snapshot.batch
  }

  /** An item in the list is unfinished; it is active exactly when a worker runs for it and
      exactly when a control is registered for it, which then does not ask for removal. */
  predicate ItemOk(item: TransferItem, workers: map<Id, Worker>, controls: map<Id, Control>) {
    && !item.status.Done? && !item.status.Skipped?
    && (item.status.Active? <==> item.id in workers)
    && (item.status.Active? <==> item.id in controls)
    && (item.id in controls && controls[item.id].cancelled ==> controls[item.id].pausing)
    && (item.id in workers ==> SnapshotFits(item, workers[item.id]))
  }

  ghost predicate ItemsOk(items: Items, workers: map<Id, Worker>, controls: map<Id, Control>) {
    forall item :: item in items ==> ItemOk(item, workers, controls)
  }

  ghost predicate Apart(items: Items, history: Items) {
    forall item, h :: item in items && h in history ==> item.id != h.id
  }

  ghost predicate Known(items: Items, used: set<Id>) {
    forall item :: item in items ==> item.id in used
  }

  ghost predicate Inv(s: System) {
    && UniqueIds(s.q.items) && UniqueIds(s.q.history) && Apart(s.q.items, s.q.history)
    && ItemsOk(s.q.items, s.workers, s.q.controls)
    && Known(s.q.items, s.used) && Known(s.q.history, s.used)
    && s.workers.Keys <= s.q.controls.Keys <= s.used
  }

  const EMPTY := System(Queue([], [], map[], {}, map[]), map[], {})

  lemma EmptyIsFine()
    ensures Inv(EMPTY)
  {
  }

  // List operations, element by element

  lemma UpdateMembers(items: Items, id: Id, f: TransferItem -> TransferItem)
    requires UniqueIds(items)
    requires forall item :: f(item).id == item.id
    ensures UniqueIds(Update(items, id, f))
    ensures forall item :: item in Update(items, id, f) ==>
              exists was :: was in items && item == (if was.id == id then f(was) else was)
  {
    if Contains(items, id) {
      var k := Position(items, id);
      var after := Update(items, id, f);
      forall item | item in after
        ensures exists was :: was in items && item == (if was.id == id then f(was) else was)
      {
        var i :| 0 <= i < |after| && after[i] == item;
        var was := items[i];
        assert was in items && item == (if was.id == id then f(was) else was);
      }
    } else {
      forall item | item in items
        ensures exists was :: was in items && item == (if was.id == id then f(was) else was)
      {
        assert item in items && item == (if item.id == id then f(item) else item);
      }
    }
  }

  lemma MapMembers(items: Items, f: TransferItem -> TransferItem)
    requires UniqueIds(items)
    requires forall item :: f(item).id == item.id
    ensures UniqueIds(Map(items, f))
    ensures forall item :: item in Map(items, f) ==> exists was :: was in items && item == f(was)
  {
    forall item | item in Map(items, f)
      ensures exists was :: was in items && item == f(was)
    {
      var i :| 0 <= i < |items| && Map(items, f)[i] == item;
      assert items[i] in items && item == f(items[i]);
    }
  }

  lemma RemoveAtMembers(items: Items, id: Id)
    requires UniqueIds(items) && Contains(items, id)
    ensures UniqueIds(RemoveAt(items, Position(items, id)))
    ensures forall item :: item in RemoveAt(items, Position(items, id)) ==> item in items && item.id != id
  {
  }

  lemma InsertMembers(items: Items, at: nat, more: Items)
    requires at <= |items| && UniqueIds(items) && UniqueIds(more) && Apart(items, more)
    ensures UniqueIds(items[..at] + more + items[at..])
    ensures forall item :: item in items[..at] + more + items[at..] <==> item in items || item in more
  {
    assert items == items[..at] + items[at..];
  }

  // How the invariant survives each kind of list operation

  lemma UpdateKeepsInv(s: System, s': System, id: Id, f: TransferItem -> TransferItem)
    requires Inv(s) && s'.q.items == Update(s.q.items, id, f)
    requires forall item :: f(item).id == item.id
    requires forall was :: was in s.q.items ==>
               ItemOk(if was.id == id then f(was) else was, s'.workers, s'.q.controls)
    requires s'.q.history == s.q.history && s'.used == s.used
    requires s'.workers.Keys <= s'.q.controls.Keys <= s'.used
    ensures Inv(s')
  {
    hide ItemOk, Update;
    UpdateMembers(s.q.items, id, f);
  }

  lemma MapKeepsInv(s: System, s': System, f: TransferItem -> TransferItem)
    requires Inv(s) && s'.q.items == Map(s.q.items, f)
    requires forall item :: f(item).id == item.id
    requires forall was :: was in s.q.items ==> ItemOk(f(was), s'.workers, s'.q.controls)
    requires s'.q.history == s.q.history && s'.used == s.used
    requires s'.workers.Keys <= s'.q.controls.Keys <= s'.used
    ensures Inv(s')
  {
    hide ItemOk, Map;
    MapMembers(s.q.items, f);
  }

  /** Items may go, as long as the others still fit. */
  lemma SubsetKeepsInv(s: System, s': System)
    requires Inv(s) && UniqueIds(s'.q.items)
    requires forall item :: item in s'.q.items ==>
               item in s.q.items && ItemOk(item, s'.workers, s'.q.controls)
    requires s'.q.history == s.q.history && s'.used == s.used
    requires s'.workers.Keys <= s'.q.controls.Keys <= s'.used
    ensures Inv(s')
  {
    hide ItemOk;
  }

  /** What can be said of a worker whose item is in the list. */
  lemma ItemOfWorker(s: System, id: Id)
    requires Inv(s) && id in s.workers && Contains(s.q.items, id)
    ensures var item := TransferItems.Get(s.q.items, id);
            item in s.q.items && item.id == id && ItemOk(item, s.workers, s.q.controls)
            && SnapshotFits(item, s.workers[id])
  {
    assert s.q.items[Position(s.q.items, id)] in s.q.items;
  }

  lemma AbsentId(items: Items, id: Id)
    ensures Contains(items, id) <==> exists item :: item in items && item.id == id
  {
    if Contains(items, id) {
      assert items[Position(items, id)] in items;
    }
  }

  lemma CompleteKeepsInv(s: System, s': System, id: Id, status: TransferStatus, error: Option<string>, now: int,
                         cap: nat)
    requires Inv(s) && id in s.workers
    requires status.Failed? || status.Done? || status.Skipped?
    requires s' == s.(q := Complete(s.q, id, status, error, now, cap), workers := s.workers - {id})
    ensures Inv(s')
  {
    hide SnapshotFits;
    if !Contains(s.q.items, id) {
      AbsentId(s.q.items, id);
      SubsetKeepsInv(s, s');
    } else if status.Failed? {
      var f := Finished(status, error, now);
      assert s'.q.items == Update(s.q.items, id, f);
      UpdateKeepsInv(s, s', id, f);
    } else {
      FinishKeepsInv(s, s', id, Finished(status, error, now)(TransferItems.Get(s.q.items, id)), cap);
    }
  }

  lemma FinishKeepsInv(s: System, s': System, id: Id, finished: TransferItem, cap: nat)
    requires Inv(s) && id in s.workers && Contains(s.q.items, id) && finished.id == id
    requires var all := [finished] + s.q.history;
             && s'.q.items == RemoveAt(s.q.items, Position(s.q.items, id))
             && s'.q.history == all[..Min(|all|, Max(cap, 10))]
             && s'.q.controls == s.q.controls - {id} && s'.workers == s.workers - {id} && s'.used == s.used
    ensures Inv(s')
  {
    hide SnapshotFits;
    RemoveAtMembers(s.q.items, id);
    ItemOfWorker(s, id);
    var all := [finished] + s.q.history;
    assert forall h :: h in s.q.history ==> h.id != id;
    assert UniqueIds(all);
    assert forall h :: h in s'.q.history ==> h in all;
  }

  // Step by step

  lemma WorkerEndKeepsInv(s: System, step: Step)
    requires Inv(s) && Enabled(s, step)
    requires step.Begin? || step.Finish? || step.GiveUp?
    ensures Inv(Next(s, step))
  {
    hide Complete, ItemOk;
    var s' := Next(s, step);
    match step
    case Begin(id, connected, now, cap) => BeginKeepsInv(s, id, connected, now, cap);
    case Finish(id, skipped, now, cap) =>
      CompleteKeepsInv(s, s', id, if skipped then Skipped else Done, None, now, cap);
    case GiveUp(id, error, now, cap) => CompleteKeepsInv(s, s', id, Failed, Some(error), now, cap);
  }

  lemma BeginKeepsInv(s: System, id: Id, connected: bool, now: int, cap: nat)
    requires Inv(s) && Enabled(s, Begin(id, connected, now, cap))
    ensures Inv(Next(s, Begin(id, connected, now, cap)))
  {
    hide Complete;
    var s' := Next(s, Begin(id, connected, now, cap));
    if !Contains(s.q.items, id) {
      AbsentId(s.q.items, id);
      SubsetKeepsInv(s, s');
    } else {
      var item := TransferItems.Get(s.q.items, id);
      if item.sessionId.None? || !connected {
        CompleteKeepsInv(s, s', id, Failed, Some("session is not connected"), now, cap);
      } else {
        ItemOfWorker(s, id);
        forall other | other in s.q.items
          ensures ItemOk(other, s'.workers, s'.q.controls)
        {
          if other.id == id {
            SameItem(s.q.items, other, item);
          }
        }
        SubsetKeepsInv(s, s');
      }
    }
  }

  /** Ids are unique, so items with the same id are the same. */
  lemma SameItem(items: Items, a: TransferItem, b: TransferItem)
    requires UniqueIds(items) && a in items && b in items && a.id == b.id
    ensures a == b
  {
    var i :| 0 <= i < |items| && items[i] == a;
    var j :| 0 <= j < |items| && items[j] == b;
  }

  /** A snapshot only remembers the id, kind, batch and attempts. */
  lemma SnapshotIgnores(a: TransferItem, b: TransferItem, worker: Worker)
    requires a.id == b.id && a.isDir == b.isDir && a.batch == b.batch && a.attempts == b.attempts
    ensures SnapshotFits(a, worker) == SnapshotFits(b, worker)
  {
  }

  lemma ProgressKeepsInv(s: System, id: Id, f: TransferItem -> TransferItem)
    requires Inv(s)
    requires forall item :: f(item).id == item.id && f(item).isDir == item.isDir && f(item).batch == item.batch
                         && f(item).attempts == item.attempts && f(item).status == item.status
    ensures Inv(s.(q := Change(s.q, id, f)))
  {
    hide SnapshotFits;
    forall was | was in s.q.items
      ensures ItemOk(f(was), s.workers, s.q.controls)
    {
      if was.id in s.workers {
        SnapshotIgnores(was, f(was), s.workers[was.id]);
      }
    }
    UpdateKeepsInv(s, s.(q := Change(s.q, id, f)), id, f);
  }

  lemma FailKeepsInv(s: System, id: Id)
    requires Inv(s) && Enabled(s, Fail(id))
    ensures Inv(Next(s, Fail(id)))
  {
    UpdateKeepsInv(s, Next(s, Fail(id)), id, Attempted(s.workers[id].snapshot.attempts + 1));
  }

  lemma WorkerChangeKeepsInv(s: System, step: Step)
    requires Inv(s) && Enabled(s, step)
    requires step.Plan? || step.Progress? || step.Fail? || step.SetPriority?
    ensures Inv(Next(s, step))
  {
    hide Inv;
    match step
    case Plan(id, planned, localPath, remotePath) => ProgressKeepsInv(s, id, Planned(planned, localPath, remotePath));
    case Progress(id, transferred, speed, size) => ProgressKeepsInv(s, id, Progressed(transferred, speed, size));
    case SetPriority(id, priority) => ProgressKeepsInv(s, id, Prioritised(priority));
    case Fail(id) => FailKeepsInv(s, id);
  }

  lemma ObserveKeepsInv(s: System, id: Id)
    requires Inv(s) && Enabled(s, Observe(id))
    ensures Inv(Next(s, Observe(id)))
  {
    SubsetKeepsInv(s, Next(s, Observe(id)));
  }

  lemma RetryKeepsInv(s: System, step: Step)
    requires Inv(s) && Enabled(s, step) && step.Retry?
    ensures Inv(Next(s, step))
  {
    hide SnapshotFits;
    UpdateKeepsInv(s, Next(s, step), step.id, Rescheduled(step.error, step.at));
  }

  lemma StopKeepsInv(s: System, id: Id)
    requires Inv(s) && Enabled(s, Stop(id))
    ensures Inv(Next(s, Stop(id)))
  {
    var s' := Next(s, Stop(id));
    if s.workers[id].pausing {
      hide SnapshotFits;
      UpdateKeepsInv(s, s', id, Halted());
    } else {
      RetainedKeepsInv(s, s', Other(id));
    }
  }

  /** Items that are filtered out take nothing with them. */
  lemma RetainedKeepsInv(s: System, s': System, p: TransferItem -> bool)
    requires Inv(s) && s'.q.items == Retain(s.q.items, p)
    requires forall item :: item in s.q.items && p(item) ==> ItemOk(item, s'.workers, s'.q.controls)
    requires s'.q.history == s.q.history && s'.used == s.used
    requires s'.workers.Keys <= s'.q.controls.Keys <= s'.used
    ensures Inv(s')
  {
    hide ItemOk, Retain;
    RetainUnique(s.q.items, p);
    forall item | item in s'.q.items
      ensures item in s.q.items && p(item)
    {
      RetainMember(s.q.items, p, item);
    }
    SubsetKeepsInv(s, s');
  }

  lemma ExpandKeepsInv(s: System, id: Id, children: Items)
    requires Inv(s) && Enabled(s, Expand(id, children))
    ensures Inv(Next(s, Expand(id, children)))
  {
    var s' := Next(s, Expand(id, children));
    var at := if Contains(s.q.items, id) then Position(s.q.items, id) + 1 else |s.q.items|;
    InsertMembers(s.q.items, at, children);
    FreshItemsOk(s, s', children);
  }

  /** Items with new ids fit in. */
  lemma FreshItemsOk(s: System, s': System, fresh': Items)
    requires Inv(s) && NewItems(fresh', s.used)
    requires UniqueIds(s'.q.items)
    requires forall item :: item in s'.q.items <==> item in s.q.items || item in fresh'
    requires s'.q.history == s.q.history && s'.used == s.used + IdSet(fresh')
    requires s'.q.controls == s.q.controls && s'.workers.Keys == s.workers.Keys
    requires forall id :: id in s.workers ==>
               s'.workers[id] == s.workers[id]
               || (s.workers[id].Running? && s'.workers[id] == Expanded(s.workers[id].snapshot))
    ensures Inv(s')
  {
  }

  lemma AddKeepsInv(s: System, newItems: Items)
    requires Inv(s) && Enabled(s, Add(newItems))
    ensures Inv(Next(s, Add(newItems)))
  {
    var s' := Next(s, Add(newItems));
    InsertMembers(s.q.items, |s.q.items|, newItems);
    assert s.q.items[..|s.q.items|] + newItems + s.q.items[|s.q.items|..] == s'.q.items;
    FreshItemsOk(s, s', newItems);
  }

  lemma PauseKeepsInv(s: System, id: Id)
    requires Inv(s)
    ensures Inv(s.(q := QueueState.Pause(s.q, id)))
  {
    var s' := s.(q := QueueState.Pause(s.q, id));
    if id in s.q.controls {
      hide SnapshotFits;
      SubsetKeepsInv(s, s');
    } else {
      UpdateKeepsInv(s, s', id, PausedIfQueued());
    }
  }

  lemma {:induction false} PauseEachKeepsInv(s: System, ids: seq<Id>)
    requires Inv(s)
    ensures Inv(s.(q := PauseEach(s.q, ids)))
  {
    hide Inv, QueueState.Pause;
    if ids != [] {
      var before := s.(q := PauseEach(s.q, ids[..|ids| - 1]));
      PauseEachKeepsInv(s, ids[..|ids| - 1]);
      PauseKeepsInv(before, ids[|ids| - 1]);
    }
  }

  lemma UnbindKeepsInv(s: System, sessionId: string)
    requires Inv(s)
    ensures Inv(Next(s, Unbind(sessionId)))
  {
    hide PauseEach, IdsOn;
    var ids := IdsOn(s.q.items, sessionId);
    var paused := s.(q := PauseEach(s.q, ids));
    PauseEachKeepsInv(s, ids);
    MapKeepsInv(paused, Next(s, Unbind(sessionId)), Unbound(sessionId));
  }

  lemma ResumeKeepsInv(s: System, id: Id)
    requires Inv(s)
    ensures Inv(Next(s, Resume(id)))
  {
    hide SnapshotFits;
    UpdateKeepsInv(s, Next(s, Resume(id)), id, ResumedIfStopped());
  }

  lemma RemoveKeepsInv(s: System, step: Step)
    requires Inv(s) && (step.Remove? || step.RetryFailed? || step.RemoveFailed?)
    ensures Inv(Next(s, step))
  {
    hide SnapshotFits;
    var s' := Next(s, step);
    match step
    case Remove(id) => RetainedKeepsInv(s, s', Other(id));
    case RetryFailed => MapKeepsInv(s, s', RetriedIfFailed());
    case RemoveFailed => RetainedKeepsInv(s, s', NotFailed());
  }

  lemma BindKeepsInv(s: System, siteId: string, sessionId: string)
    requires Inv(s)
    ensures Inv(Next(s, Bind(siteId, sessionId)))
  {
    MapKeepsInv(s, Next(s, Bind(siteId, sessionId)), Bound(siteId, sessionId));
  }

  lemma ClearKeepsInv(s: System, step: Step)
    requires Inv(s) && (step.Clear? || step.ClearHistory?)
    ensures Inv(Next(s, step))
  {
    hide ItemOk;
  }

  lemma MoveMembers(items: Items, id: Id, target: nat)
    requires UniqueIds(items) && Contains(items, id)
    requires target <= |items| - 1
    ensures var rest := RemoveAt(items, Position(items, id));
            var moved := rest[..target] + [TransferItems.Get(items, id)] + rest[target..];
            UniqueIds(moved) && forall item :: item in moved ==> item in items
  {
    var item := TransferItems.Get(items, id);
    assert item in items;
    RemoveAtMembers(items, id);
    InsertMembers(RemoveAt(items, Position(items, id)), target, [item]);
  }

  lemma MoveKeepsInv(s: System, id: Id, newIndex: nat)
    requires Inv(s)
    ensures Inv(Next(s, Move(id, newIndex)))
  {
    hide ItemOk, UniqueIds;
    if Contains(s.q.items, id) {
      MoveMembers(s.q.items, id, Min(newIndex, |s.q.items| - 1));
      SubsetKeepsInv(s, Next(s, Move(id, newIndex)));
    }
  }

  /** A restart re-establishes the invariant without workers, and loses no item. */
  lemma RestartKeepsInv(s: System)
    requires Inv(s)
    ensures Inv(Next(s, Restart))
    ensures Next(s, Restart).workers == map[]
    ensures Next(s, Restart).q.items == Map(s.q.items, Restored())
    ensures Next(s, Restart).q.history == s.q.history
  {
    RetainAll(s.q.items, Stored());
    MapKeepsInv(s, Next(s, Restart), Restored());
  }

  lemma {:induction false} RetainAll(items: Items, p: TransferItem -> bool)
    requires forall item :: item in items ==> p(item)
    ensures Retain(items, p) == items
  {
    if items != [] {
      RetainAll(items[..|items| - 1], p);
    }
  }

  /** Dispatching starts queued items only, so none of them has a worker already. */
  lemma NeverStartedTwice(s: System, sessions: seq<Session>, now: int)
    requires Inv(s)
    ensures StartedIds(s.q.items, sessions, now) !! s.workers.Keys
    ensures StartedIds(s.q.items, sessions, now) !! s.q.controls.Keys
    ensures StartedIds(s.q.items, sessions, now) <= s.used
  {
    hide Free, Ahead, SnapshotFits;
    forall id | id in StartedIds(s.q.items, sessions, now)
      ensures id !in s.workers && id !in s.q.controls && id in s.used
    {
      var i :| 0 <= i < |s.q.items| && StartsOnAny(s.q.items, sessions, now, i) && s.q.items[i].id == id;
      assert s.q.items[i] in s.q.items;
    }
  }

  lemma DispatchedMembers(items: Items, sessions: seq<Session>, now: int)
    requires UniqueIds(items)
    ensures UniqueIds(DispatchedItems(items, sessions, now))
    ensures forall item :: item in DispatchedItems(items, sessions, now) ==>
              exists was :: was in items && was.id == item.id
                && item == (if was.id in StartedIds(items, sessions, now) then Started(was) else was)
  {
    hide StartsOnAny;
    var after := DispatchedItems(items, sessions, now);
    forall item | item in after
      ensures exists was :: was in items && was.id == item.id
                && item == (if was.id in StartedIds(items, sessions, now) then Started(was) else was)
    {
      var i :| 0 <= i < |after| && after[i] == item;
      var was := items[i];
      if !StartsOnAny(items, sessions, now, i) {
        NotStarted(items, sessions, now, i);
      }
      assert was in items;
    }
  }

  lemma DispatchKeepsInv(s: System, sessions: seq<Session>, now: int)
    requires Inv(s) && Enabled(s, Dispatch(sessions, now))
    ensures Inv(Next(s, Dispatch(sessions, now)))
  {
    hide StartedIds, DispatchedItems, SnapshotFits;
    var s' := Next(s, Dispatch(sessions, now));
    NeverStartedTwice(s, sessions, now);
    DispatchedMembers(s.q.items, sessions, now);
    forall item | item in s'.q.items
      ensures ItemOk(item, s'.workers, s'.q.controls)
    {
      var was :| was in s.q.items && was.id == item.id
        && item == (if was.id in StartedIds(s.q.items, sessions, now) then Started(was) else was);
      assert ItemOk(was, s.workers, s.q.controls);
      SpawnedFits(item);
    }
  }

  lemma SpawnedFits(item: TransferItem)
    ensures SnapshotFits(item, Spawned)
  {
  }

  lemma NotStarted(items: Items, sessions: seq<Session>, now: int, i: nat)
    requires UniqueIds(items) && i < |items| && !StartsOnAny(items, sessions, now, i)
    ensures items[i].id !in StartedIds(items, sessions, now)
  {
    hide StartsOnAny;
  }

  /** Every step keeps the invariant. */
  lemma StepKeepsInv(s: System, step: Step)
    requires Inv(s) && Enabled(s, step)
    ensures Inv(Next(s, step))
  {
    hide Inv, Next, Enabled;
    match step
    case Add(newItems) => AddKeepsInv(s, newItems);
    case Pause(id) => PauseStep(s, id);
    case Move(id, newIndex) => MoveKeepsInv(s, id, newIndex);
    case Bind(siteId, sessionId) => BindKeepsInv(s, siteId, sessionId);
    case Unbind(sessionId) => UnbindKeepsInv(s, sessionId);
    case Restart => RestartKeepsInv(s);
    case Dispatch(sessions, now) => DispatchKeepsInv(s, sessions, now);
    case Expand(id, children) => ExpandKeepsInv(s, id, children);
    case Observe(id) => ObserveKeepsInv(s, id);
    case Stop(id) => StopKeepsInv(s, id);
    case Retry(_, _, _) => RetryKeepsInv(s, step);
    case Begin(_, _, _, _) => WorkerEndKeepsInv(s, step);
    case Finish(_, _, _, _) => WorkerEndKeepsInv(s, step);
    case GiveUp(_, _, _, _) => WorkerEndKeepsInv(s, step);
    case Plan(_, _, _, _) => WorkerChangeKeepsInv(s, step);
    case Progress(_, _, _, _) => WorkerChangeKeepsInv(s, step);
    case Fail(_) => WorkerChangeKeepsInv(s, step);
    case Clear => ClearKeepsInv(s, step);
    case ClearHistory => ClearKeepsInv(s, step);
    case Resume(id) => ResumeKeepsInv(s, id);
    case SetPriority(_, _) => WorkerChangeKeepsInv(s, step);
    case Remove(_) => RemoveKeepsInv(s, step);
    case RetryFailed => RemoveKeepsInv(s, step);
    case RemoveFailed => RemoveKeepsInv(s, step);
  }

  lemma PauseStep(s: System, id: Id)
    requires Inv(s)
    ensures Inv(Next(s, Pause(id)))
  {
    PauseKeepsInv(s, id);
  }

  /** A run of the system: any steps in any order, each enabled where it happens. */
  ghost predicate Execution(states: seq<System>, steps: seq<Step>) {
    && |states| == |steps| + 1
    && Inv(states[0])
    && forall i :: 0 <= i < |steps| ==> Enabled(states[i], steps[i]) && states[i + 1] == Next(states[i], steps[i])
  }

  lemma {:induction false} ExecutionKeepsInv(states: seq<System>, steps: seq<Step>, i: nat)
    requires Execution(states, steps) && i < |states|
    ensures Inv(states[i])
  {
    hide Inv, Next, Enabled;
    if i > 0 {
      ExecutionKeepsInv(states, steps, i - 1);
      StepKeepsInv(states[i - 1], steps[i - 1]);
    }
  }

  /** In every reachable state: an item in the list is active if and only if it has a worker, if
      and only if it has a control, and no id is both in the list and in the history. */
  lemma ActiveIffWorking(states: seq<System>, steps: seq<Step>, i: nat, item: TransferItem)
    requires Execution(states, steps) && i < |states| && item in states[i].q.items
    ensures item.status.Active? <==> item.id in states[i].workers
    ensures item.status.Active? <==> item.id in states[i].q.controls
    ensures !item.status.Done? && !item.status.Skipped?
    ensures forall h :: h in states[i].q.history ==> h.id != item.id
    ensures forall other :: other in states[i].q.items && other.id == item.id ==> other == item
  {
    hide Next, Enabled;
    ExecutionKeepsInv(states, steps, i);
    forall other | other in states[i].q.items && other.id == item.id
      ensures other == item
    {
      SameItem(states[i].q.items, item, other);
    }
  }

  /** So it is in every state that a program started for the first time can come to. */
  lemma FirstStartIsARun(states: seq<System>, steps: seq<Step>, i: nat, item: TransferItem)
    requires |states| == |steps| + 1 && states[0] == EMPTY
    requires forall k :: 0 <= k < |steps| ==> Enabled(states[k], steps[k]) && states[k + 1] == Next(states[k], steps[k])
    requires i < |states| && item in states[i].q.items
    ensures item.status.Active? <==> item.id in states[i].workers
    ensures item.status.Active? <==> item.id in states[i].q.controls
    ensures !item.status.Done? && !item.status.Skipped?
    ensures forall h :: h in states[i].q.history ==> h.id != item.id
  {
    hide Next, Enabled, Inv;
    EmptyIsFine();
    ActiveIffWorking(states, steps, i, item);
  }

  // Workers whose item has been removed

  predicate WorkerStep(step: Step) {
    step.Begin? || step.Plan? || step.Progress? || step.Expand? || step.Observe? || step.Stop? || step.Finish?
    || step.Fail? || step.Retry? || step.GiveUp?
  }

  /** The worker of a removed item changes no item and no history. It can still add items: when
      it was expanding a directory, the children appear at the end of the list, which they do
      if and only if there are any. */
  lemma LateWorkerOnlyAppends(s: System, step: Step)
    requires Inv(s) && Enabled(s, step) && WorkerStep(step) && !Contains(s.q.items, step.id)
    ensures Next(s, step).q.history == s.q.history
    ensures Next(s, step).q.items == s.q.items + (if step.Expand? then step.children else [])
  {
    hide Inv, Enabled, Retain;
    if step.Stop? {
      AbsentId(s.q.items, step.id);
      RetainAll(s.q.items, Other(step.id));
    }
  }
}
