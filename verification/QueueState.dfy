/** The state of src-tauri/src/transfer/queue.rs and what each of its methods makes of it. */
module QueueState {
  import opened Wrappers
  import opened Conflict
  import opened TransferItems

  /** How a worker is told to stop: the token, and whether stopping means pausing. */
  datatype Control = Control(cancelled: bool, pausing: bool)

  datatype Queue = Queue(
    items: Items,
    history: Items,
    controls: map<Id, Control>,
    conflicts: set<Id>,
    applyAll: map<string, ConflictPolicy>)

  datatype Session = Session(id: string, maxConnections: nat)
  {
    function MaxTransfers(): nat {
      Max(maxConnections, 1)
    }
  }

  datatype BatchStatus = BatchStatus(pending: nat, failed: nat)

  // Changes of one item

  function Finished(status: TransferStatus, error: Option<string>, now: int): TransferItem -> TransferItem {
    (i: TransferItem) => i.(status := status, error := error, speed := 0, finishedAt := Some(now))
  }

  function Rescheduled(error: string, at: int): TransferItem -> TransferItem {
    (i: TransferItem) => i.(status := Queued, error := Some(error), speed := 0, retryAfter := Some(at))
  }

  function Halted(): TransferItem -> TransferItem {
    (i: TransferItem) => i.(status := Paused, speed := 0)
  }

  function PausedIfQueued(): TransferItem -> TransferItem {
    (i: TransferItem) => if i.status.Queued? then i.(status := Paused) else i
  }

  function Requeued(i: TransferItem): TransferItem {
    i.(status := Queued, error := None, attempts := 0, retryAfter := None)
  }

  function ResumedIfStopped(): TransferItem -> TransferItem {
    (i: TransferItem) => if i.status.Paused? || i.status.Failed? then Requeued(i) else i
  }

  function RetriedIfFailed(): TransferItem -> TransferItem {
    (i: TransferItem) => if i.status.Failed? then Requeued(i) else i
  }

  function Attempted(attempts: nat): TransferItem -> TransferItem {
    (i: TransferItem) => i.(attempts := attempts)
  }

  function Progressed(transferred: nat, speed: nat, size: Option<nat>): TransferItem -> TransferItem {
    (i: TransferItem) => i.(transferred := transferred, speed := speed, size := if size.Some? then size else i.size)
  }

  function Planned(size: nat, localPath: string, remotePath: string): TransferItem -> TransferItem {
    (i: TransferItem) => i.(size := Some(size), localPath := localPath, remotePath := remotePath)
  }

  function Prioritised(priority: int): TransferItem -> TransferItem {
    (i: TransferItem) => i.(priority := priority)
  }

  function Bound(siteId: string, sessionId: string): TransferItem -> TransferItem {
    (i: TransferItem) => if i.siteId == siteId && i.sessionId.None? then i.(sessionId := Some(sessionId)) else i
  }

  function Unbound(sessionId: string): TransferItem -> TransferItem {
    (i: TransferItem) => if i.sessionId == Some(sessionId) then i.(sessionId := None) else i
  }

  function Started(i: TransferItem): TransferItem {
    i.(status := Active, retryAfter := None)
  }

  /** What a restart makes of a stored item; the retry time is not stored. */
  function Restored(): TransferItem -> TransferItem {
    (i: TransferItem) => i.(sessionId := None, speed := 0, retryAfter := None,
                            status := if i.status.Active? then Queued else i.status)
  }

  function Other(id: Id): TransferItem -> bool {
    (i: TransferItem) => i.id != id
  }

  function NotFailed(): TransferItem -> bool {
    (i: TransferItem) => !i.status.Failed?
  }

  function Stored(): TransferItem -> bool {
    (i: TransferItem) => i.IsPending() || i.status.Failed?
  }

  // Methods

  function Add(q: Queue, newItems: Items): Queue {
    q.(items := q.items + newItems)
  }

  /** Children go right behind their parent, or to the end when it is gone. */
  function InsertChildren(q: Queue, parent: Id, children: Items): Queue {
    var at := if Contains(q.items, parent) then Position(q.items, parent) + 1 else |q.items|;
    q.(items := q.items[..at] + children + q.items[at..])
  }

  function Complete(q: Queue, id: Id, status: TransferStatus, error: Option<string>, now: int, historyCap: nat): Queue {
    if !Contains(q.items, id) then q
    else
      var finished := Finished(status, error, now)(Get(q.items, id));
      if status.Done? || status.Skipped? then
        var all := [finished] + q.history;
        q.(items := RemoveAt(q.items, Position(q.items, id)),
           history := all[..Min(|all|, Max(historyCap, 10))],
           controls := q.controls - {id})
      else
        q.(items := q.items[Position(q.items, id) := finished], controls := q.controls - {id})
  }

  function ScheduleRetry(q: Queue, id: Id, error: string, at: int): Queue {
    q.(items := Update(q.items, id, Rescheduled(error, at)), controls := q.controls - {id})
  }

  function SetPaused(q: Queue, id: Id): Queue {
    q.(items := Update(q.items, id, Halted()), controls := q.controls - {id})
  }

  function Pause(q: Queue, id: Id): Queue {
    if id in q.controls then q.(controls := q.controls[id := Control(true, true)])
    else q.(items := Update(q.items, id, PausedIfQueued()))
  }

  function PauseEach(q: Queue, ids: seq<Id>): Queue {
    if ids == [] then q else Pause(PauseEach(q, ids[..|ids| - 1]), ids[|ids| - 1])
  }

  function Resume(q: Queue, id: Id): Queue {
    q.(items := Update(q.items, id, ResumedIfStopped()))
  }

  /** The item goes; its control is told to cancel but stays registered. */
  function Remove(q: Queue, id: Id): Queue {
    q.(items := Retain(q.items, Other(id)),
       controls := if id in q.controls then q.controls[id := Control(true, false)] else q.controls,
       conflicts := q.conflicts - {id})
  }

  function RetryFailed(q: Queue): Queue {
    q.(items := Map(q.items, RetriedIfFailed()))
  }

  function RemoveFailed(q: Queue): Queue {
    q.(items := Retain(q.items, NotFailed()))
  }

  function Clear(q: Queue): Queue {
    q.(items := [], controls := map id | id in q.controls :: Control(true, false), conflicts := {})
  }

  function ClearHistory(q: Queue): Queue {
    q.(history := [])
  }

  function MoveItem(q: Queue, id: Id, newIndex: nat): Queue {
    if !Contains(q.items, id) then q
    else
      var rest := RemoveAt(q.items, Position(q.items, id));
      var target := Min(newIndex, |rest|);
      q.(items := rest[..target] + [Get(q.items, id)] + rest[target..])
  }

  function BindSession(q: Queue, siteId: string, sessionId: string): Queue {
    q.(items := Map(q.items, Bound(siteId, sessionId)))
  }

  function IdsOn(items: Items, sessionId: string): seq<Id> {
    if items == [] then []
    else
      IdsOn(items[..|items| - 1], sessionId)
      + (if items[|items| - 1].sessionId == Some(sessionId) then [items[|items| - 1].id] else [])
  }

  function UnbindSession(q: Queue, sessionId: string): Queue {
    var paused := PauseEach(q, IdsOn(q.items, sessionId));
    paused.(items := Map(paused.items, Unbound(sessionId)), applyAll := paused.applyAll - {sessionId})
  }

  function Change(q: Queue, id: Id, f: TransferItem -> TransferItem): Queue {
    q.(items := Update(q.items, id, f))
  }

  /** What is written to disk, and what a restart makes of it. */
  function Persisted(q: Queue): (Items, Items) {
    (Retain(q.items, Stored()), q.history)
  }

  function Loaded(stored: (Items, Items)): Queue {
    Queue(Map(stored.0, Restored()), stored.1, map[], {}, map[])
  }

  function BatchCount(items: Items, batch: string): BatchStatus {
    if items == [] then BatchStatus(0, 0)
    else
      var before := BatchCount(items[..|items| - 1], batch);
      var item := items[|items| - 1];
      if item.batch != Some(batch) then before
      else if item.status.Failed? then before.(failed := before.failed + 1)
      else if item.IsPending() then before.(pending := before.pending + 1)
      else before
  }

  // Dispatching

  /** An item that may be started on a session now. */
  predicate Due(item: TransferItem, session: string, now: int) {
    item.sessionId == Some(session) && item.status.Queued? && (item.retryAfter.Some? ==> item.retryAfter.value <= now)
  }

  /** Item j is started before item i: it has a higher priority, or the same and comes first. */
  predicate Precedes(items: Items, j: nat, i: nat)
    requires j < |items| && i < |items|
  {
    items[j].priority > items[i].priority || (items[j].priority == items[i].priority && j < i)
  }

  /** The due items of the session that come before item i. */
  function Ahead(items: Items, session: string, now: int, i: nat): set<nat>
    requires i < |items|
  {
    set j: nat | j < |items| && Due(items[j], session, now) && Precedes(items, j, i)
  }

  function DueOn(items: Items, session: string, now: int): set<nat> {
    set j: nat | j < |items| && Due(items[j], session, now)
  }

  predicate IsActiveOn(item: TransferItem, session: string) {
    item.sessionId == Some(session) && item.status.Active?
  }

  function CountActive(items: Items, session: string): nat {
    if items == [] then 0
    else CountActive(items[..|items| - 1], session) + (if IsActiveOn(items[|items| - 1], session) then 1 else 0)
  }

  function Free(items: Items, session: Session): nat {
    Max(session.MaxTransfers() - CountActive(items, session.id), 0)
  }

  /** Item i is among the first `Free` due items of the session. */
  predicate Starts(items: Items, session: Session, now: int, i: nat)
    requires i < |items|
  {
    Due(items[i], session.id, now) && |Ahead(items, session.id, now, i)| < Free(items, session)
  }

  predicate StartsOnAny(items: Items, sessions: seq<Session>, now: int, i: nat)
    requires i < |items|
  {
    exists k :: 0 <= k < |sessions| && Starts(items, sessions[k], now, i)
  }

  function DispatchedItems(items: Items, sessions: seq<Session>, now: int): Items {
    seq(|items|, i requires 0 <= i < |items| =>
      if StartsOnAny(items, sessions, now, i) then Started(items[i]) else items[i])
  }

  function StartedIds(items: Items, sessions: seq<Session>, now: int): set<Id> {
    set i | 0 <= i < |items| && StartsOnAny(items, sessions, now, i) :: items[i].id
  }

  function Dispatch(q: Queue, sessions: seq<Session>, now: int): Queue {
    q.(items := DispatchedItems(q.items, sessions, now),
       controls := q.controls + map id | id in StartedIds(q.items, sessions, now) :: Control(false, false))
  }

  ghost predicate DistinctSessions(sessions: seq<Session>) {
    forall i, j :: 0 <= i < j < |sessions| ==> sessions[i].id != sessions[j].id
  }
}
