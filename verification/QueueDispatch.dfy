/** What dispatching guarantees: it starts the first due items of every session, as many as the
    session has room for, and no run exceeds the room. */
module QueueDispatch {
  import opened Wrappers
  import opened TransferItems
  import opened QueueState
  import opened QueueLifecycle

  // The order of the candidates

  function AheadIn(items: Items, candidates: set<nat>, i: nat): set<nat>
    requires i < |items| && forall j :: j in candidates ==> j < |items|
  {
    set j | j in candidates && Precedes(items, j, i)
  }

  function FirstIn(items: Items, candidates: set<nat>, n: nat): set<nat>
    requires forall j :: j in candidates ==> j < |items|
  {
    set i | i in candidates && |AheadIn(items, candidates, i)| < n
  }

  /** Among finitely many candidates one comes last. */
  lemma LastOf(items: Items, candidates: set<nat>) returns (last: nat)
    requires candidates != {} && forall j :: j in candidates ==> j < |items|
    ensures last in candidates
    ensures forall j :: j in candidates && j != last ==> Precedes(items, j, last) && !Precedes(items, last, j)
  {
    last :| last in candidates;
    if candidates != {last} {
      var rest := LastOf(items, candidates - {last});
      if Precedes(items, last, rest) {
        last := rest;
      } else {
        assert Precedes(items, rest, last);
        forall j | j in candidates && j != last
          ensures Precedes(items, j, last) && !Precedes(items, last, j)
        {
          assert j == rest || Precedes(items, j, rest);
        }
      }
    }
  }

  /** The first n of the candidates are n, or all of them. */
  lemma FirstAreMany(items: Items, candidates: set<nat>, n: nat)
    requires forall j :: j in candidates ==> j < |items|
    ensures |FirstIn(items, candidates, n)| == Min(n, |candidates|)
  {
    if candidates == {} {
      assert FirstIn(items, candidates, n) == {};
    } else {
      var last := LastOf(items, candidates);
      var others := candidates - {last};
      FirstAreMany(items, others, n);
      assert AheadIn(items, candidates, last) == others;
      forall i | i in others
        ensures AheadIn(items, candidates, i) == AheadIn(items, others, i)
      {
      }
      if |others| < n {
        assert FirstIn(items, candidates, n) == FirstIn(items, others, n) + {last};
      } else {
        assert FirstIn(items, candidates, n) == FirstIn(items, others, n);
      }
    }
  }

  function StartedOn(items: Items, session: Session, now: int): set<nat> {
    set i: nat | i < |items| && Starts(items, session, now, i)
  }

  /** Work-conserving: as many items start as are due and fit. */
  lemma StartsAsManyAsFit(items: Items, session: Session, now: int)
    ensures |StartedOn(items, session, now)| == Min(Free(items, session), |DueOn(items, session.id, now)|)
  {
    var due := DueOn(items, session.id, now);
    forall i | i in due
      ensures AheadIn(items, due, i) == Ahead(items, session.id, now, i)
    {
    }
    assert FirstIn(items, due, Free(items, session)) == StartedOn(items, session, now);
    FirstAreMany(items, due, Free(items, session));
  }

  /** Priority-stable: whatever comes before an item that is started is started as well. */
  lemma StartsInOrder(items: Items, session: Session, now: int, i: nat, j: nat)
    requires i < |items| && j < |items|
    requires Starts(items, session, now, i)
    requires Due(items[j], session.id, now) && Precedes(items, j, i)
    ensures Starts(items, session, now, j)
  {
    var before, after := Ahead(items, session.id, now, j), Ahead(items, session.id, now, i);
    assert before <= after;
    SubsetSize(before, after);
  }

  lemma SubsetSize<T>(a: set<T>, b: set<T>)
    requires a <= b
    ensures |a| <= |b|
  {
    if x :| x in a {
      SubsetSize(a - {x}, b - {x});
    }
  }

  // Counting

  /** The active items of a session. */
  function ActiveOn(items: Items, session: string): set<nat> {
    set i: nat | i < |items| && items[i].sessionId == Some(session) && items[i].status == Active
  }

  lemma {:induction false} CountIsSize(items: Items, session: string)
    ensures CountActive(items, session) == |ActiveOn(items, session)|
  {
    if items == [] {
      assert ActiveOn(items, session) == {};
    } else {
      var n := |items| - 1;
      CountIsSize(items[..n], session);
      if IsActiveOn(items[n], session) {
        assert ActiveOn(items, session) == ActiveOn(items[..n], session) + {n};
      } else {
        assert ActiveOn(items, session) == ActiveOn(items[..n], session);
      }
    }
  }

  /** Capacity-safe: after a dispatch a session has what it had and what was started, so never
      more than its limit unless it had more before. */
  lemma DispatchFillsUp(items: Items, sessions: seq<Session>, now: int, k: nat)
    requires DistinctSessions(sessions) && k < |sessions|
    ensures var session := sessions[k];
            var before := CountActive(items, session.id);
            var after := CountActive(DispatchedItems(items, sessions, now), session.id);
            && after == before + Min(Free(items, session), |DueOn(items, session.id, now)|)
            && after <= Max(before, session.MaxTransfers())
  {
    hide Starts, Free;
    var session, items' := sessions[k], DispatchedItems(items, sessions, now);
    CountIsSize(items, session.id);
    CountIsSize(items', session.id);
    StartsAsManyAsFit(items, session, now);
    forall i: nat | i < |items|
      ensures items[i].sessionId == Some(session.id) ==>
                (StartsOnAny(items, sessions, now, i) <==> Starts(items, session, now, i))
    {
      if items[i].sessionId == Some(session.id) {
        OwnSession(items, sessions, now, k, i);
      }
    }
    DispatchedActive(items, sessions, now, session);
    FreeIsRoom(items, session);
  }

  lemma FreeIsRoom(items: Items, session: Session)
    ensures Free(items, session) == Max(session.MaxTransfers() - CountActive(items, session.id), 0)
  {
  }

  lemma OwnSession(items: Items, sessions: seq<Session>, now: int, k: nat, i: nat)
    requires DistinctSessions(sessions) && k < |sessions| && i < |items|
    requires items[i].sessionId == Some(sessions[k].id)
    ensures StartsOnAny(items, sessions, now, i) <==> Starts(items, sessions[k], now, i)
  {
  }

  lemma DispatchedActive(items: Items, sessions: seq<Session>, now: int, session: Session)
    requires forall i: nat :: i < |items| && items[i].sessionId == Some(session.id) ==>
               (StartsOnAny(items, sessions, now, i) <==> Starts(items, session, now, i))
    ensures |ActiveOn(DispatchedItems(items, sessions, now), session.id)|
            == |ActiveOn(items, session.id)| + |StartedOn(items, session, now)|
  {
    hide Free, Ahead, StartsOnAny;
    var before, started := ActiveOn(items, session.id), StartedOn(items, session, now);
    assert ActiveOn(DispatchedItems(items, sessions, now), session.id) == before + started;
    assert before !! started;
  }

  // The same, on the fields of the items

  /** Queued on the session, and not waiting for a later retry. */
  predicate IsReady(item: TransferItem, session: string, now: int) {
    && item.sessionId == Some(session) && item.status == Queued
    && (item.retryAfter == None || item.retryAfter.value <= now)
  }

  function ReadyOn(items: Items, session: string, now: int): set<nat> {
    set i: nat | i < |items| && IsReady(items[i], session, now)
  }

  /** A session with `maxConnections` connections, at least one, has as many more active items after
      a dispatch as it has ready ones and room for them. */
  lemma DispatchFillsConnections(q: Queue, sessions: seq<Session>, now: int, k: nat)
    requires DistinctSessions(sessions) && k < |sessions|
    ensures var id, room := sessions[k].id, Max(sessions[k].maxConnections, 1);
            var before, after := |ActiveOn(q.items, id)|, |ActiveOn(QueueState.Dispatch(q, sessions, now).items, id)|;
            && after == before + Min(Max(room - before, 0), |ReadyOn(q.items, id, now)|)
            && after <= Max(before, room)
  {
    var id := sessions[k].id;
    DispatchFillsUp(q.items, sessions, now, k);
    CountIsSize(q.items, id);
    CountIsSize(QueueState.Dispatch(q, sessions, now).items, id);
    assert ReadyOn(q.items, id, now) == DueOn(q.items, id, now);
  }

  /** What a dispatch does to an item: nothing, or it makes a ready item active. */
  lemma OnlyReadyItemsStart(q: Queue, sessions: seq<Session>, now: int, i: nat)
    requires i < |q.items|
    ensures var items, items' := q.items, QueueState.Dispatch(q, sessions, now).items;
            && |items'| == |items|
            && (|| items'[i] == items[i]
                || (&& items'[i] == items[i].(status := Active, retryAfter := None)
                    && exists k :: 0 <= k < |sessions| && IsReady(items[i], sessions[k].id, now)))
  {
  }

  /** Of two ready items of a session of which only one is started, that one has the higher priority
      or, with the same priority, comes first in the list. */
  lemma HigherPriorityFirst(q: Queue, sessions: seq<Session>, now: int, k: nat, i: nat, j: nat)
    requires DistinctSessions(sessions) && k < |sessions| && i < |q.items| && j < |q.items|
    requires IsReady(q.items[i], sessions[k].id, now) && IsReady(q.items[j], sessions[k].id, now)
    requires QueueState.Dispatch(q, sessions, now).items[i].status == Active
    requires QueueState.Dispatch(q, sessions, now).items[j].status == Queued
    ensures q.items[i].priority > q.items[j].priority || (q.items[i].priority == q.items[j].priority && i < j)
  {
    OwnSession(q.items, sessions, now, k, i);
    OwnSession(q.items, sessions, now, k, j);
    if i != j && Precedes(q.items, j, i) {
      StartsInOrder(q.items, sessions[k], now, i, j);
    }
  }

  // Capacity over whole runs

  function ActiveIds(items: Items, session: string): set<Id> {
    set item | item in items && IsActiveOn(item, session) :: item.id
  }

  lemma {:induction false} CountIsIds(items: Items, session: string)
    requires UniqueIds(items)
    ensures CountActive(items, session) == |ActiveIds(items, session)|
  {
    if items != [] {
      var n := |items| - 1;
      CountIsIds(items[..n], session);
      ActiveIdsOfLast(items, session);
    }
  }

  lemma ActiveIdsOfLast(items: Items, session: string)
    requires UniqueIds(items) && items != []
    ensures var n := |items| - 1;
            && ActiveIds(items, session)
               == ActiveIds(items[..n], session) + (if IsActiveOn(items[n], session) then {items[n].id} else {})
            && items[n].id !in ActiveIds(items[..n], session)
  {
    hide IsActiveOn;
    var n := |items| - 1;
    assert forall item :: item in items <==> item in items[..n] || item == items[n];
  }

  /** No item becomes active on the session. */
  ghost predicate NoneStarts(before: Items, after: Items, session: string) {
    forall item :: item in after && IsActiveOn(item, session) ==>
      exists was :: was in before && was.id == item.id && IsActiveOn(was, session)
  }

  lemma NoneStartsCount(before: Items, after: Items, session: string)
    requires UniqueIds(before) && UniqueIds(after) && NoneStarts(before, after, session)
    ensures CountActive(after, session) <= CountActive(before, session)
  {
    CountIsIds(before, session);
    CountIsIds(after, session);
    assert ActiveIds(after, session) <= ActiveIds(before, session);
    SubsetSize(ActiveIds(after, session), ActiveIds(before, session));
  }

  /** A change of items that activates nothing on a session. */
  ghost predicate Passive(f: TransferItem -> TransferItem, session: string) {
    forall item :: f(item).id == item.id && (IsActiveOn(f(item), session) ==> IsActiveOn(item, session))
  }

  lemma UpdateStartsNone(items: Items, id: Id, f: TransferItem -> TransferItem, session: string)
    requires UniqueIds(items) && Passive(f, session)
    ensures NoneStarts(items, Update(items, id, f), session)
  {
    hide Update, IsActiveOn;
    UpdateMembers(items, id, f);
  }

  lemma MapStartsNone(items: Items, f: TransferItem -> TransferItem, session: string)
    requires UniqueIds(items) && Passive(f, session)
    ensures NoneStarts(items, Map(items, f), session)
  {
    hide Map, IsActiveOn;
    MapMembers(items, f);
  }

  lemma SubsetStartsNone(before: Items, after: Items, session: string)
    requires forall item :: item in after ==> item in before || !item.status.Active?
    ensures NoneStarts(before, after, session)
  {
  }

  lemma {:induction false} PauseEachStartsNone(q: Queue, ids: seq<Id>, session: string)
    requires UniqueIds(q.items)
    ensures UniqueIds(PauseEach(q, ids).items) && NoneStarts(q.items, PauseEach(q, ids).items, session)
  {
    hide Update, IsActiveOn;
    if ids == [] {
    } else {
      var before := PauseEach(q, ids[..|ids| - 1]);
      PauseEachStartsNone(q, ids[..|ids| - 1], session);
      PausedIsPassive(session);
      UpdateStartsNone(before.items, ids[|ids| - 1], PausedIfQueued(), session);
      UpdateMembers(before.items, ids[|ids| - 1], PausedIfQueued());
    }
  }

  lemma PausedIsPassive(session: string)
    ensures Passive(PausedIfQueued(), session)
  {
  }

  lemma CompleteStartsNone(q: Queue, id: Id, status: TransferStatus, error: Option<string>, now: int, cap: nat,
                           session: string)
    requires UniqueIds(q.items) && !status.Active?
    ensures NoneStarts(q.items, Complete(q, id, status, error, now, cap).items, session)
  {
    if Contains(q.items, id) {
      if status.Done? || status.Skipped? {
        RemoveAtMembers(q.items, id);
      } else {
        UpdateStartsNone(q.items, id, Finished(status, error, now), session);
      }
    }
  }

  lemma UserStartsNone(s: System, step: Step, session: string)
    requires Inv(s) && Enabled(s, step)
    requires step.Resume? || step.SetPriority? || step.RetryFailed? || step.Restart?
    ensures NoneStarts(s.q.items, Next(s, step).q.items, session)
  {
    hide Inv, Update, Map, NoneStarts;
    var items := s.q.items;
    assert UniqueIds(items) by {
      UniqueItems(s);
    }
    match step
    case Resume(id) => UpdateStartsNone(items, id, ResumedIfStopped(), session);
    case SetPriority(id, priority) => UpdateStartsNone(items, id, Prioritised(priority), session);
    case RetryFailed => MapStartsNone(items, RetriedIfFailed(), session);
    case Restart =>
      RestartKeepsInv(s);
      MapStartsNone(items, Restored(), session);
  }

  lemma UniqueItems(s: System)
    requires Inv(s)
    ensures UniqueIds(s.q.items)
  {
  }

  lemma ShrinkingStartsNone(s: System, step: Step, session: string)
    requires Inv(s) && Enabled(s, step)
    requires step.Remove? || step.RemoveFailed? || step.Clear? || step.ClearHistory? || step.Move? || step.Add?
              || step.Observe?
    ensures NoneStarts(s.q.items, Next(s, step).q.items, session)
  {
    var items, items' := s.q.items, Next(s, step).q.items;
    forall item | item in items'
      ensures item in items || !item.status.Active?
    {
      match step
      case Remove(id) => RetainMember(items, Other(id), item);
      case RemoveFailed => RetainMember(items, NotFailed(), item);
      case Move(id, newIndex) =>
        if Contains(items, id) {
          MoveMembers(items, id, Min(newIndex, |items| - 1));
        }
      case _ =>
    }
    SubsetStartsNone(items, items', session);
  }

  lemma WorkerStartsNone(s: System, step: Step, session: string)
    requires Inv(s) && Enabled(s, step) && WorkerStep(step) && !step.Observe?
    ensures NoneStarts(s.q.items, Next(s, step).q.items, session)
  {
    hide Inv, Update, Complete, NoneStarts, Retain, Enabled;
    var items := s.q.items;
    assert UniqueIds(items) by {
      UniqueItems(s);
    }
    SubsetStartsNone(items, items, session);
    match step
    case Begin(id, _, now, cap) =>
      CompleteStartsNone(s.q, id, Failed, Some("session is not connected"), now, cap, session);
    case Plan(id, planned, local, remote) => UpdateStartsNone(items, id, Planned(planned, local, remote), session);
    case Progress(id, n, speed, size) => UpdateStartsNone(items, id, Progressed(n, speed, size), session);
    case Expand(id, children) => ExpandStartsNone(s, id, children, session);
    case Stop(id) => StopStartsNone(s, id, session);
    case Finish(id, skipped, now, cap) =>
      CompleteStartsNone(s.q, id, if skipped then Skipped else Done, None, now, cap, session);
    case Fail(id) => FailStartsNone(s, id, session);
    case Retry(id, error, at) => UpdateStartsNone(items, id, Rescheduled(error, at), session);
    case GiveUp(id, error, now, cap) => CompleteStartsNone(s.q, id, Failed, Some(error), now, cap, session);
  }

  lemma ExpandStartsNone(s: System, id: Id, children: Items, session: string)
    requires Inv(s) && Enabled(s, Expand(id, children))
    ensures NoneStarts(s.q.items, Next(s, Expand(id, children)).q.items, session)
  {
    var items, items' := s.q.items, Next(s, Expand(id, children)).q.items;
    var at := if Contains(items, id) then Position(items, id) + 1 else |items|;
    assert items == items[..at] + items[at..];
    SubsetStartsNone(items, items', session);
  }

  lemma FailStartsNone(s: System, id: Id, session: string)
    requires Inv(s) && Enabled(s, Fail(id))
    ensures NoneStarts(s.q.items, Next(s, Fail(id)).q.items, session)
  {
    UpdateStartsNone(s.q.items, id, Attempted(s.workers[id].snapshot.attempts + 1), session);
  }

  lemma StopStartsNone(s: System, id: Id, session: string)
    requires Inv(s) && Enabled(s, Stop(id))
    ensures NoneStarts(s.q.items, Next(s, Stop(id)).q.items, session)
  {
    if s.workers[id].pausing {
      UpdateStartsNone(s.q.items, id, Halted(), session);
    } else {
      forall item | item in Retain(s.q.items, Other(id))
        ensures item in s.q.items
      {
        RetainMember(s.q.items, Other(id), item);
      }
      SubsetStartsNone(s.q.items, Retain(s.q.items, Other(id)), session);
    }
  }

  lemma PauseStartsNone(s: System, step: Step, session: string)
    requires Inv(s) && (step.Pause? || step.Unbind?)
    ensures NoneStarts(s.q.items, Next(s, step).q.items, session)
  {
    hide Update, IsActiveOn, Map, PauseEach, IdsOn;
    var items := s.q.items;
    match step
    case Pause(id) =>
      PausedIsPassive(session);
      UpdateStartsNone(items, id, PausedIfQueued(), session);
    case Unbind(sessionId) =>
      var paused := PauseEach(s.q, IdsOn(items, sessionId)).items;
      PauseEachStartsNone(s.q, IdsOn(items, sessionId), session);
      UnboundIsPassive(sessionId, session);
      MapStartsNone(paused, Unbound(sessionId), session);
  }

  lemma UnboundIsPassive(sessionId: string, session: string)
    ensures Passive(Unbound(sessionId), session)
  {
  }

  /** Apart from a dispatch and from binding a session, no step makes a session busier. */
  lemma OnlyDispatchAndBindStart(s: System, step: Step, session: string)
    requires Inv(s) && Enabled(s, step) && !step.Dispatch? && !step.Bind?
    ensures CountActive(Next(s, step).q.items, session) <= CountActive(s.q.items, session)
  {
    hide Next, NoneStarts, Enabled;
    assert NoneStarts(s.q.items, Next(s, step).q.items, session) by {
      hide Inv;
      if WorkerStep(step) && !step.Observe? {
        WorkerStartsNone(s, step, session);
      } else if step.Pause? || step.Unbind? {
        PauseStartsNone(s, step, session);
      } else if step.Resume? || step.SetPriority? || step.RetryFailed? || step.Restart? {
        UserStartsNone(s, step, session);
      } else {
        ShrinkingStartsNone(s, step, session);
      }
    }
    StepKeepsInv(s, step);
    NoneStartsCount(s.q.items, Next(s, step).q.items, session);
  }

  /** The active items that binding the site to a session moves there. */
  function Orphans(items: Items, siteId: string): nat {
    if items == [] then 0
    else
      var last := items[|items| - 1];
      Orphans(items[..|items| - 1], siteId)
      + (if last.siteId == siteId && last.sessionId.None? && last.status.Active? then 1 else 0)
  }

  /** Binding raises the count of the bound session by exactly the active items it rebinds. */
  lemma {:induction false} BindRaisesByOrphans(items: Items, siteId: string, sessionId: string, session: string)
    ensures CountActive(Map(items, Bound(siteId, sessionId)), session)
            == CountActive(items, session) + (if session == sessionId then Orphans(items, siteId) else 0)
  {
    if items != [] {
      var n := |items| - 1;
      BindRaisesByOrphans(items[..n], siteId, sessionId, session);
      assert Map(items, Bound(siteId, sessionId))[..n] == Map(items[..n], Bound(siteId, sessionId));
    }
  }

  /** Every dispatch of the run sees the session with the same limit. */
  ghost predicate FixedLimit(steps: seq<Step>, session: Session) {
    forall i, k :: 0 <= i < |steps| && steps[i].Dispatch? && 0 <= k < |steps[i].sessions| ==>
      (steps[i].sessions[k].id == session.id ==> steps[i].sessions[k] == session)
  }

  lemma DispatchKeepsRoom(items: Items, sessions: seq<Session>, now: int, session: Session)
    requires DistinctSessions(sessions)
    requires forall k :: 0 <= k < |sessions| && sessions[k].id == session.id ==> sessions[k] == session
    ensures CountActive(DispatchedItems(items, sessions, now), session.id)
            <= Max(CountActive(items, session.id), session.MaxTransfers())
  {
    if k :| 0 <= k < |sessions| && sessions[k].id == session.id {
      DispatchFillsUp(items, sessions, now, k);
    } else {
      hide Free, Ahead;
      CountIsSize(items, session.id);
      CountIsSize(DispatchedItems(items, sessions, now), session.id);
      assert ActiveOn(DispatchedItems(items, sessions, now), session.id) == ActiveOn(items, session.id);
    }
  }

  /** Over any run without `bind_session` a session never has more active items than its limit,
      or than it started with. */
  lemma {:induction false} CapacityOverRuns(states: seq<System>, steps: seq<Step>, i: nat, session: Session)
    requires Execution(states, steps) && i < |states|
    requires FixedLimit(steps, session)
    requires forall k :: 0 <= k < i ==> !steps[k].Bind?
    ensures CountActive(states[i].q.items, session.id)
            <= Max(CountActive(states[0].q.items, session.id), session.MaxTransfers())
  {
    hide Inv, Next, Enabled, DispatchedItems;
    if i > 0 {
      CapacityOverRuns(states, steps, i - 1, session);
      ExecutionKeepsInv(states, steps, i - 1);
      var s, step := states[i - 1], steps[i - 1];
      assert Enabled(s, step) && states[i] == Next(s, step);
      if step.Dispatch? {
        DispatchStep(s, step, session);
      } else {
        OnlyDispatchAndBindStart(s, step, session.id);
      }
    }
  }

  lemma DispatchStep(s: System, step: Step, session: Session)
    requires Enabled(s, step) && step.Dispatch?
    requires forall k :: 0 <= k < |step.sessions| && step.sessions[k].id == session.id ==> step.sessions[k] == session
    ensures CountActive(Next(s, step).q.items, session.id)
            <= Max(CountActive(s.q.items, session.id), session.MaxTransfers())
  {
    hide DispatchedItems;
    DispatchKeepsRoom(s.q.items, step.sessions, step.now, session);
  }
}
