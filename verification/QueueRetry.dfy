/** Retries: how often an item is run between two resets, and how long a retry waits. */
module QueueRetry {
  import opened Wrappers
  import opened TransferItems
  import opened QueueState
  import opened QueueLifecycle

  datatype Settings = Settings(maxRetries: nat, backoffMs: nat)

  function Pow2(n: nat): nat {
    if n == 0 then 1 else 2 * Pow2(n - 1)
  }

  /** The delay before the run that follows the given number of failed ones, in milliseconds. */
  function Delay(settings: Settings, attempts: nat): nat
    requires attempts > 0
  {
    Max(settings.backoffMs, 250) * Pow2(attempts - 1)
  }

  /** What `handle_failure` decides after a failed run. */
  datatype Decision = RetryIn(delay: nat) | NoRetry

  function HandleFailure(settings: Settings, attempts: nat, retryable: bool): Decision
    requires attempts > 0
  {
    if retryable && attempts <= settings.maxRetries then RetryIn(Delay(settings, attempts)) else NoRetry
  }

  // The delay as the machine computes it

  const U64 := 0x1_0000_0000_0000_0000

  lemma {:induction false} Pow2Monotone(m: nat, n: nat)
    requires m <= n
    ensures 1 <= Pow2(m) <= Pow2(n)
    decreases n
  {
    if m < n {
      Pow2Monotone(m, n - 1);
    } else if m > 0 {
      Pow2Monotone(m - 1, n - 1);
    }
  }

  lemma Pow2Values()
    ensures Pow2(31) == 0x8000_0000
    ensures Pow2(56) == 0x100_0000_0000_0000 && Pow2(57) == 0x200_0000_0000_0000
    ensures Pow2(64) == U64
  {
    assert Pow2(8) == 256;
    assert Pow2(16) == 0x1_0000;
    assert Pow2(24) == 0x100_0000;
    assert Pow2(31) == 0x8000_0000;
    assert Pow2(40) == 0x100_0000_0000;
    assert Pow2(48) == 0x1_0000_0000_0000;
    assert Pow2(56) == 0x100_0000_0000_0000;
  }

  lemma MulMonotone(a: nat, b: nat, c: nat)
    requires b <= c
    ensures a * b <= a * c
  {
  }

  /** The delay in 64 bits: both the power and the product wrap around. */
  function WrappedDelay(settings: Settings, attempts: nat): nat
    requires attempts > 0
  {
    Max(settings.backoffMs, 250) * (Pow2(attempts - 1) % U64) % U64
  }

  lemma WrapsIffTooLarge(settings: Settings, attempts: nat)
    requires attempts > 0
    ensures WrappedDelay(settings, attempts) == Delay(settings, attempts) <==> Delay(settings, attempts) < U64
  {
    var base, power := Max(settings.backoffMs, 250), Pow2(attempts - 1);
    MulMonotone(power, 1, base);
    assert base * power == power * base;
  }

  /** All delays stay below a bound if and only if the last one does. */
  lemma DelaysStayBelow(settings: Settings, bound: nat)
    requires settings.maxRetries > 0
    ensures (forall attempts :: 0 < attempts <= settings.maxRetries ==> Delay(settings, attempts) < bound) <==>
            Max(settings.backoffMs, 250) * Pow2(settings.maxRetries - 1) < bound
  {
    assert Delay(settings, settings.maxRetries) == Max(settings.backoffMs, 250) * Pow2(settings.maxRetries - 1);
    forall attempts | 0 < attempts <= settings.maxRetries
      ensures Delay(settings, attempts) <= Delay(settings, settings.maxRetries)
    {
      Pow2Monotone(attempts - 1, settings.maxRetries - 1);
      MulMonotone(Max(settings.backoffMs, 250), Pow2(attempts - 1), Pow2(settings.maxRetries - 1));
    }
  }

  /** The settings under which every retry waits as long as it should: 64 bits hold the delay of
      the last one. */
  lemma DelaysFitIff(settings: Settings)
    requires settings.maxRetries > 0
    ensures (forall attempts :: 0 < attempts <= settings.maxRetries ==>
               WrappedDelay(settings, attempts) == Delay(settings, attempts)) <==>
            Max(settings.backoffMs, 250) * Pow2(settings.maxRetries - 1) < U64
  {
    hide Delay, WrappedDelay;
    DelaysStayBelow(settings, U64);
    forall attempts | 0 < attempts <= settings.maxRetries
      ensures WrappedDelay(settings, attempts) == Delay(settings, attempts) <==> Delay(settings, attempts) < U64
    {
      WrapsIffTooLarge(settings, attempts);
    }
  }

  /** With at most 32 retries and a base below 2^31 the delays even leave a bit to spare. */
  lemma DelayFits(settings: Settings, attempts: nat)
    requires 0 < attempts <= settings.maxRetries <= 32
    requires settings.backoffMs < 0x8000_0000
    ensures Delay(settings, attempts) < U64 / 2
  {
    Pow2Values();
    Pow2Monotone(attempts - 1, 31);
    var base, power := Max(settings.backoffMs, 250), Pow2(attempts - 1);
    assert base * power <= base * 0x8000_0000 by {
      MulMonotone(base, power, 0x8000_0000);
    }
  }

  /** The attempts whose delay overflows whatever the settings are: those from the 58th on. */
  lemma DelayOverflows(attempts: nat)
    requires attempts > 0
    ensures (forall settings :: Delay(settings, attempts) >= U64) <==> attempts >= 58
  {
    Pow2Values();
    if attempts >= 58 {
      forall settings ensures Delay(settings, attempts) >= U64 {
        var base := Max(settings.backoffMs, 250);
        Pow2Monotone(57, attempts - 1);
        MulMonotone(base, Pow2(57), Pow2(attempts - 1));
        MulMonotone(Pow2(57), 250, base);
        assert base * Pow2(57) == Pow2(57) * base;
      }
    } else {
      Pow2Monotone(attempts - 1, 56);
      assert Delay(Settings(0, 0), attempts) == 250 * Pow2(attempts - 1) < U64;
    }
  }

  // Bookkeeping along a run

  /** Per item, since it was added or last reset: its runs, the failed ones among them, and the
      time at which the last failure was handled. */
  datatype Record = Record(runs: map<Id, nat>, failures: map<Id, nat>, failedAt: map<Id, int>)

  function Zeroed(m: map<Id, nat>, ids: set<Id>): map<Id, nat> {
    m + map id | id in ids :: 0
  }

  /** The items whose counts start anew with this step. */
  function ResetIds(items: Items, step: Step): set<Id> {
    match step
    case Resume(id) =>
      set item | item in items && item.id == id && (item.status.Paused? || item.status.Failed?) :: item.id
    case RetryFailed => set item | item in items && item.status.Failed? :: item.id
    case Add(newItems) => IdSet(newItems)
    case Expand(_, children) => IdSet(children)
    case _ => {}
  }

  /** The record after a step that only resets counts. */
  function AfterReset(r: Record, reset: set<Id>): Record {
    Record(Zeroed(r.runs, reset), Zeroed(r.failures, reset), r.failedAt - reset)
  }

  function Recorded(r: Record, s: System, step: Step, clock: int): Record {
    match step
    case Dispatch(sessions, now) =>
      var started := StartedIds(s.q.items, sessions, now);
      r.(runs := map id | id in r.runs :: if id in started then r.runs[id] + 1 else r.runs[id])
    case Fail(id) => if id in r.failures then r.(failures := r.failures[id := r.failures[id] + 1]) else r
    case Retry(id, _, _) => r.(failedAt := r.failedAt[id := clock])
    case _ => AfterReset(r, ResetIds(s.q.items, step))
  }

  /** At the given time workers retry as `handle_failure` decides, and the scheduler looks at
      the clock; the program is not restarted. */
  predicate Disciplined(settings: Settings, s: System, step: Step, clock: int) {
    match step
    case Restart => false
    case Dispatch(_, now) => now == clock
    case Retry(id, _, at) =>
      && id in s.workers && s.workers[id].Failing?
      && var decision := HandleFailure(settings, s.workers[id].snapshot.attempts + 1, true);
         (decision.RetryIn? && at == clock + decision.delay)
    case _ => true
  }

  /** How the record of an item fits its state. */
  predicate RecordFits(item: TransferItem, workers: map<Id, Worker>, r: Record, settings: Settings) {
    && item.id in r.runs && item.id in r.failures
    && r.failures[item.id] == item.attempts
    && item.attempts <= r.runs[item.id] <= settings.maxRetries + 1
    && (item.status.Queued? ==>
          && r.runs[item.id] == item.attempts <= settings.maxRetries
          && (item.attempts > 0 ==>
                && item.id in r.failedAt
                && item.retryAfter == Some(r.failedAt[item.id] + Delay(settings, item.attempts))))
    && (item.status.Active? && item.id in workers ==>
          if workers[item.id].Failing? then r.runs[item.id] == item.attempts
          else r.runs[item.id] == item.attempts + 1)
  }

  ghost predicate RecordsFit(s: System, r: Record, settings: Settings) {
    forall item :: item in s.q.items ==> RecordFits(item, s.workers, r, settings)
  }

  lemma UpdateKeepsRecords(s: System, s': System, id: Id, f: TransferItem -> TransferItem, r: Record, r': Record,
                           settings: Settings)
    requires UniqueIds(s.q.items) && s'.q.items == Update(s.q.items, id, f)
    requires forall item :: f(item).id == item.id
    requires forall was :: was in s.q.items ==>
               RecordFits(if was.id == id then f(was) else was, s'.workers, r', settings)
    ensures RecordsFit(s', r', settings)
  {
    hide Update, RecordFits;
    UpdateMembers(s.q.items, id, f);
  }

  lemma MapKeepsRecords(s: System, s': System, f: TransferItem -> TransferItem, r': Record, settings: Settings)
    requires UniqueIds(s.q.items) && s'.q.items == Map(s.q.items, f)
    requires forall item :: f(item).id == item.id
    requires forall was :: was in s.q.items ==> RecordFits(f(was), s'.workers, r', settings)
    ensures RecordsFit(s', r', settings)
  {
    hide Map, RecordFits;
    MapMembers(s.q.items, f);
  }

  /** Fields that the record does not look at. */
  predicate Alike(a: TransferItem, b: TransferItem) {
    a.id == b.id && a.attempts == b.attempts && a.status == b.status && a.retryAfter == b.retryAfter
  }

  lemma AlikeFits(a: TransferItem, b: TransferItem, workers: map<Id, Worker>, r: Record, settings: Settings)
    requires Alike(a, b) && RecordFits(a, workers, r, settings)
    ensures RecordFits(b, workers, r, settings)
  {
  }

  lemma NoResets(r: Record)
    ensures AfterReset(r, {}) == r
  {
    assert r.failedAt - {} == r.failedAt;
    assert Zeroed(r.runs, {}) == r.runs;
    assert Zeroed(r.failures, {}) == r.failures;
  }

  /** Steps that touch nothing the record looks at. */
  lemma PlainStep(s: System, step: Step, r: Record, settings: Settings, clock: int)
    requires Inv(s) && Enabled(s, step) && RecordsFit(s, r, settings)
    requires step.SetPriority? || step.Bind? || step.Plan? || step.Progress?
    ensures RecordsFit(Next(s, step), Recorded(r, s, step, clock), settings)
  {
    hide RecordFits, ItemOk;
    NoResets(r);
    var s' := Next(s, step);
    match step
    case SetPriority(id, priority) => PlainUpdate(s, s', id, Prioritised(priority), r, settings);
    case Plan(id, planned, local, remote) => PlainUpdate(s, s', id, Planned(planned, local, remote), r, settings);
    case Progress(id, n, speed, size) => PlainUpdate(s, s', id, Progressed(n, speed, size), r, settings);
    case Bind(siteId, sessionId) => PlainMap(s, s', Bound(siteId, sessionId), r, settings);
  }

  lemma PlainUpdate(s: System, s': System, id: Id, f: TransferItem -> TransferItem, r: Record, settings: Settings)
    requires UniqueIds(s.q.items) && RecordsFit(s, r, settings)
    requires s'.q.items == Update(s.q.items, id, f) && s'.workers == s.workers
    requires forall item :: Alike(item, f(item))
    ensures RecordsFit(s', r, settings)
  {
    hide RecordFits, Update;
    forall was | was in s.q.items
      ensures RecordFits(if was.id == id then f(was) else was, s'.workers, r, settings)
    {
      assert Alike(was, f(was));
      AlikeFits(was, f(was), s.workers, r, settings);
    }
    assert forall item :: Alike(item, f(item)) ==> f(item).id == item.id;
    UpdateKeepsRecords(s, s', id, f, r, r, settings);
  }

  lemma PlainMap(s: System, s': System, f: TransferItem -> TransferItem, r: Record, settings: Settings)
    requires UniqueIds(s.q.items) && RecordsFit(s, r, settings)
    requires s'.q.items == Map(s.q.items, f) && s'.workers == s.workers
    requires forall item :: Alike(item, f(item))
    ensures RecordsFit(s', r, settings)
  {
    hide RecordFits, Map;
    forall was | was in s.q.items
      ensures RecordFits(f(was), s'.workers, r, settings)
    {
      assert Alike(was, f(was));
      AlikeFits(was, f(was), s.workers, r, settings);
    }
    assert forall item :: Alike(item, f(item)) ==> f(item).id == item.id;
    MapKeepsRecords(s, s', f, r, settings);
  }

  lemma ResetFits(was: TransferItem, workers: map<Id, Worker>, r: Record, reset: set<Id>, settings: Settings)
    requires RecordFits(was, workers, r, settings)
    ensures was.id !in reset ==> RecordFits(was, workers, AfterReset(r, reset), settings)
    ensures was.id in reset ==> RecordFits(Requeued(was), workers, AfterReset(r, reset), settings)
  {
  }

  /** An item is among the reset ones if and only if the step stops it waiting. */
  lemma ResetIffStopped(items: Items, step: Step, was: TransferItem)
    requires UniqueIds(items) && was in items && (step.Resume? || step.RetryFailed?)
    ensures was.id in ResetIds(items, step) <==>
              if step.Resume? then was.id == step.id && (was.status.Paused? || was.status.Failed?)
              else was.status.Failed?
  {
    if was.id in ResetIds(items, step) {
      var other :| other in items && other.id == was.id
        && (if step.Resume? then other.id == step.id && (other.status.Paused? || other.status.Failed?)
            else other.status.Failed?);
      SameItem(items, was, other);
    }
  }

  lemma ResetStep(s: System, step: Step, r: Record, settings: Settings, clock: int)
    requires Inv(s) && RecordsFit(s, r, settings)
    requires step.Resume? || step.RetryFailed?
    ensures RecordsFit(Next(s, step), Recorded(r, s, step, clock), settings)
  {
    hide ItemOk, RecordFits, ResetIds, AfterReset;
    var reset := ResetIds(s.q.items, step);
    var r' := AfterReset(r, reset);
    forall was | was in s.q.items
      ensures RecordFits(if was.id in reset then Requeued(was) else was, s.workers, r', settings)
      ensures was.id in reset <==>
                if step.Resume? then was.id == step.id && (was.status.Paused? || was.status.Failed?)
                else was.status.Failed?
    {
      ResetFits(was, s.workers, r, reset, settings);
      ResetIffStopped(s.q.items, step, was);
    }
    assert Recorded(r, s, step, clock) == r' by {
      ResetRecord(r, s, step, clock);
    }
    if step.Resume? {
      UpdateKeepsRecords(s, Next(s, step), step.id, ResumedIfStopped(), r, r', settings);
    } else {
      MapKeepsRecords(s, Next(s, step), RetriedIfFailed(), r', settings);
    }
  }

  lemma ResetRecord(r: Record, s: System, step: Step, clock: int)
    requires step.Resume? || step.RetryFailed?
    ensures Recorded(r, s, step, clock) == AfterReset(r, ResetIds(s.q.items, step))
  {
  }

  /** Items may go, and workers may change without failing. */
  lemma SubsetKeepsRecords(s: System, s': System, r: Record, settings: Settings)
    requires RecordsFit(s, r, settings)
    requires forall item :: item in s'.q.items ==> item in s.q.items
    requires forall item :: item in s'.q.items && item.status.Active? && item.id in s'.workers ==>
               item.id in s.workers && (s'.workers[item.id].Failing? <==> s.workers[item.id].Failing?)
    ensures RecordsFit(s', r, settings)
  {
  }

  lemma ShrinkStep(s: System, step: Step, r: Record, settings: Settings, clock: int)
    requires Inv(s) && Enabled(s, step) && RecordsFit(s, r, settings)
    requires step.Remove? || step.RemoveFailed? || step.Clear? || step.ClearHistory? || step.Move? || step.Observe?
    ensures RecordsFit(Next(s, step), Recorded(r, s, step, clock), settings)
  {
    hide RecordFits, ItemOk;
    NoResets(r);
    var items, items' := s.q.items, Next(s, step).q.items;
    forall item | item in items'
      ensures item in items
    {
      match step
      case Remove(id) => RetainMember(items, Other(id), item);
      case RemoveFailed => RetainMember(items, NotFailed(), item);
      case Move(id, newIndex) =>
        if Contains(items, id) {
          MoveMembers(items, id, Min(newIndex, |items| - 1));
        }
      case _ =>
    }
    SubsetKeepsRecords(s, Next(s, step), r, settings);
  }

  /** Items with new ids start with clean records. */
  lemma GrowStep(s: System, step: Step, r: Record, settings: Settings, clock: int)
    requires Inv(s) && Enabled(s, step) && RecordsFit(s, r, settings)
    requires step.Add? || step.Expand?
    ensures RecordsFit(Next(s, step), Recorded(r, s, step, clock), settings)
  {
    var s', r' := Next(s, step), Recorded(r, s, step, clock);
    var fresh' := if step.Add? then step.newItems else step.children;
    forall item | item in s'.q.items
      ensures RecordFits(item, s'.workers, r', settings)
    {
      GrownMember(s, step, item);
      if item in fresh' {
        NewRecordFits(item, s, step, r, settings, clock);
      } else {
        OldRecordFits(item, s, step, r, settings, clock);
      }
    }
  }

  lemma GrownMember(s: System, step: Step, item: TransferItem)
    requires Enabled(s, step) && (step.Add? || step.Expand?) && item in Next(s, step).q.items
    ensures item in s.q.items || item in (if step.Add? then step.newItems else step.children)
  {
    if step.Expand? {
      var at := if Contains(s.q.items, step.id) then Position(s.q.items, step.id) + 1 else |s.q.items|;
      assert s.q.items == s.q.items[..at] + s.q.items[at..];
    }
  }

  lemma NewRecordFits(item: TransferItem, s: System, step: Step, r: Record, settings: Settings, clock: int)
    requires Inv(s) && Enabled(s, step) && (step.Add? || step.Expand?)
    requires item in (if step.Add? then step.newItems else step.children)
    ensures RecordFits(item, Next(s, step).workers, Recorded(r, s, step, clock), settings)
  {
    hide InsertChildren, QueueState.Add;
    assert item.id in ResetIds(s.q.items, step);
  }

  lemma OldRecordFits(item: TransferItem, s: System, step: Step, r: Record, settings: Settings, clock: int)
    requires Inv(s) && Enabled(s, step) && RecordsFit(s, r, settings) && (step.Add? || step.Expand?)
    requires item in s.q.items
    ensures RecordFits(item, Next(s, step).workers, Recorded(r, s, step, clock), settings)
  {
    hide InsertChildren, QueueState.Add;
    assert item.id in s.used;
    assert item.id !in ResetIds(s.q.items, step);
  }

  lemma PauseOnce(s: System, id: Id, r: Record, settings: Settings)
    requires Inv(s) && RecordsFit(s, r, settings)
    ensures RecordsFit(s.(q := QueueState.Pause(s.q, id)), r, settings)
  {
    hide ItemOk;
    var s' := s.(q := QueueState.Pause(s.q, id));
    if id !in s.q.controls {
      UpdateKeepsRecords(s, s', id, PausedIfQueued(), r, r, settings);
    }
  }

  lemma {:induction false} PauseMany(s: System, ids: seq<Id>, r: Record, settings: Settings)
    requires Inv(s) && RecordsFit(s, r, settings)
    ensures RecordsFit(s.(q := PauseEach(s.q, ids)), r, settings)
  {
    hide Inv, QueueState.Pause, RecordsFit;
    if ids == [] {
    } else {
      var before := s.(q := PauseEach(s.q, ids[..|ids| - 1]));
      PauseMany(s, ids[..|ids| - 1], r, settings);
      PauseEachKeepsInv(s, ids[..|ids| - 1]);
      PauseOnce(before, ids[|ids| - 1], r, settings);
    }
  }

  lemma PauseStep(s: System, step: Step, r: Record, settings: Settings, clock: int)
    requires Inv(s) && RecordsFit(s, r, settings) && (step.Pause? || step.Unbind?)
    ensures RecordsFit(Next(s, step), Recorded(r, s, step, clock), settings)
  {
    hide ItemOk, RecordsFit, PauseEach, IdsOn, Map;
    NoResets(r);
    match step
    case Pause(id) => PauseOnce(s, id, r, settings);
    case Unbind(sessionId) =>
      var ids := IdsOn(s.q.items, sessionId);
      var paused := s.(q := PauseEach(s.q, ids));
      PauseEachKeepsInv(s, ids);
      PauseMany(s, ids, r, settings);
      PlainMap(paused, Next(s, step), Unbound(sessionId), r, settings);
  }

  lemma DispatchStep(s: System, step: Step, r: Record, settings: Settings, clock: int)
    requires Inv(s) && Enabled(s, step) && RecordsFit(s, r, settings) && step.Dispatch?
    ensures RecordsFit(Next(s, step), Recorded(r, s, step, clock), settings)
  {
    hide StartedIds, DispatchedItems, SnapshotFits;
    var s', r' := Next(s, step), Recorded(r, s, step, clock);
    var started := StartedIds(s.q.items, step.sessions, step.now);
    NeverStartedTwice(s, step.sessions, step.now);
    DispatchedMembers(s.q.items, step.sessions, step.now);
    StartedWereQueued(s, step.sessions, step.now);
    forall item | item in s'.q.items
      ensures RecordFits(item, s'.workers, r', settings)
    {
      var was :| was in s.q.items && was.id == item.id && item == (if was.id in started then Started(was) else was);
      assert RecordFits(was, s.workers, r, settings);
    }
  }

  lemma StartedWereQueued(s: System, sessions: seq<Session>, now: int)
    requires Inv(s)
    ensures forall was :: was in s.q.items && was.id in StartedIds(s.q.items, sessions, now) ==>
              was.status.Queued? && (was.retryAfter.Some? ==> was.retryAfter.value <= now)
  {
    hide ItemOk, Free, Ahead;
    forall was | was in s.q.items && was.id in StartedIds(s.q.items, sessions, now)
      ensures was.status.Queued? && (was.retryAfter.Some? ==> was.retryAfter.value <= now)
    {
      var i :| 0 <= i < |s.q.items| && StartsOnAny(s.q.items, sessions, now, i) && s.q.items[i].id == was.id;
      SameItem(s.q.items, was, s.q.items[i]);
    }
  }

  lemma CompleteRecords(s: System, s': System, id: Id, status: TransferStatus, error: Option<string>, now: int,
                        cap: nat, r: Record, settings: Settings)
    requires Inv(s) && RecordsFit(s, r, settings) && id in s.workers
    requires status.Failed? || status.Done? || status.Skipped?
    requires s' == s.(q := Complete(s.q, id, status, error, now, cap), workers := s.workers - {id})
    ensures RecordsFit(s', r, settings)
  {
    hide SnapshotFits;
    if Contains(s.q.items, id) {
      if status.Failed? {
        UpdateKeepsRecords(s, s', id, Finished(status, error, now), r, r, settings);
      } else {
        RemoveAtMembers(s.q.items, id);
      }
    }
  }

  lemma EndStep(s: System, step: Step, r: Record, settings: Settings, clock: int)
    requires Inv(s) && Enabled(s, step) && RecordsFit(s, r, settings)
    requires step.Begin? || step.Finish? || step.GiveUp?
    ensures RecordsFit(Next(s, step), Recorded(r, s, step, clock), settings)
  {
    hide ItemOk, RecordFits, Complete;
    NoResets(r);
    var s' := Next(s, step);
    match step
    case Begin(id, connected, now, cap) => BeginStep(s, step, r, settings);
    case Finish(id, skipped, now, cap) =>
      CompleteRecords(s, s', id, if skipped then Skipped else Done, None, now, cap, r, settings);
    case GiveUp(id, error, now, cap) => CompleteRecords(s, s', id, Failed, Some(error), now, cap, r, settings);
  }

  lemma BeginStep(s: System, step: Step, r: Record, settings: Settings)
    requires Inv(s) && Enabled(s, step) && RecordsFit(s, r, settings) && step.Begin?
    ensures RecordsFit(Next(s, step), r, settings)
  {
    hide ItemOk, Complete;
    if Contains(s.q.items, step.id) {
      var item := TransferItems.Get(s.q.items, step.id);
      if item.sessionId.None? || !step.connected {
        CompleteRecords(s, Next(s, step), step.id, Failed, Some("session is not connected"), step.now,
                        step.historyCap, r, settings);
      }
    }
  }

  lemma StopStep(s: System, step: Step, r: Record, settings: Settings, clock: int)
    requires Inv(s) && Enabled(s, step) && RecordsFit(s, r, settings) && step.Stop?
    ensures RecordsFit(Next(s, step), Recorded(r, s, step, clock), settings)
  {
    NoResets(r);
    var s' := Next(s, step);
    if s.workers[step.id].pausing {
      hide SnapshotFits;
      UpdateKeepsRecords(s, s', step.id, Halted(), r, r, settings);
    } else {
      hide RecordFits;
      forall item | item in s'.q.items
        ensures item in s.q.items
      {
        RetainMember(s.q.items, Other(step.id), item);
      }
      SubsetKeepsRecords(s, s', r, settings);
    }
  }

  lemma FailStep(s: System, step: Step, r: Record, settings: Settings, clock: int)
    requires Inv(s) && Enabled(s, step) && RecordsFit(s, r, settings) && step.Fail?
    ensures RecordsFit(Next(s, step), Recorded(r, s, step, clock), settings)
  {
    UpdateKeepsRecords(s, Next(s, step), step.id, Attempted(s.workers[step.id].snapshot.attempts + 1), r,
                       Recorded(r, s, step, clock), settings);
  }

  lemma RetryStep(s: System, step: Step, r: Record, settings: Settings, clock: int)
    requires Inv(s) && Enabled(s, step) && RecordsFit(s, r, settings) && step.Retry?
    requires Disciplined(settings, s, step, clock)
    ensures RecordsFit(Next(s, step), Recorded(r, s, step, clock), settings)
  {
    UpdateKeepsRecords(s, Next(s, step), step.id, Rescheduled(step.error, step.at), r, Recorded(r, s, step, clock),
                       settings);
  }

  lemma StepKeepsRecords(s: System, step: Step, r: Record, settings: Settings, clock: int)
    requires Inv(s) && Enabled(s, step) && RecordsFit(s, r, settings) && Disciplined(settings, s, step, clock)
    ensures RecordsFit(Next(s, step), Recorded(r, s, step, clock), settings)
  {
    hide Inv, Next, Enabled, RecordsFit, Recorded;
    match step
    case Add(_) => GrowStep(s, step, r, settings, clock);
    case Expand(_, _) => GrowStep(s, step, r, settings, clock);
    case Pause(_) => PauseStep(s, step, r, settings, clock);
    case Unbind(_) => PauseStep(s, step, r, settings, clock);
    case Resume(_) => ResetStep(s, step, r, settings, clock);
    case RetryFailed => ResetStep(s, step, r, settings, clock);
    case Remove(_) => ShrinkStep(s, step, r, settings, clock);
    case RemoveFailed => ShrinkStep(s, step, r, settings, clock);
    case Clear => ShrinkStep(s, step, r, settings, clock);
    case ClearHistory => ShrinkStep(s, step, r, settings, clock);
    case Move(_, _) => ShrinkStep(s, step, r, settings, clock);
    case Observe(_) => ShrinkStep(s, step, r, settings, clock);
    case SetPriority(_, _) => PlainStep(s, step, r, settings, clock);
    case Bind(_, _) => PlainStep(s, step, r, settings, clock);
    case Plan(_, _, _, _) => PlainStep(s, step, r, settings, clock);
    case Progress(_, _, _, _) => PlainStep(s, step, r, settings, clock);
    case Dispatch(_, _) => DispatchStep(s, step, r, settings, clock);
    case Begin(_, _, _, _) => EndStep(s, step, r, settings, clock);
    case Finish(_, _, _, _) => EndStep(s, step, r, settings, clock);
    case GiveUp(_, _, _, _) => EndStep(s, step, r, settings, clock);
    case Stop(_) => StopStep(s, step, r, settings, clock);
    case Fail(_) => FailStep(s, step, r, settings, clock);
    case Retry(_, _, _) => RetryStep(s, step, r, settings, clock);
  }

  /** A run with fixed settings, the time of every step, and the records along it. */
  ghost predicate TimedExecution(states: seq<System>, steps: seq<Step>, clocks: seq<int>, records: seq<Record>,
                                 settings: Settings) {
    && Execution(states, steps) && |records| == |states| && |clocks| == |steps|
    && states[0].q.items == []
    && forall i :: 0 <= i < |steps| ==>
         && Disciplined(settings, states[i], steps[i], clocks[i])
         && records[i + 1] == Recorded(records[i], states[i], steps[i], clocks[i])
  }

  lemma {:induction false} RunKeepsRecords(states: seq<System>, steps: seq<Step>, clocks: seq<int>,
                                           records: seq<Record>,
                                           settings: Settings, i: nat)
    requires TimedExecution(states, steps, clocks, records, settings) && i < |states|
    ensures RecordsFit(states[i], records[i], settings)
  {
    hide Inv, Next, Enabled, Recorded, RecordFits, Disciplined;
    if i > 0 {
      RunKeepsRecords(states, steps, clocks, records, settings, i - 1);
      ExecutionKeepsInv(states, steps, i - 1);
      assert Disciplined(settings, states[i - 1], steps[i - 1], clocks[i - 1]);
      StepKeepsRecords(states[i - 1], steps[i - 1], records[i - 1], settings, clocks[i - 1]);
    }
  }

  /** Retries are bounded: between two resets an item is run at most max_retries + 1 times, and
      its attempts count exactly the failed runs, although workers count from a snapshot. */
  lemma RetriesAreBounded(states: seq<System>, steps: seq<Step>, clocks: seq<int>, records: seq<Record>,
                          settings: Settings, i: nat, item: TransferItem)
    requires TimedExecution(states, steps, clocks, records, settings) && i < |states|
    requires item in states[i].q.items
    ensures item.id in records[i].runs && records[i].runs[item.id] <= settings.maxRetries + 1
    ensures item.id in records[i].failures && records[i].failures[item.id] == item.attempts
  {
    hide Inv, Next, Enabled, Recorded, Disciplined;
    RunKeepsRecords(states, steps, clocks, records, settings, i);
    assert RecordFits(item, states[i].workers, records[i], settings);
  }

  /** Retries are backed off: an item that is started after k failed runs is started no earlier
      than the delay for k after the last failure. */
  lemma RetriesAreBackedOff(states: seq<System>, steps: seq<Step>, clocks: seq<int>, records: seq<Record>,
                            settings: Settings, i: nat, item: TransferItem)
    requires TimedExecution(states, steps, clocks, records, settings) && i < |steps| && steps[i].Dispatch?
    requires item in states[i].q.items && item.id in StartedIds(states[i].q.items, steps[i].sessions, steps[i].now)
    requires item.attempts > 0
    ensures item.id in records[i].failedAt
    ensures clocks[i] >= records[i].failedAt[item.id] + Delay(settings, item.attempts)
  {
    hide Inv, Next, Enabled, Recorded, StartedIds, Delay;
    RunKeepsRecords(states, steps, clocks, records, settings, i);
    ExecutionKeepsInv(states, steps, i);
    assert Disciplined(settings, states[i], steps[i], clocks[i]);
    assert RecordFits(item, states[i].workers, records[i], settings);
    StartedWereQueued(states[i], steps[i].sessions, steps[i].now);
  }

  /** And they are used up: a worker that does not retry although its error could be retried has
      run the item max_retries + 1 times. */
  lemma RetriesAreUsedUp(states: seq<System>, steps: seq<Step>, clocks: seq<int>, records: seq<Record>,
                         settings: Settings, i: nat, id: Id)
    requires TimedExecution(states, steps, clocks, records, settings) && i < |states|
    requires id in states[i].workers && states[i].workers[id].Failing? && Contains(states[i].q.items, id)
    requires HandleFailure(settings, states[i].workers[id].snapshot.attempts + 1, true) == NoRetry
    ensures id in records[i].runs && records[i].runs[id] == settings.maxRetries + 1
  {
    hide Inv, Next, Enabled, Recorded, Disciplined;
    RunKeepsRecords(states, steps, clocks, records, settings, i);
    ExecutionKeepsInv(states, steps, i);
    ItemOfWorker(states[i], id);
    assert RecordFits(TransferItems.Get(states[i].q.items, id), states[i].workers, records[i], settings);
  }
}
