/** Batches and planned work: directories turn into items one listing at a time, and yet every
    file that was asked for is accounted for at every moment. */
module QueueBatch {
  import opened Wrappers
  import opened TransferItems
  import opened QueueState
  import opened QueueLifecycle
  import opened DirectoryExpansion

  /** What every item ever made stands for. */
  type Plan = map<Id, Work>

  /** The files an item still stands for. A directory whose children are in the list stands for
      nothing any more. */
  function Left(workers: map<Id, Worker>, plan: Plan, id: Id): seq<Leaf> {
    if (id in workers && workers[id].Expanded?) || id !in plan then [] else FilesOf(plan[id])
  }

  /** The planned files of a list of items, each directory replaced by its files. */
  function Flat(items: Items, workers: map<Id, Worker>, plan: Plan): seq<Leaf> {
    if items == [] then [] else Left(workers, plan, items[0].id) + Flat(items[1..], workers, plan)
  }

  function Children(work: Work): seq<Work>
    requires work.Directory?
  {
    ChildrenOf(work.direction, work.follow, work.source, work.target, work.listing)
  }

  /** Later plans agree with earlier ones. */
  ghost predicate Extends(plan': Plan, plan: Plan) {
    forall id :: id in plan ==> id in plan' && plan'[id] == plan[id]
  }

  /** The children of the listing, in order, have become these items. */
  ghost predicate Become(works: seq<Work>, children: Items, plan: Plan) {
    && |children| == |works|
    && forall k :: 0 <= k < |works| ==>
         && children[k].id in plan && plan[children[k].id] == works[k]
         && children[k].isDir == works[k].Directory?
  }

  ghost predicate ExpandedInto(plan: Plan, id: Id, children: Items, plan': Plan) {
    && id in plan && plan[id].Directory?
    && Become(Children(plan[id]), children, plan')
    && Extends(plan', plan)
    && plan'.Keys == plan.Keys + IdSet(children)
  }

  /** How the plan follows a step: only new items are added to it. */
  ghost predicate PlanFollows(s: System, step: Step, plan: Plan, plan': Plan) {
    match step
    case Add(newItems) =>
      && Extends(plan', plan) && plan'.Keys == plan.Keys + IdSet(newItems)
      && (forall item :: item in newItems ==> item.id in plan' && plan'[item.id].Directory? == item.isDir)
    case Expand(id, children) => ExpandedInto(plan, id, children, plan')
    case _ => plan' == plan
  }

  /** Every item in the list has a plan. */
  ghost predicate Tracked(s: System, plan: Plan) {
    plan.Keys <= s.used && forall item :: item in s.q.items ==> item.id in plan
  }

  lemma {:induction false} FlatConcat(a: Items, b: Items, workers: map<Id, Worker>, plan: Plan)
    ensures Flat(a + b, workers, plan) == Flat(a, workers, plan) + Flat(b, workers, plan)
  {
    hide Left;
    if a == [] {
      assert a + b == b;
    } else {
      FlatConcat(a[1..], b, workers, plan);
      assert (a + b)[1..] == a[1..] + b;
      assert Flat(a + b, workers, plan) == Left(workers, plan, a[0].id) + Flat(a[1..] + b, workers, plan);
    }
  }

  lemma {:induction false} FlatSame(items: Items, workers: map<Id, Worker>, plan: Plan, workers': map<Id, Worker>,
                                    plan': Plan)
    requires forall item :: item in items ==> Left(workers, plan, item.id) == Left(workers', plan', item.id)
    ensures Flat(items, workers, plan) == Flat(items, workers', plan')
  {
    hide Left;
    if items != [] {
      FlatSame(items[1..], workers, plan, workers', plan');
    }
  }

  lemma {:induction false} FlatOfChildren(children: Items, works: seq<Work>, workers: map<Id, Worker>, plan: Plan)
    requires |children| == |works|
    requires forall k :: 0 <= k < |works| ==> Left(workers, plan, children[k].id) == FilesOf(works[k])
    ensures Flat(children, workers, plan) == FilesOfAll(works)
  {
    hide Left;
    if children != [] {
      FlatOfChildren(children[1..], works[1..], workers, plan);
    }
  }

  /** The children of a directory stand for what it stood for. */
  lemma ChildrenStandForParent(s: System, id: Id, children: Items, plan: Plan, plan': Plan)
    requires Inv(s) && Enabled(s, Expand(id, children)) && ExpandedInto(plan, id, children, plan')
    ensures Flat(children, Next(s, Expand(id, children)).workers, plan') == FilesOf(plan[id])
            == Left(s.workers, plan, id)
  {
    hide ChildrenOf, FilesUnder;
    var work := plan[id];
    var workers' := Next(s, Expand(id, children)).workers;
    forall k | 0 <= k < |children|
      ensures Left(workers', plan', children[k].id) == FilesOf(Children(work)[k])
    {
      assert children[k] in children;
    }
    FlatOfChildren(children, Children(work), workers', plan');
    ChildrenKeepFiles(work.direction, work.follow, work.source, work.target, work.listing);
  }

  /** An expansion concerns only its own directory. */
  lemma OthersStay(s: System, id: Id, children: Items, plan: Plan, plan': Plan, other: Id)
    requires Enabled(s, Expand(id, children)) && ExpandedInto(plan, id, children, plan')
    requires other in plan && other != id
    ensures Left(Next(s, Expand(id, children)).workers, plan', other) == Left(s.workers, plan, other)
  {
  }

  /** An item gives up what it stood for to children right behind it. */
  lemma ReplacedKeepsFlat(before: Items, item: TransferItem, children: Items, after: Items,
                          workers: map<Id, Worker>, plan: Plan, workers': map<Id, Worker>, plan': Plan)
    requires forall other :: other in before || other in after ==>
               Left(workers', plan', other.id) == Left(workers, plan, other.id)
    requires Left(workers', plan', item.id) == []
    requires Flat(children, workers', plan') == Left(workers, plan, item.id)
    ensures Flat(before + [item] + children + after, workers', plan') == Flat(before + [item] + after, workers, plan)
  {
    hide Left, Flat;
    assert before + [item] + [] + after == before + [item] + after;
    FlatOfParts(before, item, [], after, workers, plan);
    FlatOfParts(before, item, children, after, workers', plan');
    FlatSame(before, workers', plan', workers, plan);
    FlatSame(after, workers', plan', workers, plan);
    FlatOfNone(workers, plan);
  }

  lemma FlatOfNone(workers: map<Id, Worker>, plan: Plan)
    ensures Flat([], workers, plan) == []
  {
  }

  lemma ExpandedItems(s: System, id: Id, children: Items)
    requires Enabled(s, Expand(id, children)) && Contains(s.q.items, id)
    ensures var items, at := s.q.items, Position(s.q.items, id);
            && items == items[..at] + [items[at]] + items[at + 1..]
            && Next(s, Expand(id, children)).q.items == items[..at] + [items[at]] + children + items[at + 1..]
  {
  }

  /** Inserting the children of a directory that is still in the list changes nothing about the
      planned work: no file is lost, added or moved. */
  lemma ExpandKeepsFlat(s: System, id: Id, children: Items, plan: Plan, plan': Plan)
    requires Inv(s) && Enabled(s, Expand(id, children)) && Tracked(s, plan)
    requires ExpandedInto(plan, id, children, plan') && Contains(s.q.items, id)
    ensures var s' := Next(s, Expand(id, children));
            Flat(s'.q.items, s'.workers, plan') == Flat(s.q.items, s.workers, plan)
  {
    hide Inv, ExpandedInto, Enabled, Left, Flat, Next;
    var items, at := s.q.items, Position(s.q.items, id);
    var s' := Next(s, Expand(id, children));
    var before, after := items[..at], items[at + 1..];
    ExpandedItems(s, id, children);
    ChildrenStandForParent(s, id, children, plan, plan');
    forall item | item in before || item in after
      ensures Left(s'.workers, plan', item.id) == Left(s.workers, plan, item.id)
    {
      NotInParts(s, id, item);
      OthersStay(s, id, children, plan, plan', item.id);
    }
    ExpandedHasNothingLeft(s, id, children, plan');
    ReplacedKeepsFlat(before, items[at], children, after, s.workers, plan, s'.workers, plan');
  }

  lemma NotInParts(s: System, id: Id, item: TransferItem)
    requires Inv(s) && Contains(s.q.items, id)
    requires item in s.q.items[..Position(s.q.items, id)] || item in s.q.items[Position(s.q.items, id) + 1..]
    ensures item.id != id && item in s.q.items
  {
  }

  lemma ExpandedHasNothingLeft(s: System, id: Id, children: Items, plan: Plan)
    requires Enabled(s, Expand(id, children))
    ensures Left(Next(s, Expand(id, children)).workers, plan, id) == []
  {
  }

  lemma FlatOfParts(before: Items, item: TransferItem, children: Items, after: Items, workers: map<Id, Worker>,
                    plan: Plan)
    ensures Flat(before + [item] + children + after, workers, plan)
         == Flat(before, workers, plan) + Left(workers, plan, item.id) + Flat(children, workers, plan)
             + Flat(after, workers, plan)
  {
    FlatConcat(before + [item] + children, after, workers, plan);
    FlatConcat(before + [item], children, workers, plan);
    FlatConcat(before, [item], workers, plan);
  }

  /** The end of a worker concerns only its own item. */
  lemma FinishLeavesOthers(s: System, step: Step, plan: Plan, other: Id)
    requires Enabled(s, step) && step.Finish? && other != step.id
    ensures Left(Next(s, step).workers, plan, other) == Left(s.workers, plan, other)
  {
    hide Complete;
  }

  lemma FinishedItems(s: System, step: Step)
    requires Enabled(s, step) && step.Finish? && Contains(s.q.items, step.id)
    ensures var items, at := s.q.items, Position(s.q.items, step.id);
            && items == items[..at] + [items[at]] + items[at + 1..]
            && Next(s, step).q.items == items[..at] + items[at + 1..]
  {
  }

  lemma RemovedFromFlat(before: Items, item: TransferItem, after: Items, workers: map<Id, Worker>,
                        workers': map<Id, Worker>, plan: Plan)
    requires forall other :: other in before || other in after ==>
               Left(workers', plan, other.id) == Left(workers, plan, other.id)
    requires Left(workers, plan, item.id) == []
    ensures Flat(before + after, workers', plan) == Flat(before + [item] + after, workers, plan)
  {
    hide Left, Flat;
    assert before + [item] + [] + after == before + [item] + after;
    FlatOfParts(before, item, [], after, workers, plan);
    FlatConcat(before, after, workers', plan);
    FlatSame(before, workers', plan, workers, plan);
    FlatSame(after, workers', plan, workers, plan);
    FlatOfNone(workers, plan);
  }

  /** When the expanded directory then completes, the planned work stays what it is. */
  lemma FinishDirectoryKeepsFlat(s: System, step: Step, plan: Plan)
    requires Inv(s) && Enabled(s, step) && step.Finish? && s.workers[step.id].Expanded?
    requires Contains(s.q.items, step.id)
    ensures var s' := Next(s, step);
            Flat(s'.q.items, s'.workers, plan) == Flat(s.q.items, s.workers, plan)
  {
    var id, items, s' := step.id, s.q.items, Next(s, step);
    assert Left(s.workers, plan, id) == [];
    hide Inv, Enabled, Left, Flat, Next;
    var at := Position(items, id);
    FinishedItems(s, step);
    forall item | item in items[..at] || item in items[at + 1..]
      ensures Left(s'.workers, plan, item.id) == Left(s.workers, plan, item.id)
    {
      NotInParts(s, id, item);
      FinishLeavesOthers(s, step, plan, item.id);
    }
    RemovedFromFlat(items[..at], items[at], items[at + 1..], s.workers, s'.workers, plan);
  }

  // Expansion comes to an end

  /** The listings an item will still need. */
  function OpenOf(workers: map<Id, Worker>, plan: Plan, id: Id): nat {
    if (id in workers && workers[id].Expanded?) || id !in plan then 0 else Listings(plan[id])
  }

  function Open(items: Items, workers: map<Id, Worker>, plan: Plan): nat {
    if items == [] then 0 else OpenOf(workers, plan, items[0].id) + Open(items[1..], workers, plan)
  }

  lemma {:induction false} OpenConcat(a: Items, b: Items, workers: map<Id, Worker>, plan: Plan)
    ensures Open(a + b, workers, plan) == Open(a, workers, plan) + Open(b, workers, plan)
  {
    hide OpenOf;
    if a == [] {
      assert a + b == b;
    } else {
      OpenConcat(a[1..], b, workers, plan);
      assert (a + b)[1..] == a[1..] + b;
    }
  }

  lemma {:induction false} OpenSame(items: Items, workers: map<Id, Worker>, plan: Plan, workers': map<Id, Worker>,
                                    plan': Plan)
    requires forall item :: item in items ==> OpenOf(workers, plan, item.id) == OpenOf(workers', plan', item.id)
    ensures Open(items, workers, plan) == Open(items, workers', plan')
  {
    hide OpenOf;
    if items != [] {
      OpenSame(items[1..], workers, plan, workers', plan');
    }
  }

  lemma {:induction false} OpenOfChildren(children: Items, works: seq<Work>, workers: map<Id, Worker>, plan: Plan)
    requires |children| == |works|
    requires forall k :: 0 <= k < |works| ==> OpenOf(workers, plan, children[k].id) == Listings(works[k])
    ensures Open(children, workers, plan) == ListingsOfAll(works)
  {
    hide OpenOf;
    if children != [] {
      OpenOfChildren(children[1..], works[1..], workers, plan);
    }
  }

  lemma ChildrenOpenOneLess(s: System, id: Id, children: Items, plan: Plan, plan': Plan)
    requires Inv(s) && Enabled(s, Expand(id, children)) && ExpandedInto(plan, id, children, plan')
    ensures var s' := Next(s, Expand(id, children));
            && Open(children, s'.workers, plan') + 1 == OpenOf(s.workers, plan, id)
            && OpenOf(s'.workers, plan', id) == 0
  {
    hide ChildrenOf, ListingsUnder;
    var work := plan[id];
    var workers' := Next(s, Expand(id, children)).workers;
    forall k | 0 <= k < |children|
      ensures OpenOf(workers', plan', children[k].id) == Listings(Children(work)[k])
    {
      assert children[k] in children;
    }
    OpenOfChildren(children, Children(work), workers', plan');
    ChildrenUseUpOneListing(work.direction, work.follow, work.source, work.target, work.listing);
  }

  lemma OthersStayOpen(s: System, id: Id, children: Items, plan: Plan, plan': Plan, other: Id)
    requires Enabled(s, Expand(id, children)) && ExpandedInto(plan, id, children, plan')
    requires other in plan && other != id
    ensures OpenOf(Next(s, Expand(id, children)).workers, plan', other) == OpenOf(s.workers, plan, other)
  {
  }

  lemma OpenOfParts(before: Items, item: TransferItem, children: Items, after: Items, workers: map<Id, Worker>,
                    plan: Plan)
    ensures Open(before + [item] + children + after, workers, plan)
         == Open(before, workers, plan) + OpenOf(workers, plan, item.id) + Open(children, workers, plan)
             + Open(after, workers, plan)
  {
    OpenConcat(before + [item] + children, after, workers, plan);
    OpenConcat(before + [item], children, workers, plan);
    OpenConcat(before, [item], workers, plan);
  }

  /** Every expansion of a directory in the list uses up one of the listings still needed, so
      the number of them measures how far expansion is from its end. */
  lemma ExpandUsesUpOneListing(s: System, id: Id, children: Items, plan: Plan, plan': Plan)
    requires Inv(s) && Enabled(s, Expand(id, children)) && Tracked(s, plan)
    requires ExpandedInto(plan, id, children, plan') && Contains(s.q.items, id)
    ensures var s' := Next(s, Expand(id, children));
            Open(s'.q.items, s'.workers, plan') == Open(s.q.items, s.workers, plan) - 1
  {
    hide Inv, ExpandedInto, Enabled, OpenOf, Open, Next;
    var items, at := s.q.items, Position(s.q.items, id);
    var s' := Next(s, Expand(id, children));
    var before, after := items[..at], items[at + 1..];
    ExpandedItems(s, id, children);
    ChildrenOpenOneLess(s, id, children, plan, plan');
    forall item | item in before || item in after
      ensures OpenOf(s'.workers, plan', item.id) == OpenOf(s.workers, plan, item.id)
    {
      NotInParts(s, id, item);
      OthersStayOpen(s, id, children, plan, plan', item.id);
    }
    assert before + [items[at]] + [] + after == items;
    OpenOfParts(before, items[at], [], after, s.workers, plan);
    OpenOfParts(before, items[at], children, after, s'.workers, plan');
    OpenSame(before, s'.workers, plan', s.workers, plan);
    OpenSame(after, s'.workers, plan', s.workers, plan);
    OpenOfNone(s.workers, plan);
  }

  lemma OpenOfNone(workers: map<Id, Worker>, plan: Plan)
    ensures Open([], workers, plan) == 0
  {
  }

  // Batches

  /** The files of a batch that items in the list still stand for. */
  function Remaining(items: Items, batch: string, workers: map<Id, Worker>, plan: Plan): multiset<Leaf> {
    if items == [] then multiset{}
    else ShareOf(items[0], batch, workers, plan) + Remaining(items[1..], batch, workers, plan)
  }

  function ShareOf(item: TransferItem, batch: string, workers: map<Id, Worker>, plan: Plan): multiset<Leaf> {
    if item.batch == Some(batch) then multiset(Left(workers, plan, item.id)) else multiset{}
  }

  lemma {:induction false} RemainingConcat(a: Items, b: Items, batch: string, workers: map<Id, Worker>, plan: Plan)
    ensures Remaining(a + b, batch, workers, plan)
              == Remaining(a, batch, workers, plan) + Remaining(b, batch, workers, plan)
  {
    hide ShareOf;
    if a == [] {
      assert a + b == b;
    } else {
      RemainingConcat(a[1..], b, batch, workers, plan);
      assert (a + b)[1..] == a[1..] + b;
    }
  }

  /** Changes that keep every item's id and batch, and what it stands for, keep the sum. */
  lemma {:induction false} RemainingSame(items: Items, items': Items, batch: string, workers: map<Id, Worker>,
                                         plan: Plan, workers': map<Id, Worker>, plan': Plan)
    requires |items| == |items'|
    requires forall i :: 0 <= i < |items| ==>
               ShareOf(items[i], batch, workers, plan) == ShareOf(items'[i], batch, workers', plan')
    ensures Remaining(items, batch, workers, plan) == Remaining(items', batch, workers', plan')
  {
    hide ShareOf;
    if items != [] {
      assert ShareOf(items[0], batch, workers, plan) == ShareOf(items'[0], batch, workers', plan');
      RemainingSame(items[1..], items'[1..], batch, workers, plan, workers', plan');
    }
  }

  lemma RemainingOfParts(before: Items, middle: Items, after: Items, batch: string, workers: map<Id, Worker>,
                         plan: Plan)
    ensures Remaining(before + middle + after, batch, workers, plan)
         == Remaining(before, batch, workers, plan) + Remaining(middle, batch, workers, plan)
             + Remaining(after, batch, workers, plan)
  {
    RemainingConcat(before + middle, after, batch, workers, plan);
    RemainingConcat(before, middle, batch, workers, plan);
  }

  lemma {:induction false} RemainingOfOthers(items: Items, batch: string, workers: map<Id, Worker>, plan: Plan)
    requires forall item :: item in items ==> item.batch != Some(batch)
    ensures Remaining(items, batch, workers, plan) == multiset{}
  {
    if items != [] {
      RemainingOfOthers(items[1..], batch, workers, plan);
    }
  }

  /** An item is a file of the batch only as long as nothing removes it. */
  lemma {:induction false} RemainingOfRetained(items: Items, p: TransferItem -> bool, batch: string,
                                               workers: map<Id, Worker>, plan: Plan)
    requires forall item :: item in items && !p(item) ==> ShareOf(item, batch, workers, plan) == multiset{}
    ensures Remaining(Retain(items, p), batch, workers, plan) == Remaining(items, batch, workers, plan)
  {
    hide ShareOf;
    if items != [] {
      var n := |items| - 1;
      RemainingOfRetained(items[..n], p, batch, workers, plan);
      assert items == items[..n] + [items[n]];
      RemainingConcat(items[..n], [items[n]], batch, workers, plan);
      RemainingOfOne(items[n], batch, workers, plan);
      if p(items[n]) {
        RemainingConcat(Retain(items[..n], p), [items[n]], batch, workers, plan);
      } else {
        assert items[n] in items;
        assert Retain(items, p) == Retain(items[..n], p);
      }
    }
  }

  lemma RemainingOfOne(item: TransferItem, batch: string, workers: map<Id, Worker>, plan: Plan)
    ensures Remaining([item], batch, workers, plan) == ShareOf(item, batch, workers, plan)
  {
    assert [item][1..] == [];
    assert Remaining([item][1..], batch, workers, plan) == multiset{};
  }

  predicate Spent(workers: map<Id, Worker>, id: Id) {
    id in workers && workers[id].Expanded?
  }

  /** The list is the same up to fields that do not matter here. */
  ghost predicate SameList(items: Items, items': Items) {
    && |items| == |items'|
    && forall i :: 0 <= i < |items| ==> items'[i].id == items[i].id && items'[i].batch == items[i].batch
  }

  lemma SameListKeepsRemaining(items: Items, items': Items, batch: string, workers: map<Id, Worker>,
                               workers': map<Id, Worker>, plan: Plan)
    requires SameList(items, items')
    requires forall item :: item in items ==> (Spent(workers', item.id) <==> Spent(workers, item.id))
    ensures Remaining(items', batch, workers', plan) == Remaining(items, batch, workers, plan)
  {
    forall i | 0 <= i < |items|
      ensures ShareOf(items[i], batch, workers, plan) == ShareOf(items'[i], batch, workers', plan)
    {
      assert items[i] in items;
    }
    RemainingSame(items, items', batch, workers, plan, workers', plan);
  }

  ghost predicate Plain(f: TransferItem -> TransferItem) {
    forall item :: f(item).id == item.id && f(item).batch == item.batch
  }

  lemma UpdateIsSame(items: Items, id: Id, f: TransferItem -> TransferItem)
    requires Plain(f)
    ensures SameList(items, Update(items, id, f))
  {
  }

  lemma MapIsSame(items: Items, f: TransferItem -> TransferItem)
    requires Plain(f)
    ensures SameList(items, Map(items, f))
  {
  }

  lemma SameListTransitive(a: Items, b: Items, c: Items)
    requires SameList(a, b) && SameList(b, c)
    ensures SameList(a, c)
  {
  }

  lemma {:induction false} PauseEachIsSame(q: Queue, ids: seq<Id>)
    ensures SameList(q.items, PauseEach(q, ids).items)
  {
    hide Update, SameList;
    if ids != [] {
      var before := PauseEach(q, ids[..|ids| - 1]);
      PauseEachIsSame(q, ids[..|ids| - 1]);
      assert Plain(PausedIfQueued());
      UpdateIsSame(before.items, ids[|ids| - 1], PausedIfQueued());
      SameListTransitive(q.items, before.items, Update(before.items, ids[|ids| - 1], PausedIfQueued()));
      SelfSame(before.items);
      SameListTransitive(q.items, before.items, before.items);
    } else {
      SelfSame(q.items);
    }
  }

  lemma SelfSame(items: Items)
    ensures SameList(items, items)
  {
  }

  // The steps that leave the list as it is, up to such fields

  predicate Quiet(s: System, step: Step) {
    match step
    case Add(_) => false
    case Remove(_) => false
    case RemoveFailed => false
    case Clear => false
    case Move(_, _) => false
    case Expand(_, _) => false
    case Finish(_, _, _, _) => false
    case Stop(id) => id in s.workers && s.workers[id].Stopping? && s.workers[id].pausing
    case _ => true
  }

  lemma QuietUserStep(s: System, step: Step)
    requires Inv(s) && Enabled(s, step)
    requires step.Pause? || step.Resume? || step.RetryFailed? || step.ClearHistory? || step.SetPriority? || step.Bind?
             || step.Restart?
    ensures SameList(s.q.items, Next(s, step).q.items)
  {
    hide Update, Map, SameList, Inv;
    SelfSame(s.q.items);
    match step
    case Pause(id) => UpdateIsSame(s.q.items, id, PausedIfQueued());
    case Resume(id) => UpdateIsSame(s.q.items, id, ResumedIfStopped());
    case RetryFailed => MapIsSame(s.q.items, RetriedIfFailed());
    case SetPriority(id, priority) => UpdateIsSame(s.q.items, id, Prioritised(priority));
    case Bind(siteId, sessionId) => MapIsSame(s.q.items, Bound(siteId, sessionId));
    case Restart =>
      RestartKeepsInv(s);
      MapIsSame(s.q.items, Restored());
    case _ =>
  }

  lemma QuietUnbind(s: System, sessionId: string)
    ensures SameList(s.q.items, Next(s, Unbind(sessionId)).q.items)
  {
    hide PauseEach, IdsOn, Map, SameList;
    var paused := PauseEach(s.q, IdsOn(s.q.items, sessionId));
    PauseEachIsSame(s.q, IdsOn(s.q.items, sessionId));
    MapIsSame(paused.items, Unbound(sessionId));
    SameListTransitive(s.q.items, paused.items, Map(paused.items, Unbound(sessionId)));
  }

  lemma QuietWorkerStep(s: System, step: Step)
    requires Inv(s) && Enabled(s, step) && Quiet(s, step) && WorkerStep(step)
    ensures SameList(s.q.items, Next(s, step).q.items)
  {
    hide Update, SameList, Inv;
    SelfSame(s.q.items);
    match step
    case Begin(id, _, now, cap) => UpdateIsSame(s.q.items, id, Finished(Failed, Some("session is not connected"), now));
      FailureIsUpdate(s.q, id, Some("session is not connected"), now, cap);
    case Plan(id, planned, local, remote) => UpdateIsSame(s.q.items, id, Planned(planned, local, remote));
    case Progress(id, n, speed, size) => UpdateIsSame(s.q.items, id, Progressed(n, speed, size));
    case Stop(id) => UpdateIsSame(s.q.items, id, Halted());
    case Fail(id) => UpdateIsSame(s.q.items, id, Attempted(s.workers[id].snapshot.attempts + 1));
    case Retry(id, error, at) => UpdateIsSame(s.q.items, id, Rescheduled(error, at));
    case GiveUp(id, error, now, cap) => UpdateIsSame(s.q.items, id, Finished(Failed, Some(error), now));
      FailureIsUpdate(s.q, id, Some(error), now, cap);
    case _ =>
  }

  lemma FailureIsUpdate(q: Queue, id: Id, error: Option<string>, now: int, cap: nat)
    ensures Complete(q, id, Failed, error, now, cap).items == Update(q.items, id, Finished(Failed, error, now))
  {
  }

  lemma QuietDispatch(s: System, sessions: seq<Session>, now: int)
    requires Enabled(s, Dispatch(sessions, now))
    ensures SameList(s.q.items, Next(s, Dispatch(sessions, now)).q.items)
  {
    hide StartsOnAny, StartedIds;
  }

  lemma QuietStep(s: System, step: Step)
    requires Inv(s) && Enabled(s, step) && Quiet(s, step)
    ensures SameList(s.q.items, Next(s, step).q.items)
  {
    hide Next, Enabled, Inv, SameList;
    match step
    case Unbind(sessionId) => QuietUnbind(s, sessionId);
    case Dispatch(sessions, now) => QuietDispatch(s, sessions, now);
    case _ =>
      if WorkerStep(step) {
        QuietWorkerStep(s, step);
      } else {
        QuietUserStep(s, step);
      }
  }

  /** Such steps neither begin nor end the expansion of an item in the list. */
  lemma QuietKeepsSpent(s: System, step: Step, id: Id)
    requires Inv(s) && Enabled(s, step) && Quiet(s, step)
    requires step.Restart? ==> !Spent(s.workers, id)
    ensures Spent(Next(s, step).workers, id) <==> Spent(s.workers, id)
  {
    if step.Dispatch? {
      NeverStartedTwice(s, step.sessions, step.now);
    }
    hide Inv, StartedIds, Complete;
  }

  // Conservation

  /** The files of the batch that a step completes, as done or as skipped. */
  function CompletedBy(s: System, step: Step, batch: string, plan: Plan): multiset<Leaf> {
    if step.Finish? && Contains(s.q.items, step.id)
    then ShareOf(TransferItems.Get(s.q.items, step.id), batch, s.workers, plan)
    else multiset{}
  }

  /** The step adds no item to the batch and removes none from it. */
  ghost predicate KeepsBatch(s: System, step: Step, batch: string) {
    match step
    case Add(newItems) => forall item :: item in newItems ==> item.batch != Some(batch)
    case Remove(id) => forall item :: item in s.q.items && item.id == id ==> item.batch != Some(batch)
    case RemoveFailed => forall item :: item in s.q.items && item.status.Failed? ==> item.batch != Some(batch)
    case Clear => forall item :: item in s.q.items ==> item.batch != Some(batch)
    case _ => true
  }

  /** Moreover, a restart does not fall between the insertion of children and the completion of
      their parent, which would be expanded a second time. */
  ghost predicate SparesBatch(s: System, step: Step, batch: string) {
    KeepsBatch(s, step, batch) && (step.Restart? ==> forall id :: !Spent(s.workers, id))
  }

  /** No worker of the batch has lost its item. */
  ghost predicate NoStrays(s: System, batch: string) {
    forall id :: id in s.workers && !s.workers[id].Spawned? && s.workers[id].snapshot.batch == Some(batch) ==>
      Contains(s.q.items, id)
  }

  lemma RemovalsConserve(s: System, step: Step, batch: string, plan: Plan)
    requires Inv(s) && Enabled(s, step) && KeepsBatch(s, step, batch)
    requires step.Remove? || step.RemoveFailed? || step.Clear? || (step.Stop? && !Quiet(s, step))
    ensures var s' := Next(s, step);
            Remaining(s'.q.items, batch, s'.workers, plan) == Remaining(s.q.items, batch, s.workers, plan)
  {
    hide Left, Retain;
    match step
    case Remove(id) => RemainingOfRetained(s.q.items, QueueState.Other(id), batch, s.workers, plan);
    case RemoveFailed => RemainingOfRetained(s.q.items, NotFailed(), batch, s.workers, plan);
    case Clear => RemainingOfOthers(s.q.items, batch, s.workers, plan);
    case Stop(id) => CancelConserves(s, id, batch, plan);
  }

  /** A worker that was told to stop for good has no item in the list any more. */
  lemma CancelConserves(s: System, id: Id, batch: string, plan: Plan)
    requires Inv(s) && Enabled(s, Stop(id)) && !s.workers[id].pausing
    ensures !Contains(s.q.items, id)
    ensures var s' := Next(s, Stop(id));
            && s'.q.items == s.q.items
            && Remaining(s'.q.items, batch, s'.workers, plan) == Remaining(s.q.items, batch, s.workers, plan)
  {
    CancelledIsGone(s, id);
    CancelChangesNoItem(s, id);
    hide Inv, Next, Enabled, Remaining;
    var s' := Next(s, Stop(id));
    SelfSame(s.q.items);
    SameListKeepsRemaining(s.q.items, s'.q.items, batch, s.workers, s'.workers, plan);
  }

  lemma CancelledIsGone(s: System, id: Id)
    requires Inv(s) && Enabled(s, Stop(id)) && !s.workers[id].pausing
    ensures !Contains(s.q.items, id)
  {
    if Contains(s.q.items, id) {
      ItemOfWorker(s, id);
      assert false;
    }
  }

  lemma CancelChangesNoItem(s: System, id: Id)
    requires Enabled(s, Stop(id)) && !s.workers[id].pausing && !Contains(s.q.items, id)
    ensures Next(s, Stop(id)).q.items == s.q.items
    ensures forall other :: Spent(Next(s, Stop(id)).workers, other) <==> Spent(s.workers, other)
  {
    AbsentId(s.q.items, id);
    RetainAll(s.q.items, QueueState.Other(id));
  }

  lemma MovedItems(q: Queue, id: Id, newIndex: nat)
    requires Contains(q.items, id)
    ensures var items, at := q.items, Position(q.items, id);
            var rest := items[..at] + items[at + 1..];
            var to := Min(newIndex, |rest|);
            MoveItem(q, id, newIndex).items == rest[..to] + [items[at]] + rest[to..]
  {
  }

  lemma MoveKeepsRemaining(items: Items, at: nat, to: nat, batch: string, workers: map<Id, Worker>, plan: Plan)
    requires at < |items| && to <= |items| - 1
    ensures var rest := items[..at] + items[at + 1..];
            Remaining(rest[..to] + [items[at]] + rest[to..], batch, workers, plan)
                == Remaining(items, batch, workers, plan)
  {
    hide Remaining;
    var rest := items[..at] + items[at + 1..];
    assert items == items[..at] + [items[at]] + items[at + 1..];
    assert rest == rest[..to] + rest[to..];
    RemainingOfParts(items[..at], [items[at]], items[at + 1..], batch, workers, plan);
    RemainingConcat(items[..at], items[at + 1..], batch, workers, plan);
    RemainingConcat(rest[..to], rest[to..], batch, workers, plan);
    RemainingOfParts(rest[..to], [items[at]], rest[to..], batch, workers, plan);
    MoveSums(Remaining(items[..at], batch, workers, plan), Remaining(items[at + 1..], batch, workers, plan),
             Remaining([items[at]], batch, workers, plan), Remaining(rest[..to], batch, workers, plan),
             Remaining(rest[to..], batch, workers, plan));
  }

  lemma MoveConserves(s: System, id: Id, newIndex: nat, batch: string, plan: Plan)
    ensures Remaining(Next(s, Move(id, newIndex)).q.items, batch, s.workers, plan)
         == Remaining(s.q.items, batch, s.workers, plan)
  {
    hide Remaining, MoveItem;
    if Contains(s.q.items, id) {
      var at := Position(s.q.items, id);
      MovedItems(s.q, id, newIndex);
      MoveKeepsRemaining(s.q.items, at, Min(newIndex, |s.q.items| - 1), batch, s.workers, plan);
    } else {
      assert MoveItem(s.q, id, newIndex) == s.q by {
        MoveOfAbsent(s.q, id, newIndex);
      }
    }
  }

  lemma MoveOfAbsent(q: Queue, id: Id, newIndex: nat)
    requires !Contains(q.items, id)
    ensures MoveItem(q, id, newIndex) == q
  {
  }

  lemma MoveSums(a: multiset<Leaf>, b: multiset<Leaf>, x: multiset<Leaf>, c: multiset<Leaf>, d: multiset<Leaf>)
    requires a + b == c + d
    ensures a + x + b == c + x + d
  {
    assert a + x + b == (a + b) + x;
    assert c + x + d == (c + d) + x;
  }

  lemma AddConserves(s: System, newItems: Items, batch: string, plan: Plan, plan': Plan)
    requires Inv(s) && Enabled(s, Add(newItems)) && SparesBatch(s, Add(newItems), batch)
    requires Tracked(s, plan) && PlanFollows(s, Add(newItems), plan, plan')
    ensures Remaining(s.q.items + newItems, batch, s.workers, plan') == Remaining(s.q.items, batch, s.workers, plan)
  {
    RemainingConcat(s.q.items, newItems, batch, s.workers, plan');
    RemainingOfOthers(newItems, batch, s.workers, plan');
    forall i | 0 <= i < |s.q.items|
      ensures ShareOf(s.q.items[i], batch, s.workers, plan) == ShareOf(s.q.items[i], batch, s.workers, plan')
    {
      assert s.q.items[i] in s.q.items;
    }
    RemainingSame(s.q.items, s.q.items, batch, s.workers, plan, s.workers, plan');
  }

  /** Items before and after the one that a step is about keep their shares. */
  lemma PartKeepsRemaining(part: Items, batch: string, workers: map<Id, Worker>, plan: Plan,
                           workers': map<Id, Worker>, plan': Plan)
    requires forall item :: item in part ==> Left(workers', plan', item.id) == Left(workers, plan, item.id)
    ensures Remaining(part, batch, workers', plan') == Remaining(part, batch, workers, plan)
  {
    hide Left;
    forall i | 0 <= i < |part|
      ensures ShareOf(part[i], batch, workers', plan') == ShareOf(part[i], batch, workers, plan)
    {
      assert part[i] in part;
    }
    RemainingSame(part, part, batch, workers', plan', workers, plan);
  }

  lemma FinishConserves(s: System, step: Step, batch: string, plan: Plan)
    requires Inv(s) && Enabled(s, step) && step.Finish?
    ensures var s' := Next(s, step);
            Remaining(s'.q.items, batch, s'.workers, plan) + CompletedBy(s, step, batch, plan)
            == Remaining(s.q.items, batch, s.workers, plan)
  {
    hide Inv, Enabled, Left, Remaining, Next;
    var id, items, s' := step.id, s.q.items, Next(s, step);
    if Contains(items, id) {
      var at := Position(items, id);
      var before, after := items[..at], items[at + 1..];
      FinishedItems(s, step);
      forall item | item in before || item in after
        ensures Left(s'.workers, plan, item.id) == Left(s.workers, plan, item.id)
      {
        NotInParts(s, id, item);
        FinishLeavesOthers(s, step, plan, item.id);
      }
      PartKeepsRemaining(before, batch, s.workers, plan, s'.workers, plan);
      PartKeepsRemaining(after, batch, s.workers, plan, s'.workers, plan);
      RemainingOfParts(before, [items[at]], after, batch, s.workers, plan);
      RemainingConcat(before, after, batch, s'.workers, plan);
      RemainingOfOne(items[at], batch, s.workers, plan);
    } else {
      FinishAbsent(s, step);
      forall item | item in items
        ensures Left(s'.workers, plan, item.id) == Left(s.workers, plan, item.id)
      {
        AbsentId(items, id);
        FinishLeavesOthers(s, step, plan, item.id);
      }
      PartKeepsRemaining(items, batch, s.workers, plan, s'.workers, plan);
    }
  }

  lemma FinishAbsent(s: System, step: Step)
    requires Enabled(s, step) && step.Finish? && !Contains(s.q.items, step.id)
    ensures Next(s, step).q.items == s.q.items
  {
  }

  lemma {:induction false} RemainingOfBatch(items: Items, batch: string, workers: map<Id, Worker>, plan: Plan)
    requires forall item :: item in items ==> item.batch == Some(batch)
    ensures Remaining(items, batch, workers, plan) == multiset(Flat(items, workers, plan))
  {
    hide Left;
    if items != [] {
      RemainingOfBatch(items[1..], batch, workers, plan);
    }
  }

  lemma ChildrenShare(s: System, id: Id, children: Items, batch: string, plan: Plan, plan': Plan)
    requires Inv(s) && Enabled(s, Expand(id, children)) && ExpandedInto(plan, id, children, plan')
    requires Contains(s.q.items, id)
    ensures var s' := Next(s, Expand(id, children));
            && Remaining(children, batch, s'.workers, plan')
               == ShareOf(TransferItems.Get(s.q.items, id), batch, s.workers, plan)
            && ShareOf(TransferItems.Get(s.q.items, id), batch, s'.workers, plan') == multiset{}
  {
    var s' := Next(s, Expand(id, children));
    ItemOfWorker(s, id);
    ExpandedHasNothingLeft(s, id, children, plan');
    ChildrenStandForParent(s, id, children, plan, plan');
    hide Left, Flat, Next, ExpandedInto, Inv, Remaining;
    if TransferItems.Get(s.q.items, id).batch == Some(batch) {
      RemainingOfBatch(children, batch, s'.workers, plan');
    } else {
      RemainingOfOthers(children, batch, s'.workers, plan');
    }
  }

  lemma ExpandConserves(s: System, id: Id, children: Items, batch: string, plan: Plan, plan': Plan)
    requires Inv(s) && Enabled(s, Expand(id, children)) && Tracked(s, plan)
    requires ExpandedInto(plan, id, children, plan') && Contains(s.q.items, id)
    ensures var s' := Next(s, Expand(id, children));
            Remaining(s'.q.items, batch, s'.workers, plan') == Remaining(s.q.items, batch, s.workers, plan)
  {
    hide Inv, ExpandedInto, Enabled, Left, ShareOf, Next, Remaining;
    var items, at := s.q.items, Position(s.q.items, id);
    var s' := Next(s, Expand(id, children));
    var before, after := items[..at], items[at + 1..];
    ExpandedItems(s, id, children);
    ChildrenShare(s, id, children, batch, plan, plan');
    forall item | item in before || item in after
      ensures Left(s'.workers, plan', item.id) == Left(s.workers, plan, item.id)
    {
      NotInParts(s, id, item);
      OthersStay(s, id, children, plan, plan', item.id);
    }
    PartKeepsRemaining(before, batch, s.workers, plan, s'.workers, plan');
    PartKeepsRemaining(after, batch, s.workers, plan, s'.workers, plan');
    RemainingOfParts(before, [items[at]], after, batch, s.workers, plan);
    RemainingOfParts(before + [items[at]], children, after, batch, s'.workers, plan');
    RemainingConcat(before, [items[at]], batch, s'.workers, plan');
    RemainingOfOne(items[at], batch, s.workers, plan);
    RemainingOfOne(items[at], batch, s'.workers, plan');
  }

  /** A late expansion of a directory that is gone does not concern the batch. */
  lemma StrayExpandConserves(s: System, id: Id, children: Items, batch: string, plan: Plan, plan': Plan)
    requires Inv(s) && Enabled(s, Expand(id, children)) && Tracked(s, plan)
    requires ExpandedInto(plan, id, children, plan') && !Contains(s.q.items, id) && NoStrays(s, batch)
    ensures var s' := Next(s, Expand(id, children));
            Remaining(s'.q.items, batch, s'.workers, plan') == Remaining(s.q.items, batch, s.workers, plan)
  {
    var s' := Next(s, Expand(id, children));
    assert s'.q.items == s.q.items + children;
    AbsentId(s.q.items, id);
    forall item | item in s.q.items
      ensures Left(s'.workers, plan', item.id) == Left(s.workers, plan, item.id)
    {
      OthersStay(s, id, children, plan, plan', item.id);
    }
    hide Left, Remaining, ExpandedInto;
    PartKeepsRemaining(s.q.items, batch, s.workers, plan, s'.workers, plan');
    RemainingConcat(s.q.items, children, batch, s'.workers, plan');
    RemainingOfOthers(children, batch, s'.workers, plan');
  }

  /** Conservation: no step that spares the batch changes the sum of what the batch still stands
      for and what of it has been completed. */
  lemma StepConserves(s: System, step: Step, batch: string, plan: Plan, plan': Plan)
    requires Inv(s) && Enabled(s, step) && Tracked(s, plan) && PlanFollows(s, step, plan, plan')
    requires SparesBatch(s, step, batch) && NoStrays(s, batch)
    ensures var s' := Next(s, step);
            Remaining(s'.q.items, batch, s'.workers, plan') + CompletedBy(s, step, batch, plan)
            == Remaining(s.q.items, batch, s.workers, plan)
  {
    hide Next, Enabled, Inv, Remaining, Tracked, ExpandedInto, NoStrays, Left;
    match step
    case Add(newItems) => AddConserves(s, newItems, batch, plan, plan'); AddedItems(s, newItems);
    case Expand(id, children) =>
      if Contains(s.q.items, id) {
        ExpandConserves(s, id, children, batch, plan, plan');
      } else {
        StrayExpandConserves(s, id, children, batch, plan, plan');
      }
    case Finish(_, _, _, _) => FinishConserves(s, step, batch, plan);
    case Move(id, newIndex) => MoveConserves(s, id, newIndex, batch, plan); MovedWorkers(s, id, newIndex);
    case _ =>
      if Quiet(s, step) {
        QuietConserves(s, step, batch, plan);
      } else {
        RemovalsConserve(s, step, batch, plan);
      }
  }

  lemma AddedItems(s: System, newItems: Items)
    requires Enabled(s, Add(newItems))
    ensures Next(s, Add(newItems)).q.items == s.q.items + newItems && Next(s, Add(newItems)).workers == s.workers
  {
  }

  lemma MovedWorkers(s: System, id: Id, newIndex: nat)
    ensures Next(s, Move(id, newIndex)).workers == s.workers
  {
  }

  lemma QuietConserves(s: System, step: Step, batch: string, plan: Plan)
    requires Inv(s) && Enabled(s, step) && Quiet(s, step) && SparesBatch(s, step, batch)
    ensures var s' := Next(s, step);
            Remaining(s'.q.items, batch, s'.workers, plan) == Remaining(s.q.items, batch, s.workers, plan)
  {
    hide Next, Enabled, Inv, Remaining, Spent;
    var s' := Next(s, step);
    QuietStep(s, step);
    forall item | item in s.q.items
      ensures Spent(s'.workers, item.id) <==> Spent(s.workers, item.id)
    {
      QuietKeepsSpent(s, step, item.id);
    }
    SameListKeepsRemaining(s.q.items, s'.q.items, batch, s.workers, s'.workers, plan);
  }

  // Runs

  /** A run together with the plan at every point of it. */
  ghost predicate TrackedExecution(states: seq<System>, steps: seq<Step>, plans: seq<Plan>) {
    && Execution(states, steps) && |plans| == |states|
    && Tracked(states[0], plans[0])
    && forall i :: 0 <= i < |steps| ==> PlanFollows(states[i], steps[i], plans[i], plans[i + 1])
  }

  /** The files of the batch that are completed between two points of a run. */
  ghost function Completed(states: seq<System>, steps: seq<Step>, plans: seq<Plan>, batch: string, i: nat,
                           j: nat): multiset<Leaf>
    requires i <= j <= |steps| && |states| == |steps| + 1 == |plans|
    decreases j - i
  {
    if i == j then multiset{}
    else
      Completed(states, steps, plans, batch, i, j - 1)
      + CompletedBy(states[j - 1], steps[j - 1], batch, plans[j - 1])
  }

  /** Whether an id is in the list only depends on the ids in it. */
  lemma SameListContains(items: Items, items': Items, id: Id)
    requires SameList(items, items')
    ensures Contains(items, id) <==> Contains(items', id)
  {
    AbsentId(items, id);
    AbsentId(items', id);
    if item :| item in items && item.id == id {
      var i :| 0 <= i < |items| && items[i] == item;
      assert items'[i] in items';
    }
    if item :| item in items' && item.id == id {
      var i :| 0 <= i < |items'| && items'[i] == item;
      assert items[i] in items;
    }
  }

  lemma QuietKeepsUsed(s: System, step: Step)
    requires Enabled(s, step) && Quiet(s, step)
    ensures Next(s, step).used == s.used
  {
  }

  lemma QuietTracked(s: System, step: Step, plan: Plan)
    requires Inv(s) && Enabled(s, step) && Tracked(s, plan) && Quiet(s, step)
    ensures Tracked(Next(s, step), plan)
  {
    hide Inv, Enabled, Next, Quiet;
    var items, items' := s.q.items, Next(s, step).q.items;
    QuietStep(s, step);
    QuietKeepsUsed(s, step);
    forall item | item in items'
      ensures item.id in plan
    {
      var i :| 0 <= i < |items'| && items'[i] == item;
      assert items[i] in items;
    }
  }

  lemma OtherTracked(s: System, step: Step, plan: Plan, plan': Plan)
    requires Inv(s) && Enabled(s, step) && Tracked(s, plan) && PlanFollows(s, step, plan, plan')
    requires !Quiet(s, step)
    ensures Tracked(Next(s, step), plan')
  {
    var items, items' := s.q.items, Next(s, step).q.items;
    forall item | item in items'
      ensures item.id in plan'
    {
      match step
      case Remove(id) => RetainMember(items, QueueState.Other(id), item);
      case Stop(id) => RetainMember(items, QueueState.Other(id), item);
      case RemoveFailed => RetainMember(items, NotFailed(), item);
      case Move(id, newIndex) =>
        if Contains(items, id) {
          MoveMembers(items, id, Min(newIndex, |items| - 1));
        }
      case Finish(id, _, _, _) =>
        if Contains(items, id) {
          RemoveAtMembers(items, id);
        }
      case Expand(id, children) => ExpandedMember(s, id, children, item);
      case _ =>
    }
  }

  lemma ExpandedMember(s: System, id: Id, children: Items, item: TransferItem)
    requires Enabled(s, Expand(id, children)) && item in Next(s, Expand(id, children)).q.items
    ensures item in s.q.items || item in children
  {
    var at := if Contains(s.q.items, id) then Position(s.q.items, id) + 1 else |s.q.items|;
    assert s.q.items == s.q.items[..at] + s.q.items[at..];
  }

  lemma {:induction false} RunIsTracked(states: seq<System>, steps: seq<Step>, plans: seq<Plan>, i: nat)
    requires TrackedExecution(states, steps, plans) && i < |states|
    ensures Tracked(states[i], plans[i])
  {
    hide Next, Inv, Enabled, Tracked, PlanFollows;
    if i > 0 {
      RunIsTracked(states, steps, plans, i - 1);
      ExecutionKeepsInv(states, steps, i - 1);
      var s, step := states[i - 1], steps[i - 1];
      assert Enabled(s, step) && states[i] == Next(s, step) && PlanFollows(s, step, plans[i - 1], plans[i]);
      if Quiet(s, step) {
        QuietPlan(s, step, plans[i - 1], plans[i]);
        QuietTracked(s, step, plans[i - 1]);
      } else {
        OtherTracked(s, step, plans[i - 1], plans[i]);
      }
    }
  }

  lemma QuietPlan(s: System, step: Step, plan: Plan, plan': Plan)
    requires Quiet(s, step) && PlanFollows(s, step, plan, plan')
    ensures plan' == plan
  {
  }

  // Workers of the batch keep their items

  /** A worker that has just looked at its item has it in the list. */
  lemma BeginTakesItem(s: System, step: Step)
    requires Enabled(s, step) && step.Begin? && step.id in Next(s, step).workers
    ensures Contains(s.q.items, step.id)
    ensures Next(s, step).workers[step.id] == Running(TransferItems.Get(s.q.items, step.id))
  {
    hide Complete;
  }

  /** Any other worker past its first look was that before the step, with the same snapshot. */
  lemma WorkerWasThere(s: System, step: Step, id: Id)
    requires Enabled(s, step) && !(step.Begin? && step.id == id)
    requires id in Next(s, step).workers && !Next(s, step).workers[id].Spawned?
    ensures id in s.workers && !s.workers[id].Spawned?
    ensures s.workers[id].snapshot == Next(s, step).workers[id].snapshot
    ensures step.Finish? ==> step.id != id
  {
    hide Complete, StartedIds, QueueState.Dispatch, InsertChildren, UnbindSession, MoveItem;
  }

  /** A worker of the batch after a step is one before it, or has just looked at its item. */
  lemma WorkersComeFrom(s: System, step: Step, id: Id, batch: string)
    requires Inv(s) && Enabled(s, step) && NoStrays(s, batch)
    requires var s' := Next(s, step);
             id in s'.workers && !s'.workers[id].Spawned? && s'.workers[id].snapshot.batch == Some(batch)
    ensures Contains(s.q.items, id) && TransferItems.Get(s.q.items, id).batch == Some(batch)
    ensures step.Finish? ==> step.id != id
  {
    hide Inv, Enabled, Next;
    if step.Begin? && step.id == id {
      BeginTakesItem(s, step);
    } else {
      WorkerWasThere(s, step, id);
      ItemOfWorker(s, id);
    }
  }

  lemma RemovalKeepsBatchItem(s: System, step: Step, id: Id, batch: string)
    requires Inv(s) && Enabled(s, step) && KeepsBatch(s, step, batch) && !Quiet(s, step)
    requires Contains(s.q.items, id) && TransferItems.Get(s.q.items, id).batch == Some(batch)
    requires step.Finish? ==> step.id != id
    ensures Contains(Next(s, step).q.items, id)
  {
    var items, items' := s.q.items, Next(s, step).q.items;
    var item := TransferItems.Get(items, id);
    assert item in items;
    AbsentId(items', id);
    match step
    case Add(newItems) => assert item in items + newItems;
    case Expand(parent, children) => ExpandedKeepsMember(s, parent, children, item);
    case Remove(gone) => RetainMember(items, QueueState.Other(gone), item);
    case RemoveFailed => RetainMember(items, NotFailed(), item);
    case Move(moved, newIndex) => MovedKeepsMember(s.q, moved, newIndex, item);
    case Finish(done, _, _, _) => FinishedKeepsMember(s, step, item);
    case Stop(stopped) => CancelledIsGone(s, stopped); CancelChangesNoItem(s, stopped);
    case _ =>
  }

  lemma ExpandedKeepsMember(s: System, id: Id, children: Items, item: TransferItem)
    requires Enabled(s, Expand(id, children)) && item in s.q.items
    ensures item in Next(s, Expand(id, children)).q.items
  {
    var at := if Contains(s.q.items, id) then Position(s.q.items, id) + 1 else |s.q.items|;
    assert s.q.items == s.q.items[..at] + s.q.items[at..];
  }

  lemma MovedKeepsMember(q: Queue, id: Id, newIndex: nat, item: TransferItem)
    requires item in q.items
    ensures item in MoveItem(q, id, newIndex).items
  {
    if Contains(q.items, id) {
      MovedItems(q, id, newIndex);
      var at := Position(q.items, id);
      var rest := q.items[..at] + q.items[at + 1..];
      var to := Min(newIndex, |rest|);
      assert q.items == q.items[..at] + [q.items[at]] + q.items[at + 1..];
      assert rest == rest[..to] + rest[to..];
      assert item == q.items[at] || item in rest;
      assert MoveItem(q, id, newIndex).items == rest[..to] + [q.items[at]] + rest[to..];
    } else {
      MoveOfAbsent(q, id, newIndex);
    }
  }

  lemma FinishedKeepsMember(s: System, step: Step, item: TransferItem)
    requires Enabled(s, step) && step.Finish? && item in s.q.items && item.id != step.id
    ensures item in Next(s, step).q.items
  {
    if Contains(s.q.items, step.id) {
      FinishedItems(s, step);
    } else {
      FinishAbsent(s, step);
    }
  }

  lemma StepKeepsNoStrays(s: System, step: Step, batch: string)
    requires Inv(s) && Enabled(s, step) && KeepsBatch(s, step, batch) && NoStrays(s, batch)
    ensures NoStrays(Next(s, step), batch)
  {
    hide Inv, Enabled, Next, KeepsBatch, Quiet;
    var s' := Next(s, step);
    forall id | id in s'.workers && !s'.workers[id].Spawned? && s'.workers[id].snapshot.batch == Some(batch)
      ensures Contains(s'.q.items, id)
    {
      WorkersComeFrom(s, step, id, batch);
      if Quiet(s, step) {
        QuietStep(s, step);
        SameListContains(s.q.items, s'.q.items, id);
      } else {
        RemovalKeepsBatchItem(s, step, id, batch);
      }
    }
  }

  lemma {:induction false} RunKeepsNoStrays(states: seq<System>, steps: seq<Step>, batch: string, i: nat, j: nat)
    requires Execution(states, steps) && i <= j < |states|
    requires NoStrays(states[i], batch)
    requires forall k :: i <= k < j ==> KeepsBatch(states[k], steps[k], batch)
    ensures NoStrays(states[j], batch)
  {
    hide Next, Inv, Enabled, NoStrays, KeepsBatch;
    if i < j {
      RunKeepsNoStrays(states, steps, batch, i, j - 1);
      ExecutionKeepsInv(states, steps, j - 1);
      assert Enabled(states[j - 1], steps[j - 1]) && states[j] == Next(states[j - 1], steps[j - 1]);
      StepKeepsNoStrays(states[j - 1], steps[j - 1], batch);
    }
  }

  /** Between two points of a run that spares the batch, what is completed is exactly what the
      batch no longer stands for. */
  lemma {:induction false} RunConserves(states: seq<System>, steps: seq<Step>, plans: seq<Plan>, batch: string,
                                        i: nat, j: nat)
    requires TrackedExecution(states, steps, plans) && i <= j < |states|
    requires NoStrays(states[i], batch)
    requires forall k :: i <= k < j ==> SparesBatch(states[k], steps[k], batch)
    ensures Remaining(states[j].q.items, batch, states[j].workers, plans[j])
            + Completed(states, steps, plans, batch, i, j)
            == Remaining(states[i].q.items, batch, states[i].workers, plans[i])
  {
    hide Next, Inv, Enabled, NoStrays, KeepsBatch, Tracked, PlanFollows, Remaining, CompletedBy;
    if i < j {
      RunConserves(states, steps, plans, batch, i, j - 1);
      RunKeepsNoStrays(states, steps, batch, i, j - 1);
      RunIsTracked(states, steps, plans, j - 1);
      ExecutionKeepsInv(states, steps, j - 1);
      var s, step := states[j - 1], steps[j - 1];
      assert Enabled(s, step) && states[j] == Next(s, step) && PlanFollows(s, step, plans[j - 1], plans[j]);
      StepConserves(s, step, batch, plans[j - 1], plans[j]);
    }
  }

  /** No item pending and none failed means no item at all. */
  lemma {:induction false} QuietBatchIsEmpty(items: Items, batch: string)
    requires forall item :: item in items ==> !item.status.Done? && !item.status.Skipped?
    ensures BatchCount(items, batch) == BatchStatus(0, 0) <==>
            forall item :: item in items ==> item.batch != Some(batch)
  {
    if items != [] {
      var n := |items| - 1;
      QuietBatchIsEmpty(items[..n], batch);
      assert items == items[..n] + [items[n]];
      assert items[n] in items;
    }
  }

  /** Batch quiescence is exact. If nothing is removed from the batch, then as soon as
      `batch_status` reports nothing pending and nothing failed, every file that the batch stood
      for has been completed, each exactly once. */
  lemma QuiescenceIsExact(states: seq<System>, steps: seq<Step>, plans: seq<Plan>, batch: string, i: nat, j: nat)
    requires TrackedExecution(states, steps, plans) && i <= j < |states|
    requires NoStrays(states[i], batch)
    requires forall k :: i <= k < j ==> SparesBatch(states[k], steps[k], batch)
    ensures BatchCount(states[j].q.items, batch) == BatchStatus(0, 0) ==>
              Completed(states, steps, plans, batch, i, j)
              == Remaining(states[i].q.items, batch, states[i].workers, plans[i])
  {
    hide Next, Enabled, NoStrays, SparesBatch, Tracked, PlanFollows, Remaining, CompletedBy, Completed;
    RunConserves(states, steps, plans, batch, i, j);
    ExecutionKeepsInv(states, steps, j);
    if BatchCount(states[j].q.items, batch) == BatchStatus(0, 0) {
      QuietBatchIsEmpty(states[j].q.items, batch);
      RemainingOfOthers(states[j].q.items, batch, states[j].workers, plans[j]);
    }
  }

  lemma {:induction false} RemainingGrows(items: Items, items': Items, batch: string, workers: map<Id, Worker>,
                                          workers': map<Id, Worker>, plan: Plan)
    requires |items| == |items'|
    requires forall i :: 0 <= i < |items| ==>
               ShareOf(items[i], batch, workers, plan) <= ShareOf(items'[i], batch, workers', plan)
    ensures Remaining(items, batch, workers, plan) <= Remaining(items', batch, workers', plan)
  {
    hide ShareOf;
    if items != [] {
      assert ShareOf(items[0], batch, workers, plan) <= ShareOf(items'[0], batch, workers', plan);
      RemainingGrows(items[1..], items'[1..], batch, workers, workers', plan);
    }
  }

  /** A restart takes nothing from what a batch stands for. It adds the files of directories whose
      children were in the list already. */
  lemma RestartLosesNothing(s: System, batch: string, plan: Plan)
    requires Inv(s)
    ensures var s' := Next(s, Restart);
            Remaining(s.q.items, batch, s.workers, plan) <= Remaining(s'.q.items, batch, s'.workers, plan)
  {
    var s' := Next(s, Restart);
    RestartKeepsInv(s);
    hide Inv, Next, Remaining;
    forall i | 0 <= i < |s.q.items|
      ensures ShareOf(s.q.items[i], batch, s.workers, plan) <= ShareOf(s'.q.items[i], batch, s'.workers, plan)
    {
      assert s'.q.items[i].id == s.q.items[i].id && s'.q.items[i].batch == s.q.items[i].batch;
    }
    RemainingGrows(s.q.items, s'.q.items, batch, s.workers, s'.workers, plan);
  }

  /** Whenever the restarts fall: between two points of a run that adds nothing to the batch and
      removes nothing from it, what the batch stood for is completed or still stood for. */
  lemma {:induction false} RunLosesNothing(states: seq<System>, steps: seq<Step>, plans: seq<Plan>, batch: string,
                                           i: nat, j: nat)
    requires TrackedExecution(states, steps, plans) && i <= j < |states|
    requires NoStrays(states[i], batch)
    requires forall k :: i <= k < j ==> KeepsBatch(states[k], steps[k], batch)
    ensures Remaining(states[i].q.items, batch, states[i].workers, plans[i])
            <= Remaining(states[j].q.items, batch, states[j].workers, plans[j])
               + Completed(states, steps, plans, batch, i, j)
  {
    hide Next, Inv, Enabled, NoStrays, KeepsBatch, Tracked, PlanFollows, Remaining, CompletedBy;
    if i < j {
      RunLosesNothing(states, steps, plans, batch, i, j - 1);
      RunKeepsNoStrays(states, steps, batch, i, j - 1);
      RunIsTracked(states, steps, plans, j - 1);
      ExecutionKeepsInv(states, steps, j - 1);
      var s, step := states[j - 1], steps[j - 1];
      assert Enabled(s, step) && states[j] == Next(s, step) && PlanFollows(s, step, plans[j - 1], plans[j]);
      if step.Restart? {
        RestartKeepsPlan(s, plans[j - 1], plans[j]);
        RestartLosesNothing(s, batch, plans[j]);
      } else {
        StepConserves(s, step, batch, plans[j - 1], plans[j]);
      }
    }
  }

  lemma RestartKeepsPlan(s: System, plan: Plan, plan': Plan)
    requires PlanFollows(s, Restart, plan, plan')
    ensures plan' == plan
  {
  }

  /** Quiescence with restarts at any time: as soon as nothing is pending and nothing failed, every
      file that the batch stood for has been completed at least once. */
  lemma QuiescenceIsSafe(states: seq<System>, steps: seq<Step>, plans: seq<Plan>, batch: string, i: nat, j: nat)
    requires TrackedExecution(states, steps, plans) && i <= j < |states|
    requires NoStrays(states[i], batch)
    requires forall k :: i <= k < j ==> KeepsBatch(states[k], steps[k], batch)
    ensures BatchCount(states[j].q.items, batch) == BatchStatus(0, 0) ==>
              Remaining(states[i].q.items, batch, states[i].workers, plans[i])
              <= Completed(states, steps, plans, batch, i, j)
  {
    hide Next, Enabled, NoStrays, KeepsBatch, Tracked, PlanFollows, Remaining, CompletedBy, Completed;
    RunLosesNothing(states, steps, plans, batch, i, j);
    ExecutionKeepsInv(states, steps, j);
    if BatchCount(states[j].q.items, batch) == BatchStatus(0, 0) {
      QuietBatchIsEmpty(states[j].q.items, batch);
      RemainingOfOthers(states[j].q.items, batch, states[j].workers, plans[j]);
    }
  }

  /** When a batch has just been added, it stands for the files of its items and directories,
      and no worker of it has lost its item. */
  lemma NewBatch(s: System, newItems: Items, plan: Plan, plan': Plan, batch: string)
    requires Inv(s) && Enabled(s, Add(newItems)) && Tracked(s, plan) && PlanFollows(s, Add(newItems), plan, plan')
    requires forall item :: item in newItems ==> item.batch == Some(batch)
    requires forall item :: item in s.q.items ==> item.batch != Some(batch)
    requires forall id :: id in s.workers && !s.workers[id].Spawned? ==> s.workers[id].snapshot.batch != Some(batch)
    ensures var s' := Next(s, Add(newItems));
            && NoStrays(s', batch)
            && Remaining(s'.q.items, batch, s'.workers, plan') == multiset(Flat(newItems, s'.workers, plan'))
            && forall item :: item in newItems ==> Left(s'.workers, plan', item.id) == FilesOf(plan'[item.id])
  {
    var s' := Next(s, Add(newItems));
    AddedItems(s, newItems);
    hide Inv, Next, Remaining, Flat, FilesUnder;
    RemainingConcat(s.q.items, newItems, batch, s'.workers, plan');
    RemainingOfOthers(s.q.items, batch, s'.workers, plan');
    RemainingOfBatch(newItems, batch, s'.workers, plan');
    forall item | item in newItems
      ensures item.id !in s.workers
    {
      NewIdHasNoWorker(s, newItems, item);
    }
  }

  lemma NewIdHasNoWorker(s: System, newItems: Items, item: TransferItem)
    requires Inv(s) && NewItems(newItems, s.used) && item in newItems
    ensures item.id !in s.workers
  {
  }
}
