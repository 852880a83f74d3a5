/** The transfer item of src-tauri/src/transfer/mod.rs and list operations on items. */
module TransferItems {
  import opened Wrappers

  type Id = string

  datatype TransferStatus = Queued | Active | Paused | Failed | Done | Skipped

  datatype TransferItem = TransferItem(
    id: Id,
    sessionId: Option<string>,
    siteId: string,
    isDir: bool,
    batch: Option<string>,
    priority: int,
    localPath: string,
    remotePath: string,
    size: Option<nat>,
    transferred: nat,
    speed: nat,
    status: TransferStatus,
    error: Option<string>,
    attempts: nat,
    retryAfter: Option<int>,
    finishedAt: Option<int>)
  {
    predicate IsPending() {
      status.Queued? || status.Active? || status.Paused?
    }
  }

  type Items = seq<TransferItem>

  /** The position of the first item with this id, or the number of items. */
  function Position(items: Items, id: Id): (i: nat)
    ensures i <= |items|
    ensures i < |items| ==> items[i].id == id
    ensures forall k :: 0 <= k < i ==> items[k].id != id
  {
    if items == [] then 0
    else if items[0].id == id then 0
    else 1 + Position(items[1..], id)
  }

  predicate Contains(items: Items, id: Id) {
    Position(items, id) < |items|
  }

  /** The item with this id. */
  function Get(items: Items, id: Id): TransferItem
    requires Contains(items, id)
  {
    items[Position(items, id)]
  }

  /** The items with the first one of this id changed. */
  function Update(items: Items, id: Id, f: TransferItem -> TransferItem): Items {
    if Contains(items, id) then items[Position(items, id) := f(Get(items, id))] else items
  }

  function RemoveAt(items: Items, i: nat): Items
    requires i < |items|
  {
    items[..i] + items[i + 1..]
  }

  /** The items that satisfy p, in order. */
  function Retain(items: Items, p: TransferItem -> bool): Items {
    if items == [] then []
    else Retain(items[..|items| - 1], p) + (if p(items[|items| - 1]) then [items[|items| - 1]] else [])
  }

  function Map(items: Items, f: TransferItem -> TransferItem): Items {
    seq(|items|, i requires 0 <= i < |items| => f(items[i]))
  }

  ghost predicate UniqueIds(items: Items) {
    forall i, j :: 0 <= i < j < |items| ==> items[i].id != items[j].id
  }

  lemma {:induction false} RetainMember(items: Items, p: TransferItem -> bool, item: TransferItem)
    ensures item in Retain(items, p) <==> item in items && p(item)
  {
    if items != [] {
      RetainMember(items[..|items| - 1], p, item);
      assert items == items[..|items| - 1] + [items[|items| - 1]];
    }
  }

  lemma {:induction false} RetainUnique(items: Items, p: TransferItem -> bool)
    requires UniqueIds(items)
    ensures UniqueIds(Retain(items, p))
  {
    if items != [] {
      var n := |items| - 1;
      RetainUnique(items[..n], p);
      forall k | 0 <= k < |Retain(items[..n], p)|
        ensures Retain(items[..n], p)[k].id != items[n].id
      {
        RetainMember(items[..n], p, Retain(items[..n], p)[k]);
      }
    }
  }
}
