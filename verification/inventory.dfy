/**
 * Dropping an item onto the sheet (`_onDrop`): an item of the same name and
 * type already in the inventory absorbs the dropped quantity; otherwise the
 * dropped item is added at the end.
 */
module Inventory {
  import opened Wrappers

  /** An inventory entry; `qty` is `None` when the item carries no quantity. */
  datatype Item = Item(id: string, name: string, kind: string, qty: Option<int>)

  /** A dropped item, as resolved from its drag data, without its id. */
  datatype Dropped = Dropped(name: string, kind: string, qty: Option<int>)

  /** The quantity an item counts for: a missing one counts as 1 (a 0 stays 0). */
  function Count(qty: Option<int>): (n: int)
    ensures qty.Some? ==> n == qty.value
    ensures qty.None? ==> n == 1
  {
    qty.GetOr(1)
  }

  /** Whether `it` stacks with a dropped item: same name and same type. */
  predicate Stacks(it: Item, d: Dropped)
  {
    it.name == d.name && it.kind == d.kind
  }

  /** `k` is the position of the first entry `d` stacks with. */
  predicate FirstStack(inv: seq<Item>, d: Dropped, k: nat)
  {
    && k < |inv|
    && Stacks(inv[k], d)
    && forall j :: 0 <= j < k ==> !Stacks(inv[j], d)
  }

  /** There is at most one first stacking position. */
  lemma FirstStackUnique(inv: seq<Item>, d: Dropped, k1: nat, k2: nat)
    requires FirstStack(inv, d, k1) && FirstStack(inv, d, k2)
    ensures k1 == k2
  {
  }

  /** The position of the first entry `d` stacks with (`Array.prototype.find`). */
  function FindStack(inv: seq<Item>, d: Dropped): (r: Option<nat>)
    ensures r.Some? ==> FirstStack(inv, d, r.value)
    ensures r.None? <==> forall j :: 0 <= j < |inv| ==> !Stacks(inv[j], d)
  {
    if |inv| == 0 then None
    else if Stacks(inv[0], d) then Some(0)
    else
      match FindStack(inv[1..], d)
      case None => None
      case Some(k) => Some(k + 1)
  }

  /** The entry `it` with the dropped quantity added to its own. */
  function Absorb(it: Item, d: Dropped): Item
  {
    it.(qty := Some(Count(it.qty) + Count(d.qty)))
  }

  /** The inventory after `d` is dropped; `newId` is the id the host gives a created item. */
  function Drop(inv: seq<Item>, d: Dropped, newId: string): (r: seq<Item>)
    ensures (exists j :: 0 <= j < |inv| && Stacks(inv[j], d)) ==> |r| == |inv|
    ensures (forall j :: 0 <= j < |inv| ==> !Stacks(inv[j], d)) ==> r == inv + [Item(newId, d.name, d.kind, d.qty)]
    ensures forall k: nat :: FirstStack(inv, d, k) ==> r == inv[k := Absorb(inv[k], d)]
  {
    match FindStack(inv, d)
    case Some(k) =>
      assert forall k' :: FirstStack(inv, d, k') ==> k' == k by {
        forall k' | FirstStack(inv, d, k') ensures k' == k {
          FirstStackUnique(inv, d, k, k');
        }
      }
      inv[k := Absorb(inv[k], d)]
    case None =>
      assert forall k: nat :: FirstStack(inv, d, k) ==> Stacks(inv[k], d);
      inv + [Item(newId, d.name, d.kind, d.qty)]
  }

  /** The total quantity of an inventory, each entry counted as `Count` says. */
  function Total(inv: seq<Item>): int
    decreases |inv|
  {
    if |inv| == 0 then 0 else Count(inv[0].qty) + Total(inv[1..])
  }

  lemma {:induction false} TotalAppend(inv: seq<Item>, it: Item)
    ensures Total(inv + [it]) == Total(inv) + Count(it.qty)
    decreases |inv|
  {
    if |inv| > 0 {
      assert (inv + [it])[1..] == inv[1..] + [it];
      TotalAppend(inv[1..], it);
    }
  }

  lemma {:induction false} TotalUpdate(inv: seq<Item>, k: nat, it: Item)
    requires k < |inv|
    ensures Total(inv[k := it]) == Total(inv) - Count(inv[k].qty) + Count(it.qty)
    decreases |inv|
  {
    if k > 0 {
      assert inv[k := it][1..] == inv[1..][k - 1 := it];
      TotalUpdate(inv[1..], k - 1, it);
    }
  }

  /** A drop adds exactly the dropped quantity to the inventory's total, whether it stacks or not. */
  lemma DropConservesTotal(inv: seq<Item>, d: Dropped, newId: string)
    ensures Total(Drop(inv, d, newId)) == Total(inv) + Count(d.qty)
  {
    match FindStack(inv, d)
    case Some(k) =>
      TotalUpdate(inv, k, Absorb(inv[k], d));
    case None =>
      TotalAppend(inv, Item(newId, d.name, d.kind, d.qty));
  }

  /** The (name, type) pairs present in an inventory. */
  function Entries(inv: seq<Item>): set<(string, string)>
  {
    set i | 0 <= i < |inv| :: (inv[i].name, inv[i].kind)
  }

  /** After a drop the dropped pair is present, and no other pair appears or disappears. */
  lemma DropEntries(inv: seq<Item>, d: Dropped, newId: string)
    ensures Entries(Drop(inv, d, newId)) == Entries(inv) + {(d.name, d.kind)}
  {
    var r := Drop(inv, d, newId);
    match FindStack(inv, d)
    case Some(k) =>
      assert (inv[k].name, inv[k].kind) == (d.name, d.kind);
      forall e | e in Entries(r)
        ensures e in Entries(inv)
      {
        var i :| 0 <= i < |r| && e == (r[i].name, r[i].kind);
        assert e == (inv[i].name, inv[i].kind);
      }
      forall e | e in Entries(inv)
        ensures e in Entries(r)
      {
        var i :| 0 <= i < |inv| && e == (inv[i].name, inv[i].kind);
        assert e == (r[i].name, r[i].kind);
      }
    case None =>
      assert (r[|inv|].name, r[|inv|].kind) == (d.name, d.kind);
      forall e | e in Entries(r)
        ensures e in Entries(inv) + {(d.name, d.kind)}
      {
        var i :| 0 <= i < |r| && e == (r[i].name, r[i].kind);
        if i < |inv| {
          assert e == (inv[i].name, inv[i].kind);
        }
      }
      forall e | e in Entries(inv)
        ensures e in Entries(r)
      {
        var i :| 0 <= i < |inv| && e == (inv[i].name, inv[i].kind);
        assert e == (r[i].name, r[i].kind);
      }
  }

  /** Dropping the same item twice adds at most one entry: the second drop always stacks. */
  lemma DropTwiceStacks(inv: seq<Item>, d: Dropped, newId: string, otherId: string)
    ensures |Drop(Drop(inv, d, newId), d, otherId)| == |Drop(inv, d, newId)|
    ensures |Drop(inv, d, newId)| <= |inv| + 1
  {
    var r := Drop(inv, d, newId);
    DropEntries(inv, d, newId);
    assert (d.name, d.kind) in Entries(r);
    var i :| 0 <= i < |r| && (d.name, d.kind) == (r[i].name, r[i].kind);
    assert Stacks(r[i], d);
  }

  /** What a drop on the sheet amounts to. */
  datatype DropEffect =
    | Delegated           // not an item drag: handed to the host's default drop handling
    | Ignored             // the item's uuid did not resolve: nothing happens
    | Stored(inv: seq<Item>)

  /**
   * A drop event: the drag data's `type` and `uuid`, and the item the uuid
   * resolves to (`None` when it does not).
   */
  function OnDrop(dataType: Option<string>, uuid: Option<string>, resolved: Option<Dropped>,
                  inv: seq<Item>, newId: string): (e: DropEffect)
    ensures e.Delegated? <==> dataType != Some("Item") || uuid.None? || uuid == Some("")
    ensures e.Ignored? <==> !e.Delegated? && resolved.None?
    ensures e.Stored? ==> resolved.Some? && e.inv == Drop(inv, resolved.value, newId)
  {
    if dataType == Some("Item") && uuid.Some? && uuid.value != "" then
      match resolved
      case None => Ignored
      case Some(d) => Stored(Drop(inv, d, newId))
    else Delegated
  }
}
