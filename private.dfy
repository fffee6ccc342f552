/** The launcher module's private helpers: the item comparator, item
    normalisation and the per-item key counter. */
module Private {
  import opened Items
  import Collation
  import Sorting

  /** `r1 < r2` on ranks: `Infinity` is above every finite rank. */
  predicate RankLess(x: Rank, y: Rank)
  {
    match x
    case Infinity => false
    case Finite(m) => y.Infinity? || m < y.n
  }

  /** The display label the comparator falls back to. */
  function LabelOf(item: Item, cwd: string, reg: Registry): string
  {
    reg.labelOf(item.command, WithCwd(item.args, cwd))
  }

  /** `sortCmp`: rank decides when both ranks are defined and differ,
      whatever the labels; otherwise the labels are compared. */
  function SortCmp(a: Item, b: Item, cwd: string, reg: Registry): (r: int)
    ensures -1 <= r <= 1
    ensures a.rank.Some? && b.rank.Some? && RankLess(a.rank.value, b.rank.value) ==> r == -1
    ensures a.rank.Some? && b.rank.Some? && RankLess(b.rank.value, a.rank.value) ==> r == 1
    ensures a.rank.None? || b.rank.None? || a.rank == b.rank ==>
              r == Collation.Compare(LabelOf(a, cwd, reg), LabelOf(b, cwd, reg))
  {
    if a.rank != b.rank && a.rank.Some? && b.rank.Some? then
      if RankLess(a.rank.value, b.rank.value) then -1 else 1
    else
      Collation.Compare(LabelOf(a, cwd, reg), LabelOf(b, cwd, reg))
  }

  /** Swapping the operands of `sortCmp` flips the sign of its result. */
  lemma SortCmpAntisymmetric(a: Item, b: Item, cwd: string, reg: Registry)
    ensures Sorting.Sign(SortCmp(a, b, cwd, reg)) == -Sorting.Sign(SortCmp(b, a, cwd, reg))
  {
    Collation.CompareAntisymmetric(LabelOf(a, cwd, reg), LabelOf(b, cwd, reg));
  }

  /** With every rank defined, `sortCmp` orders by rank and then by label,
      so "sorts no later than" is transitive. */
  lemma SortCmpTransitive(a: Item, b: Item, c: Item, cwd: string, reg: Registry)
    requires a.rank.Some? && b.rank.Some? && c.rank.Some?
    requires SortCmp(a, b, cwd, reg) <= 0 && SortCmp(b, c, cwd, reg) <= 0
    ensures SortCmp(a, c, cwd, reg) <= 0
  {
    if a.rank == b.rank && b.rank == c.rank {
      Collation.CompareTransitive(LabelOf(a, cwd, reg), LabelOf(b, cwd, reg), LabelOf(c, cwd, reg));
    }
  }

  /** Three items, one of them unranked, that `sortCmp` orders in a cycle:
      a before b and b before c by label, yet c before a by rank. */
  lemma SortCmpCycleWithUnrankedItem()
    ensures var reg := Registry((cmd, args) => cmd, (cmd, args) => "", (cmd, args) => "", (cmd, args) => None);
            var a := Item(0, "a", map[], None, Some(Finite(2)), None);
            var b := Item(1, "b", map[], None, None, None);
            var c := Item(2, "c", map[], None, Some(Finite(1)), None);
            SortCmp(a, b, "", reg) < 0 && SortCmp(b, c, "", reg) < 0 && SortCmp(c, a, "", reg) < 0
  {
    assert "a" == ['a'] && "b" == ['b'] && "c" == ['c'];
  }

  /** The comparator `sortCmp` hands to `Array.prototype.sort`. */
  function ItemOrder(cwd: string, reg: Registry): (Item, Item) -> int
  {
    (a: Item, b: Item) => SortCmp(a, b, cwd, reg)
  }

  predicate AllRanked(s: seq<Item>)
  {
    forall x :: x in s ==> x.rank.Some?
  }

  /** With every rank defined, `sortCmp` is a total preorder on the items. */
  lemma ItemOrderTotalPreorder(s: seq<Item>, cwd: string, reg: Registry)
    requires AllRanked(s)
    ensures Sorting.TotalPreorderOn(ItemOrder(cwd, reg), s)
  {
    var cmp := ItemOrder(cwd, reg);
    forall a, b | a in s && b in s
      ensures Sorting.Sign(cmp(a, b)) == -Sorting.Sign(cmp(b, a))
    {
      SortCmpAntisymmetric(a, b, cwd, reg);
    }
    forall a, b, c | a in s && b in s && c in s && cmp(a, b) <= 0 && cmp(b, c) <= 0
      ensures cmp(a, c) <= 0
    {
      SortCmpTransitive(a, b, c, cwd, reg);
    }
  }

  /** One category's items after `categories[cat].sort(...)`. */
  function SortItems(s: seq<Item>, cwd: string, reg: Registry): (r: seq<Item>)
    ensures multiset(r) == multiset(s)
  {
    Sorting.Sort(s, ItemOrder(cwd, reg))
  }

  /** With every rank defined, the sorted items are a permutation of the
      input, ascending by rank and, within one rank, by label. */
  lemma SortItemsOrdered(s: seq<Item>, cwd: string, reg: Registry, i: int, j: int)
    requires AllRanked(s)
    requires 0 <= i < j < |SortItems(s, cwd, reg)|
    ensures var r := SortItems(s, cwd, reg);
            r[i].rank.Some? && r[j].rank.Some? &&
            (RankLess(r[i].rank.value, r[j].rank.value) ||
             (r[i].rank == r[j].rank && Collation.Compare(LabelOf(r[i], cwd, reg), LabelOf(r[j], cwd, reg)) <= 0))
  {
    var r := SortItems(s, cwd, reg);
    ItemOrderTotalPreorder(s, cwd, reg);
    Sorting.SortSorted(s, ItemOrder(cwd, reg));
    assert ItemOrder(cwd, reg)(r[i], r[j]) <= 0;
    assert r[i] in multiset(s) && r[j] in multiset(s);
  }

  /** Stability: items of equal rank and label keep their source order. */
  lemma SortItemsStable(s: seq<Item>, k: Item, cwd: string, reg: Registry)
    requires AllRanked(s + [k])
    ensures Sorting.TiesWith(SortItems(s, cwd, reg), k, ItemOrder(cwd, reg))
         == Sorting.TiesWith(s, k, ItemOrder(cwd, reg))
  {
    ItemOrderTotalPreorder(s + [k], cwd, reg);
    Sorting.SortStable(s, k, ItemOrder(cwd, reg), s + [k]);
  }

  /** `createItem`: a new item record whose category is a string and whose
      rank is defined, `Infinity` standing in for an absent rank. */
  function CreateItem(options: Item, id: ItemId): (r: Item)
    ensures r.id == id && r.command == options.command && r.args == options.args
    ensures r.kernelIconUrl == options.kernelIconUrl
    ensures r.category.Some? && CategoryOf(r) == CategoryOf(options)
    ensures r.rank == if options.rank.Some? then options.rank else Some(Infinity)
  {
    options.(
      id := id,
      category := Some(if Truthy(options.category) then options.category.value else ""),
      rank := Some(if options.rank.Some? then options.rank.value else Infinity))
  }

  /** An unranked item made by `createItem` sorts after every finite rank. */
  lemma CreatedUnrankedSortsLast(options: Item, id: ItemId, b: Item, cwd: string, reg: Registry)
    requires options.rank.None?
    requires b.rank.Some? && b.rank.value.Finite?
    ensures SortCmp(CreateItem(options, id), b, cwd, reg) == 1
    ensures SortCmp(b, CreateItem(options, id), cwd, reg) == -1
  {
  }

  /** Every key already handed out is kept, with its value. */
  ghost predicate Extends(newer: map<ItemId, nat>, older: map<ItemId, nat>)
  {
    forall i :: i in older ==> i in newer && newer[i] == older[i]
  }

  /** `keyProperty` with the counter `id` behind it: the first time an item
      is seen it gets the next number, and keeps it from then on. */
  class KeyArena {
    var next: nat
    var keys: map<ItemId, nat>

    /** The counter is the number of items seen, and their keys are
        pairwise distinct and below it. */
    ghost predicate Valid()
      reads this
    {
      && |keys| == next
      && (forall i :: i in keys ==> keys[i] < next)
      && (forall i, j :: i in keys && j in keys && i != j ==> keys[i] != keys[j])
    }

    constructor ()
      ensures Valid() && next == 0 && keys == map[]
    {
      next := 0;
      keys := map[];
    }

    /** `keyProperty.get(item)`. */
    method Get(item: Item) returns (key: nat)
      requires Valid()
      modifies this
      ensures Valid() && Extends(keys, old(keys))
      ensures item.id in keys && key == keys[item.id]
      ensures item.id in old(keys) ==> keys == old(keys) && next == old(next)
      ensures item.id !in old(keys) ==>
                key == old(next) && next == old(next) + 1 && keys == old(keys)[item.id := key]
    {
      if item.id in keys {
        key := keys[item.id];
      } else {
        key := next;
        keys := keys[item.id := key];
        next := next + 1;
      }
    }
  }
}
