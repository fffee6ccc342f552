/** The first stages of `prerender`: grouping the items by category,
    sorting each group, and the category order. */
module Grouping {
  import opened Items
  import opened Seqs
  import opened Private

  /** The items of category `c`, in source order. */
  function Members(items: seq<Item>, c: string): seq<Item>
  {
    if items == [] then []
    else
      var last := items[|items| - 1];
      Members(items[..|items| - 1], c) + (if CategoryOf(last) == c then [last] else [])
  }

  /** The categories in the order their first item appears. */
  function FirstSeen(items: seq<Item>): seq<string>
  {
    if items == [] then []
    else
      var init := items[..|items| - 1];
      var c := CategoryOf(items[|items| - 1]);
      if c in FirstSeen(init) then FirstSeen(init) else FirstSeen(init) + [c]
  }

  /** Each category that some item has occurs in the key order, once. */
  lemma {:induction false} FirstSeenCategories(items: seq<Item>)
    ensures Distinct(FirstSeen(items))
    ensures forall c :: c in FirstSeen(items) <==> exists x :: x in items && CategoryOf(x) == c
  {
    if items != [] {
      var init := items[..|items| - 1];
      FirstSeenCategories(init);
      assert forall x :: x in items <==> x in init || x == items[|items| - 1];
    }
  }

  /** A category with no first sighting has no members. */
  lemma {:induction false} MembersOfUnseen(items: seq<Item>, c: string)
    requires c !in FirstSeen(items)
    ensures Members(items, c) == []
  {
    if items != [] {
      MembersOfUnseen(items[..|items| - 1], c);
    }
  }

  /** Grouping is a partition: an item occurs in the group of its own
      category as often as in the input, and in no other group. */
  lemma {:induction false} MembersCount(items: seq<Item>, c: string, x: Item)
    ensures multiset(Members(items, c))[x] == if CategoryOf(x) == c then multiset(items)[x] else 0
  {
    if items != [] {
      var init := items[..|items| - 1];
      MembersCount(init, c, x);
      assert items == init + [items[|items| - 1]];
    }
  }

  /** Grouping keeps source order: the items of an earlier stretch of the
      input come before those of a later one. */
  lemma {:induction false} MembersConcat(a: seq<Item>, b: seq<Item>, c: string)
    ensures Members(a + b, c) == Members(a, c) + Members(b, c)
  {
    if b == [] {
      assert a + b == a;
    } else {
      assert (a + b)[..|a + b| - 1] == a + b[..|b| - 1];
      MembersConcat(a, b[..|b| - 1], c);
    }
  }

  /** What one more item does to the definition of the dictionary. */
  lemma GrowPrefix(items: seq<Item>, i: int)
    requires 0 <= i < |items|
    ensures var c := CategoryOf(items[i]);
            FirstSeen(items[..i + 1]) == if c in FirstSeen(items[..i]) then FirstSeen(items[..i]) else FirstSeen(items[..i]) + [c]
    ensures forall c :: Members(items[..i + 1], c)
                        == Members(items[..i], c) + (if CategoryOf(items[i]) == c then [items[i]] else [])
  {
    var next := items[..i + 1];
    assert next[..|next| - 1] == items[..i];
    assert next[|next| - 1] == items[i];
  }

  /** `keys` and `groups` are the category dictionary of `items`. */
  ghost predicate Grouped(items: seq<Item>, keys: seq<string>, groups: map<string, seq<Item>>)
  {
    && keys == FirstSeen(items)
    && (forall c :: c in groups <==> c in keys)
    && (forall c :: c in groups ==> groups[c] == Members(items, c))
  }

  /** Pushing the next item onto its category's list keeps the dictionary exact. */
  lemma GroupStep(items: seq<Item>, i: int, keys: seq<string>, groups: map<string, seq<Item>>)
    requires 0 <= i < |items|
    requires Grouped(items[..i], keys, groups)
    ensures var cat := CategoryOf(items[i]);
            var current := if cat in groups then groups[cat] else [];
            Grouped(items[..i + 1], if cat in groups then keys else keys + [cat], groups[cat := current + [items[i]]])
  {
    var cat := CategoryOf(items[i]);
    var current := if cat in groups then groups[cat] else [];
    var keys', groups' := if cat in groups then keys else keys + [cat], groups[cat := current + [items[i]]];
    GrowPrefix(items, i);
    if cat !in groups {
      MembersOfUnseen(items[..i], cat);
    }
    assert keys' == FirstSeen(items[..i + 1]);
    assert forall c :: c in groups' <==> c in keys';
    forall c | c in groups'
      ensures groups'[c] == Members(items[..i + 1], c)
    {
      if c != cat {
        assert groups'[c] == groups[c];
      }
    }
  }

  /** The category dictionary built item by item (src/launcher.tsx:88-95):
      `keys` is its key order, `groups` its contents. */
  method GroupItems(items: seq<Item>) returns (keys: seq<string>, groups: map<string, seq<Item>>)
    ensures keys == FirstSeen(items)
    ensures forall c :: c in groups <==> c in keys
    ensures forall c :: c in groups ==> groups[c] == Members(items, c)
  {
    keys, groups := [], map[];
    var i := 0;
    while i < |items|
      invariant 0 <= i <= |items|
      invariant Grouped(items[..i], keys, groups)
    {
      var item := items[i];
      var cat := CategoryOf(item);
      GroupStep(items, i, keys, groups);
      var current := if cat in groups then groups[cat] else [];
      if cat !in groups {
        keys := keys + [cat];
      }
      groups := groups[cat := current + [item]];
      i := i + 1;
    }
    assert items[..i] == items;
  }

  /** Sorts every group in place of the dictionary (src/launcher.tsx:97-103). */
  method SortGroups(keys: seq<string>, groups: map<string, seq<Item>>, cwd: string, reg: Registry)
    returns (sorted: map<string, seq<Item>>)
    requires Distinct(keys)
    requires forall c :: c in groups <==> c in keys
    ensures sorted.Keys == groups.Keys
    ensures forall c :: c in groups ==> sorted[c] == SortItems(groups[c], cwd, reg)
  {
    sorted := groups;
    var i := 0;
    while i < |keys|
      invariant 0 <= i <= |keys|
      invariant sorted.Keys == groups.Keys
      invariant forall c :: c in keys[..i] ==> sorted[c] == SortItems(groups[c], cwd, reg)
      invariant forall c :: c in keys[i..] ==> sorted[c] == groups[c]
    {
      var cat := keys[i];
      sorted := sorted[cat := SortItems(sorted[cat], cwd, reg)];
      assert forall c :: c in keys[i + 1..] ==> c in keys[i..] && c != cat;
      assert forall c :: c in keys[..i + 1] ==> c in keys[..i] || c == cat;
      i := i + 1;
    }
    assert keys[..i] == keys;
  }

  /** `orderedCategories` (src/launcher.tsx:111-119): every known category,
      then each dictionary key that is not a known one. */
  method OrderCategories(known: seq<string>, keys: seq<string>) returns (ordered: seq<string>)
    ensures ordered == known + Outside(keys, known)
  {
    ordered := [];
    for i := 0 to |known|
      invariant ordered == known[..i]
    {
      ordered := ordered + [known[i]];
    }
    assert known[..|known|] == known;
    for j := 0 to |keys|
      invariant ordered == known + Outside(keys[..j], known)
    {
      assert keys[..j + 1][..j] == keys[..j];
      if keys[j] !in known {
        ordered := ordered + [keys[j]];
      }
    }
    assert keys[..|keys|] == keys;
  }

  /** The categories that get a section: the ordered list without the names
      that have no group. */
  function Emitted(known: seq<string>, seen: seq<string>): seq<string>
  {
    Within(known + Outside(seen, known), seen)
  }

  /** Sections come out as the known categories that have items, in the
      known order, then the other observed categories in first-seen order;
      every observed category gets one, and no empty one does. */
  lemma EmittedOrder(known: seq<string>, seen: seq<string>)
    ensures Emitted(known, seen) == Within(known, seen) + Outside(seen, known)
    ensures forall c :: c in Emitted(known, seen) <==> c in seen
  {
    WithinConcat(known, Outside(seen, known), seen);
    WithinAll(Outside(seen, known), seen);
  }

  /** With a duplicate-free known list, every category gets exactly one section. */
  lemma EmittedDistinct(known: seq<string>, seen: seq<string>)
    requires Distinct(known) && Distinct(seen)
    ensures Distinct(Emitted(known, seen))
  {
    EmittedOrder(known, seen);
    WithinDistinct(known, seen);
    OutsideDistinct(seen, known);
    DistinctConcat(Within(known, seen), Outside(seen, known));
  }
}
