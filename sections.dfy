/** What `prerender` and `render` produce, as functions of the items, the
    three settings, the cwd and the keys handed out; and the theorems
    relating the two stages. */
module Sections {
  import opened Items
  import opened Seqs
  import opened Private
  import opened Cards
  import opened Vdom
  import opened Grouping

  /** A section header's icon: its first item's command icon, dropped when it
      aliases the icon class (src/launcher.tsx:126-134). */
  function HeaderIcon(first: Item, cwd: string, reg: Registry): (r: IconRef)
    ensures var args := WithCwd(first.args, cwd);
            && r.Resolved? && r.iconClass == reg.iconClassOf(first.command, args)
            && (r.icon.None? <==> reg.iconOf(first.command, args).None? || reg.iconOf(first.command, args) == Some(r.iconClass))
            && (r.icon.Some? ==> r.icon == reg.iconOf(first.command, args))
  {
    var args := WithCwd(first.args, cwd);
    var iconClass := reg.iconClassOf(first.command, args);
    Resolved(UsableIcon(reg.iconOf(first.command, args), iconClass), iconClass)
  }

  /** The header icon after `render`: the configured override when the
      category has one, else the resolved icon. */
  function SectionIcon(cat: string, first: Item, cwd: string, reg: Registry, icons: map<string, string>): IconRef
  {
    if cat in icons then Custom("apps:" + cat, icons[cat]) else HeaderIcon(first, cwd, reg)
  }

  ghost predicate CardsReady(group: seq<Item>, kernel: bool, cwd: string, reg: Registry, keys: map<ItemId, nat>)
  {
    forall x :: x in group ==> x.id in keys && !CardThrows(kernel, x, cwd, reg)
  }

  /** The card container's children: one card per item, in group order,
      each keyed by its item's key. */
  function CardsFor(group: seq<Item>, kernel: bool, cwd: string, reg: Registry, keys: map<ItemId, nat>): (r: seq<Node>)
    requires CardsReady(group, kernel, cwd, reg, keys)
    ensures |r| == |group|
  {
    if group == [] then []
    else
      var last := group[|group| - 1];
      assert last in group;
      CardsFor(group[..|group| - 1], kernel, cwd, reg, keys)
        + [CardView(CardFor(kernel, last, cwd, reg, keys[last.id]).value)]
  }

  /** Every category in `cats` has a non-empty group whose cards render. */
  ghost predicate Ready(cats: seq<string>, groups: map<string, seq<Item>>, kernelCats: seq<string>,
                        cwd: string, reg: Registry, keys: map<ItemId, nat>)
  {
    forall c :: c in cats ==>
      c in groups && groups[c] != [] && CardsReady(groups[c], c in kernelCats, cwd, reg, keys)
  }

  function SectionOf(cat: string, groups: map<string, seq<Item>>, kernelCats: seq<string>,
                     cwd: string, reg: Registry, keys: map<ItemId, nat>, icons: map<string, string>): Node
    requires cat in groups && groups[cat] != []
    requires CardsReady(groups[cat], cat in kernelCats, cwd, reg, keys)
  {
    SectionNode(cat, SectionIcon(cat, groups[cat][0], cwd, reg, icons),
                CardsFor(groups[cat], cat in kernelCats, cwd, reg, keys))
  }

  /** One section per category of `cats`, in that order. */
  function SectionsFor(cats: seq<string>, groups: map<string, seq<Item>>, kernelCats: seq<string>,
                       cwd: string, reg: Registry, keys: map<ItemId, nat>, icons: map<string, string>): (r: seq<Node>)
    requires Ready(cats, groups, kernelCats, cwd, reg, keys)
    ensures |r| == |cats|
  {
    if cats == [] then []
    else
      var last := cats[|cats| - 1];
      assert last in cats;
      SectionsFor(cats[..|cats| - 1], groups, kernelCats, cwd, reg, keys, icons)
        + [SectionOf(last, groups, kernelCats, cwd, reg, keys, icons)]
  }

  /** One card per item, in group order, each showing its item under the
      item's key. */
  lemma {:induction false} CardsForAt(group: seq<Item>, kernel: bool, cwd: string, reg: Registry,
                                      keys: map<ItemId, nat>, i: int)
    requires CardsReady(group, kernel, cwd, reg, keys) && 0 <= i < |group|
    ensures var r := CardsFor(group, kernel, cwd, reg, keys);
            r[i].CardView? && r[i].card.item == group[i] && r[i].card.key == keys[group[i].id]
  {
    if i < |group| - 1 {
      CardsForAt(group[..|group| - 1], kernel, cwd, reg, keys, i);
    }
  }

  /** One section per category, in the order of `cats`. */
  lemma {:induction false} SectionsForAt(cats: seq<string>, groups: map<string, seq<Item>>, kernelCats: seq<string>,
                                         cwd: string, reg: Registry, keys: map<ItemId, nat>, icons: map<string, string>, i: int)
    requires Ready(cats, groups, kernelCats, cwd, reg, keys) && 0 <= i < |cats|
    ensures cats[i] in cats
    ensures SectionsFor(cats, groups, kernelCats, cwd, reg, keys, icons)[i]
         == SectionOf(cats[i], groups, kernelCats, cwd, reg, keys, icons)
  {
    if i < |cats| - 1 {
      SectionsForAt(cats[..|cats| - 1], groups, kernelCats, cwd, reg, keys, icons, i);
    }
  }

  /** One more ready category appends its section. */
  lemma SectionsSnoc(cats: seq<string>, c: string, groups: map<string, seq<Item>>, kernelCats: seq<string>,
                     cwd: string, reg: Registry, keys: map<ItemId, nat>)
    requires Ready(cats, groups, kernelCats, cwd, reg, keys)
    requires c in groups && groups[c] != [] && CardsReady(groups[c], c in kernelCats, cwd, reg, keys)
    ensures Ready(cats + [c], groups, kernelCats, cwd, reg, keys)
    ensures SectionsFor(cats + [c], groups, kernelCats, cwd, reg, keys, map[])
         == SectionsFor(cats, groups, kernelCats, cwd, reg, keys, map[]) + [SectionOf(c, groups, kernelCats, cwd, reg, keys, map[])]
  {
    assert (cats + [c])[..|cats|] == cats;
  }

  /** The keys of the keyed nodes, in order. */
  function SectionKeys(nodes: seq<Node>): seq<string>
  {
    if nodes == [] then []
    else
      var last := nodes[|nodes| - 1];
      SectionKeys(nodes[..|nodes| - 1]) + (if KeyOf(last).Some? then [KeyOf(last).value] else [])
  }

  lemma {:induction false} SectionKeysOfSections(cats: seq<string>, groups: map<string, seq<Item>>, kernelCats: seq<string>,
                                                 cwd: string, reg: Registry, keys: map<ItemId, nat>, icons: map<string, string>)
    requires Ready(cats, groups, kernelCats, cwd, reg, keys)
    ensures SectionKeys(SectionsFor(cats, groups, kernelCats, cwd, reg, keys, icons)) == cats
  {
    if cats != [] {
      var s := SectionsFor(cats, groups, kernelCats, cwd, reg, keys, icons);
      SectionKeysOfSections(cats[..|cats| - 1], groups, kernelCats, cwd, reg, keys, icons);
      assert s[..|s| - 1] == SectionsFor(cats[..|cats| - 1], groups, kernelCats, cwd, reg, keys, icons);
      assert cats == cats[..|cats| - 1] + [cats[|cats| - 1]];
    }
  }

  /** Keys only ever grow, so cards already built keep their keys. */
  lemma {:induction false} CardsStable(group: seq<Item>, kernel: bool, cwd: string, reg: Registry,
                                       k1: map<ItemId, nat>, k2: map<ItemId, nat>)
    requires CardsReady(group, kernel, cwd, reg, k1) && Extends(k2, k1)
    ensures CardsReady(group, kernel, cwd, reg, k2)
    ensures CardsFor(group, kernel, cwd, reg, k1) == CardsFor(group, kernel, cwd, reg, k2)
  {
    if group != [] {
      CardsStable(group[..|group| - 1], kernel, cwd, reg, k1, k2);
    }
  }

  lemma {:induction false} SectionsStable(cats: seq<string>, groups: map<string, seq<Item>>, kernelCats: seq<string>,
                                          cwd: string, reg: Registry, k1: map<ItemId, nat>, k2: map<ItemId, nat>,
                                          icons: map<string, string>)
    requires Ready(cats, groups, kernelCats, cwd, reg, k1) && Extends(k2, k1)
    ensures Ready(cats, groups, kernelCats, cwd, reg, k2)
    ensures SectionsFor(cats, groups, kernelCats, cwd, reg, k1, icons)
         == SectionsFor(cats, groups, kernelCats, cwd, reg, k2, icons)
  {
    forall c | c in cats
      ensures CardsReady(groups[c], c in kernelCats, cwd, reg, k2)
    {
      CardsStable(groups[c], c in kernelCats, cwd, reg, k1, k2);
    }
    if cats != [] {
      var last := cats[|cats| - 1];
      SectionsStable(cats[..|cats| - 1], groups, kernelCats, cwd, reg, k1, k2, icons);
      CardsStable(groups[last], last in kernelCats, cwd, reg, k1, k2);
    }
  }

  /** Each category's items, sorted with the comparator (src/launcher.tsx:88-103). */
  function SortedGroups(items: seq<Item>, sortCwd: string, reg: Registry): map<string, seq<Item>>
  {
    map c | c in FirstSeen(items) :: SortItems(Members(items, c), sortCwd, reg)
  }

  /** Every item lands in the sorted group of its own category, as often
      as it occurs in the input, and in no other group. */
  lemma SortedGroupsPartition(items: seq<Item>, sortCwd: string, reg: Registry, x: Item, c: string)
    ensures x in items ==> CategoryOf(x) in SortedGroups(items, sortCwd, reg)
    ensures c in SortedGroups(items, sortCwd, reg) ==>
              multiset(SortedGroups(items, sortCwd, reg)[c])[x]
              == if CategoryOf(x) == c then multiset(items)[x] else 0
  {
    FirstSeenCategories(items);
    MembersCount(items, c, x);
  }

  /** The identities of a list's items. */
  ghost function IdsOf(items: seq<Item>): set<ItemId>
  {
    set x | x in items :: x.id
  }

  /** The identities of the items in the groups of the named categories. */
  ghost function GroupIds(cats: seq<string>, groups: map<string, seq<Item>>): set<ItemId>
  {
    set c, x | c in cats && c in groups && x in groups[c] :: x.id
  }

  /** Sorted groups hold only items of the list. */
  lemma SortedGroupIds(items: seq<Item>, cats: seq<string>, sortCwd: string, reg: Registry)
    ensures GroupIds(cats, SortedGroups(items, sortCwd, reg)) <= IdsOf(items)
  {
    var groups := SortedGroups(items, sortCwd, reg);
    forall c: string, x: Item | c in cats && c in groups && x in groups[c]
      ensures x.id in IdsOf(items)
    {
      SortedGroupsPartition(items, sortCwd, reg, x, c);
      assert x in multiset(groups[c]);
      assert x in items;
    }
  }

  /** Some item of a kernel category has no icon url and an empty label. */
  ghost predicate Throws(items: seq<Item>, kernelCats: seq<string>, cwd: string, reg: Registry)
  {
    exists x :: x in items && CardThrows(CategoryOf(x) in kernelCats, x, cwd, reg)
  }

  /** When nothing throws and every item has a key, every observed category
      has a non-empty group whose cards render. */
  lemma GroupsReady(items: seq<Item>, kernelCats: seq<string>, cwd: string, sortCwd: string,
                    reg: Registry, keys: map<ItemId, nat>)
    requires !Throws(items, kernelCats, cwd, reg)
    requires forall x :: x in items ==> x.id in keys
    ensures Ready(FirstSeen(items), SortedGroups(items, sortCwd, reg), kernelCats, cwd, reg, keys)
  {
    FirstSeenCategories(items);
    forall c | c in FirstSeen(items)
      ensures var groups := SortedGroups(items, sortCwd, reg);
              c in groups && groups[c] != [] && CardsReady(groups[c], c in kernelCats, cwd, reg, keys)
    {
      GroupReady(items, c, kernelCats, cwd, sortCwd, reg, keys);
    }
  }

  /** One observed category's sorted group is non-empty and its cards render. */
  lemma GroupReady(items: seq<Item>, c: string, kernelCats: seq<string>, cwd: string, sortCwd: string,
                   reg: Registry, keys: map<ItemId, nat>)
    requires c in FirstSeen(items)
    requires !Throws(items, kernelCats, cwd, reg)
    requires forall x :: x in items ==> x.id in keys
    ensures var groups := SortedGroups(items, sortCwd, reg);
            c in groups && groups[c] != [] && CardsReady(groups[c], c in kernelCats, cwd, reg, keys)
  {
    var groups := SortedGroups(items, sortCwd, reg);
    FirstSeenCategories(items);
    var x :| x in items && CategoryOf(x) == c;
    SortedGroupsPartition(items, sortCwd, reg, x, c);
    assert x in groups[c];
    forall y: Item | y in groups[c]
      ensures y.id in keys && !CardThrows(c in kernelCats, y, cwd, reg)
    {
      SortedGroupsPartition(items, sortCwd, reg, y, c);
    }
  }

  lemma ReadyWithin(cats: seq<string>, among: seq<string>, groups: map<string, seq<Item>>, kernelCats: seq<string>,
                    cwd: string, reg: Registry, keys: map<ItemId, nat>)
    requires Ready(among, groups, kernelCats, cwd, reg, keys)
    ensures Ready(Within(cats, among), groups, kernelCats, cwd, reg, keys)
  {
  }

  /** The sections `prerender` builds (src/launcher.tsx:121-165). */
  function PrerenderSections(items: seq<Item>, known: seq<string>, kernelCats: seq<string>,
                             cwd: string, sortCwd: string, reg: Registry, keys: map<ItemId, nat>): seq<Node>
    requires !Throws(items, kernelCats, cwd, reg)
    requires forall x :: x in items ==> x.id in keys
  {
    GroupsReady(items, kernelCats, cwd, sortCwd, reg, keys);
    ReadyWithin(known + Outside(FirstSeen(items), known), FirstSeen(items), SortedGroups(items, sortCwd, reg),
                kernelCats, cwd, reg, keys);
    SectionsFor(Emitted(known, FirstSeen(items)), SortedGroups(items, sortCwd, reg), kernelCats, cwd, reg, keys, map[])
  }

  /** The sections a duplicate-free known list makes `render` show: the
      known categories that have items, in the known order, each with its
      override icon when it has one. */
  function KnownSections(items: seq<Item>, known: seq<string>, kernelCats: seq<string>, icons: map<string, string>,
                         cwd: string, sortCwd: string, reg: Registry, keys: map<ItemId, nat>): seq<Node>
    requires !Throws(items, kernelCats, cwd, reg)
    requires forall x :: x in items ==> x.id in keys
  {
    GroupsReady(items, kernelCats, cwd, sortCwd, reg, keys);
    ReadyWithin(known, FirstSeen(items), SortedGroups(items, sortCwd, reg), kernelCats, cwd, reg, keys);
    SectionsFor(Within(known, FirstSeen(items)), SortedGroups(items, sortCwd, reg), kernelCats, cwd, reg, keys, icons)
  }

  /** `render`'s treatment of a matching section: swap in the configured
      icon when the category has one (src/launcher.tsx:204-207). */
  function Dress(n: Node, category: string, icons: map<string, string>): Node
    requires n.Div?
  {
    if category in icons then ReplaceCategoryIcon(n, Custom("apps:" + category, icons[category])) else n
  }

  /** The inner loop of `render`: the nodes keyed `category`, dressed. */
  function Pick(category: string, nodes: seq<Node>, icons: map<string, string>): seq<Node>
  {
    if nodes == [] then []
    else
      var last := nodes[|nodes| - 1];
      Pick(category, nodes[..|nodes| - 1], icons)
        + (if KeyOf(last) == Some(category) then [Dress(last, category, icons)] else [])
  }

  /** The outer loop of `render`: for each known category in turn, the
      prerendered nodes keyed by it (src/launcher.tsx:197-211). */
  function RenderSelect(known: seq<string>, nodes: seq<Node>, icons: map<string, string>): seq<Node>
  {
    if known == [] then []
    else RenderSelect(known[..|known| - 1], nodes, icons) + Pick(known[|known| - 1], nodes, icons)
  }

  lemma {:induction false} PickConcat(category: string, a: seq<Node>, b: seq<Node>, icons: map<string, string>)
    ensures Pick(category, a + b, icons) == Pick(category, a, icons) + Pick(category, b, icons)
  {
    if b == [] {
      assert a + b == a;
    } else {
      assert (a + b)[..|a + b| - 1] == a + b[..|b| - 1];
      PickConcat(category, a, b[..|b| - 1], icons);
    }
  }

  lemma PickOne(category: string, n: Node, icons: map<string, string>)
    ensures Pick(category, [n], icons) == if KeyOf(n) == Some(category) then [Dress(n, category, icons)] else []
  {
    assert [n][..0] == [];
  }

  /** Dressing an icon-less section gives the section with its override. */
  lemma DressSection(cat: string, groups: map<string, seq<Item>>, kernelCats: seq<string>, cwd: string,
                     reg: Registry, keys: map<ItemId, nat>, icons: map<string, string>)
    requires cat in groups && groups[cat] != []
    requires CardsReady(groups[cat], cat in kernelCats, cwd, reg, keys)
    ensures Dress(SectionOf(cat, groups, kernelCats, cwd, reg, keys, map[]), cat, icons)
         == SectionOf(cat, groups, kernelCats, cwd, reg, keys, icons)
  {
    if cat in icons {
      ReplaceOnSection(cat, HeaderIcon(groups[cat][0], cwd, reg), Custom("apps:" + cat, icons[cat]),
                       CardsFor(groups[cat], cat in kernelCats, cwd, reg, keys));
    }
  }

  /** Among nodes with distinct keys, `render`'s inner loop finds the one
      keyed `category`, if any, and nothing else. */
  lemma {:induction false} PickDistinct(category: string, nodes: seq<Node>, names: seq<string>, icons: map<string, string>)
    requires |nodes| == |names| && Distinct(names)
    requires forall i :: 0 <= i < |nodes| ==> KeyOf(nodes[i]) == Some(names[i])
    ensures category !in names ==> Pick(category, nodes, icons) == []
    ensures forall i :: 0 <= i < |names| && names[i] == category ==>
              nodes[i].Div? && Pick(category, nodes, icons) == [Dress(nodes[i], category, icons)]
  {
    if nodes != [] {
      var n := |nodes| - 1;
      assert Distinct(names[..n]);
      PickDistinct(category, nodes[..n], names[..n], icons);
      if names[n] == category {
        assert category !in names[..n];
      } else {
        assert category in names <==> category in names[..n] by {
          assert names == names[..n] + [names[n]];
        }
      }
    }
  }

  /** Over a keyless header and nodes with distinct keys, `render`'s inner
      loop gives the dressed node keyed `category`, if there is one. */
  lemma PickKeyed(category: string, names: seq<string>, header: Node, nodes: seq<Node>,
                  dressed: string -> Node, icons: map<string, string>)
    requires |nodes| == |names| && Distinct(names) && KeyOf(header).None?
    requires forall i :: 0 <= i < |nodes| ==>
               KeyOf(nodes[i]) == Some(names[i]) && Dress(nodes[i], names[i], icons) == dressed(names[i])
    ensures Pick(category, [header] + nodes, icons) == if category in names then [dressed(category)] else []
  {
    PickConcat(category, [header], nodes, icons);
    PickOne(category, header, icons);
    PickDistinct(category, nodes, names, icons);
    if category in names {
      var i :| 0 <= i < |names| && names[i] == category;
    }
  }

  /** `render` over a keyless header and nodes with distinct keys: for
      each known category in turn, the node keyed by it, dressed. */
  lemma {:induction false} RenderSelectKeyed(known: seq<string>, names: seq<string>, header: Node, nodes: seq<Node>,
                                             dressed: string -> Node, icons: map<string, string>)
    requires |nodes| == |names| && Distinct(names) && KeyOf(header).None?
    requires forall i :: 0 <= i < |nodes| ==>
               KeyOf(nodes[i]) == Some(names[i]) && Dress(nodes[i], names[i], icons) == dressed(names[i])
    ensures var w := Within(known, names);
            RenderSelect(known, [header] + nodes, icons) == seq(|w|, j requires 0 <= j < |w| => dressed(w[j]))
  {
    if known != [] {
      var init, last := known[..|known| - 1], known[|known| - 1];
      RenderSelectKeyed(init, names, header, nodes, dressed, icons);
      PickKeyed(last, names, header, nodes, dressed, icons);
      var w, w0 := Within(known, names), Within(init, names);
      var f := seq(|w|, j requires 0 <= j < |w| => dressed(w[j]));
      var f0 := seq(|w0|, j requires 0 <= j < |w0| => dressed(w0[j]));
      if last in names {
        assert w == w0 + [last];
        assert f == f0 + [dressed(last)];
      } else {
        assert w == w0;
      }
    }
  }

  /** Over distinct sections, `render` keeps those of the known categories,
      in the known order, each with its override icon if it has one. */
  lemma RenderSelectSections(known: seq<string>, cats: seq<string>, cwd: string,
                             groups: map<string, seq<Item>>, kernelCats: seq<string>,
                             reg: Registry, keys: map<ItemId, nat>, icons: map<string, string>)
    requires Ready(cats, groups, kernelCats, cwd, reg, keys) && Distinct(cats)
    ensures Ready(Within(known, cats), groups, kernelCats, cwd, reg, keys)
    ensures RenderSelect(known, [CwdHeader(cwd)] + SectionsFor(cats, groups, kernelCats, cwd, reg, keys, map[]), icons)
         == SectionsFor(Within(known, cats), groups, kernelCats, cwd, reg, keys, icons)
  {
    ReadyWithin(known, cats, groups, kernelCats, cwd, reg, keys);
    var sections := SectionsFor(cats, groups, kernelCats, cwd, reg, keys, map[]);
    var dressed := (c: string) =>
      if c in groups && groups[c] != [] && CardsReady(groups[c], c in kernelCats, cwd, reg, keys)
      then SectionOf(c, groups, kernelCats, cwd, reg, keys, icons) else CwdHeader(cwd);
    forall i | 0 <= i < |sections|
      ensures KeyOf(sections[i]) == Some(cats[i]) && Dress(sections[i], cats[i], icons) == dressed(cats[i])
    {
      SectionsForAt(cats, groups, kernelCats, cwd, reg, keys, map[], i);
      DressSection(cats[i], groups, kernelCats, cwd, reg, keys, icons);
    }
    RenderSelectKeyed(known, cats, CwdHeader(cwd), sections, dressed, icons);
    var w := Within(known, cats);
    forall j | 0 <= j < |w|
      ensures SectionsFor(w, groups, kernelCats, cwd, reg, keys, icons)[j] == dressed(w[j])
    {
      SectionsForAt(w, groups, kernelCats, cwd, reg, keys, icons, j);
    }
  }

  /** `prerender` emits the known categories that have items, in the known
      order, then the other observed categories in first-seen order. */
  lemma PrerenderOrder(items: seq<Item>, known: seq<string>, kernelCats: seq<string>, cwd: string,
                       sortCwd: string, reg: Registry, keys: map<ItemId, nat>)
    requires !Throws(items, kernelCats, cwd, reg)
    requires forall x :: x in items ==> x.id in keys
    ensures SectionKeys(PrerenderSections(items, known, kernelCats, cwd, sortCwd, reg, keys))
              == Within(known, FirstSeen(items)) + Outside(FirstSeen(items), known)
  {
    var seen := FirstSeen(items);
    GroupsReady(items, kernelCats, cwd, sortCwd, reg, keys);
    EmittedOrder(known, seen);
    SectionKeysOfSections(Emitted(known, seen), SortedGroups(items, sortCwd, reg), kernelCats, cwd, reg, keys, map[]);
  }

  /** `render` shows the known categories that have items, in the known order. */
  lemma KnownOrder(items: seq<Item>, known: seq<string>, kernelCats: seq<string>, icons: map<string, string>,
                   cwd: string, sortCwd: string, reg: Registry, keys: map<ItemId, nat>)
    requires !Throws(items, kernelCats, cwd, reg)
    requires forall x :: x in items ==> x.id in keys
    ensures SectionKeys(KnownSections(items, known, kernelCats, icons, cwd, sortCwd, reg, keys))
              == Within(known, FirstSeen(items))
  {
    GroupsReady(items, kernelCats, cwd, sortCwd, reg, keys);
    ReadyWithin(known, FirstSeen(items), SortedGroups(items, sortCwd, reg), kernelCats, cwd, reg, keys);
    SectionKeysOfSections(Within(known, FirstSeen(items)), SortedGroups(items, sortCwd, reg), kernelCats, cwd, reg, keys, icons);
  }

  /** Unknown categories are built, then dropped: with a duplicate-free
      known list, `render`'s selection over `prerender`'s page is exactly
      the known sections, each with the override icon if and only if one
      is configured. */
  lemma RenderKeepsKnownCategories(items: seq<Item>, known: seq<string>, kernelCats: seq<string>,
                                   icons: map<string, string>, cwd: string, sortCwd: string,
                                   reg: Registry, keys: map<ItemId, nat>)
    requires Distinct(known)
    requires !Throws(items, kernelCats, cwd, reg)
    requires forall x :: x in items ==> x.id in keys
    ensures RenderSelect(known, PageChildren(Page(cwd, PrerenderSections(items, known, kernelCats, cwd, sortCwd, reg, keys))), icons)
              == KnownSections(items, known, kernelCats, icons, cwd, sortCwd, reg, keys)
  {
    var seen := FirstSeen(items);
    var emitted := Emitted(known, seen);
    FirstSeenCategories(items);
    GroupsReady(items, kernelCats, cwd, sortCwd, reg, keys);
    EmittedOrder(known, seen);
    EmittedDistinct(known, seen);
    ReadyWithin(known + Outside(seen, known), seen, SortedGroups(items, sortCwd, reg), kernelCats, cwd, reg, keys);
    RenderSelectSections(known, emitted, cwd, SortedGroups(items, sortCwd, reg), kernelCats, reg, keys, icons);
    WithinSame(known, emitted, seen);
  }
}
