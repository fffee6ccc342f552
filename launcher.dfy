/** The `Launcher` widget: its settings, its two rendering passes and the
    activation protocol its cards drive. */
module LauncherPanel {
  import opened Items
  import opened Seqs
  import opened Private
  import opened Cards
  import opened Vdom
  import opened Grouping
  import opened Sections

  /** What `prerender` and `render` give back: `null` without a model, the
      page, or the exception a card threw. */
  datatype Rendering = Null | Rendered(tree: Node) | Threw(fault: Fault)

  /** A widget a command can resolve to. */
  datatype Widget = Widget(id: nat)

  /** How the promise returned by `commands.execute` settles: with a value,
      which may or may not be a widget, or with an error. */
  datatype Outcome = Fulfilled(widget: Option<Widget>) | Rejected(error: string)

  /** The effects the launcher has on the rest of the application, in order. */
  datatype Event =
    | Executed(command: string, args: Args)      // commands.execute(command, args)
    | Placed(widget: Widget)                     // launcherCallback(widget)
    | Disposed                                   // the launcher disposed of itself
    | ErrorShown(title: string, error: string)   // showErrorMessage(title, err)
    | Unhandled(error: string)                   // a rejection no handler catches

  const ErrorTitle := "Launcher Error"

  /** The errors raised by calling an `undefined` callback and by reading
      `_p` of an `undefined` translation bundle. */
  const CallbackTypeError := "TypeError: launcherCallback is not a function"
  const TransTypeError := "TypeError: trans is undefined"

  class Launcher {
    var model: Option<seq<Item>>
    var cwd: string
    /** `_cwd2`: the cwd given at construction, which the comparator uses. */
    const initialCwd: string
    const registry: Registry
    /** `Private.keyProperty`, shared by every launcher. */
    const arena: KeyArena
    var knownCategories: seq<string>
    var kernelCategories: seq<string>
    /** Category name to base64 SVG payload. */
    var icons: map<string, string>
    /** Whether `_callback2` and `_trans2` were assigned; when not, they are
        `undefined` in every card that receives them. */
    const callbackAssigned: bool
    const transAssigned: bool
    var pending: bool
    var isDisposed: bool
    var events: seq<Event>

    /** A new launcher holds the built-in category settings until the
        settings registry answers (src/launcher.tsx:38-52, 226-232). Only
        `_cwd2` and `_commands2` are assigned: `_callback2` and `_trans2`
        stay `undefined`. */
    constructor (model: Option<seq<Item>>, cwd: string, registry: Registry, arena: KeyArena)
      ensures this.model == model && this.cwd == cwd && initialCwd == cwd
      ensures this.registry == registry && this.arena == arena
      ensures !callbackAssigned && !transAssigned
      ensures knownCategories == ["Notebook", "Console", "Other"]
      ensures kernelCategories == ["Notebook", "Console"]
      ensures icons == map[]
      ensures !pending && !isDisposed && events == []
    {
      this.model := model;
      this.cwd := cwd;
      initialCwd := cwd;
      this.registry := registry;
      this.arena := arena;
      callbackAssigned := false;
      transAssigned := false;
      knownCategories := ["Notebook", "Console", "Other"];
      kernelCategories := ["Notebook", "Console"];
      icons := map[];
      pending := false;
      isDisposed := false;
      events := [];
    }

    /** The constructor with the two missing assignments made: the options'
        callback becomes `_callback2`, and a translation bundle `_trans2`. */
    constructor Wired(model: Option<seq<Item>>, cwd: string, registry: Registry, arena: KeyArena)
      ensures this.model == model && this.cwd == cwd && initialCwd == cwd
      ensures this.registry == registry && this.arena == arena
      ensures callbackAssigned && transAssigned
      ensures knownCategories == ["Notebook", "Console", "Other"]
      ensures kernelCategories == ["Notebook", "Console"]
      ensures icons == map[]
      ensures !pending && !isDisposed && events == []
    {
      this.model := model;
      this.cwd := cwd;
      initialCwd := cwd;
      this.registry := registry;
      this.arena := arena;
      callbackAssigned := true;
      transAssigned := true;
      knownCategories := ["Notebook", "Console", "Other"];
      kernelCategories := ["Notebook", "Console"];
      icons := map[];
      pending := false;
      isDisposed := false;
      events := [];
    }

    /** The settings arrive: the three values replace the defaults wholesale
        (src/launcher.tsx:45-49). */
    method ApplySettings(known: seq<string>, kernel: seq<string>, icon: map<string, string>)
      modifies this`knownCategories, this`kernelCategories, this`icons
      ensures knownCategories == known && kernelCategories == kernel && icons == icon
    {
      knownCategories := known;
      kernelCategories := kernel;
      icons := icon;
    }

    /** `prerender` (src/launcher.tsx:82-178): group, sort, order, then one
        section per category that has items, each card keyed on first sight. */
    method Prerender() returns (r: Rendering)
      requires arena.Valid()
      modifies arena
      ensures arena.Valid() && Extends(arena.keys, old(arena.keys))
      ensures model.None? ==> r == Null && arena.keys == old(arena.keys) && arena.next == old(arena.next)
      ensures model.Some? ==> arena.keys.Keys <= old(arena.keys).Keys + IdsOf(model.value)
      ensures model.Some? ==> (r.Threw? <==> Throws(model.value, kernelCategories, cwd, registry))
      ensures model.Some? && !r.Threw? ==>
                && r.Rendered?
                && (forall x :: x in model.value ==> x.id in arena.keys)
                && r.tree == Page(cwd, PrerenderSections(model.value, knownCategories, kernelCategories,
                                                         cwd, initialCwd, registry, arena.keys))
    {
      if model.None? {
        return Null;
      }
      var items := model.value;
      var keys, groups := GroupItems(items);
      FirstSeenCategories(items);
      var sorted := SortGroups(keys, groups, initialCwd, registry);
      assert sorted == SortedGroups(items, initialCwd, registry);
      var ordered := OrderCategories(knownCategories, keys);
      SeenGroupsNonEmpty(items, initialCwd, registry);

      var sections := BuildSections(arena, ordered, keys, sorted, kernelCategories, cwd, registry);
      SortedGroupIds(items, ordered, initialCwd, registry);
      if sections.Err? {
        ThrowWitness(items, keys, ordered, sorted, kernelCategories, cwd, initialCwd, registry);
        return Threw(sections.fault);
      }
      NothingThrew(items, keys, ordered, knownCategories, kernelCategories, cwd, initialCwd, registry, arena.keys);
      r := Rendered(Page(cwd, sections.value));
    }

    /** `render` (src/launcher.tsx:183-224): for each known category in
        turn, the prerendered section keyed by it, with the configured icon
        swapped in. */
    method Render() returns (r: Rendering)
      requires arena.Valid()
      modifies arena
      ensures arena.Valid() && Extends(arena.keys, old(arena.keys))
      ensures model.None? ==> r == Null && arena.keys == old(arena.keys) && arena.next == old(arena.next)
      ensures model.Some? ==> arena.keys.Keys <= old(arena.keys).Keys + IdsOf(model.value)
      ensures model.Some? ==> (r.Threw? <==> Throws(model.value, kernelCategories, cwd, registry))
      ensures model.Some? && !r.Threw? ==>
                && r.Rendered?
                && (forall x :: x in model.value ==> x.id in arena.keys)
                && r.tree == Page(cwd, RenderSelect(knownCategories,
                                                    PageChildren(Page(cwd, PrerenderSections(model.value, knownCategories,
                                                      kernelCategories, cwd, initialCwd, registry, arena.keys))),
                                                    icons))
                && (Distinct(knownCategories) ==>
                      r.tree == Page(cwd, KnownSections(model.value, knownCategories, kernelCategories, icons,
                                                        cwd, initialCwd, registry, arena.keys)))
    {
      if model.None? {
        return Null;
      }
      var body := Prerender();
      if body.Threw? {
        return body;
      }
      var categories := SelectKnown(knownCategories, PageChildren(body.tree), icons);
      r := Rendered(Page(cwd, categories));
      if Distinct(knownCategories) {
        RenderKeepsKnownCategories(model.value, knownCategories, kernelCategories, icons, cwd, initialCwd,
                                   registry, arena.keys);
      }
    }

    /** A card's `onclick` (src/launcher.tsx:251-274): ignored while a
        launch is pending; otherwise marks the launcher pending and runs
        the item's command with the launcher's current cwd. */
    method Activate(item: Item)
      modifies this`pending, this`events
      ensures pending
      ensures old(pending) ==> events == old(events)
      ensures !old(pending) ==> events == old(events) + [Executed(item.command, WithCwd(item.args, cwd))]
    {
      if pending {
        return;
      }
      pending := true;
      events := events + [Executed(item.command, WithCwd(item.args, cwd))];
    }

    /** A card's `onkeypress` (src/launcher.tsx:278-282): Enter activates,
        any other key does nothing. */
    method KeyPress(item: Item, key: string)
      modifies this`pending, this`events
      ensures key == "Enter" ==> pending
      ensures key == "Enter" && !old(pending) ==> events == old(events) + [Executed(item.command, WithCwd(item.args, cwd))]
      ensures key != "Enter" || old(pending) ==> events == old(events)
      ensures key != "Enter" ==> pending == old(pending)
    {
      if key == "Enter" {
        Activate(item);
      }
    }

    /** What the `.catch` handler leaves behind: the error dialog, or, when
        the bundle is `undefined`, the `TypeError` of `trans._p`, which
        nothing catches. */
    function Reported(error: string): (r: seq<Event>)
      ensures |r| == 1
      ensures transAssigned <==> r[0].ErrorShown?
      ensures transAssigned ==> r[0] == ErrorShown(ErrorTitle, error)
      ensures !transAssigned ==> r[0] == Unhandled(TransTypeError)
    {
      if transAssigned then [ErrorShown(ErrorTitle, error)] else [Unhandled(TransTypeError)]
    }

    /** The `.catch` handler (src/launcher.tsx:270-273): the launch is no
        longer pending, and the error is reported. */
    method Catch(error: string)
      modifies this`pending, this`events
      ensures !pending
      ensures events == old(events) + Reported(error)
    {
      pending := false;
      events := events + Reported(error);
    }

    /** The command's promise settles (src/launcher.tsx:262-273): the launch
        is no longer pending. A widget is handed to the callback and the
        launcher disposes of itself; an `undefined` callback throws instead,
        and that error reaches the `.catch` handler like a rejection does. */
    method Settle(outcome: Outcome)
      modifies this`pending, this`events, this`isDisposed
      ensures !pending
      ensures outcome.Fulfilled? && outcome.widget.Some? && callbackAssigned ==>
                && isDisposed
                && events == old(events) + [Placed(outcome.widget.value)] + (if old(isDisposed) then [] else [Disposed])
      ensures outcome.Fulfilled? && outcome.widget.Some? && !callbackAssigned ==>
                events == old(events) + Reported(CallbackTypeError) && isDisposed == old(isDisposed)
      ensures outcome.Fulfilled? && outcome.widget.None? ==>
                events == old(events) && isDisposed == old(isDisposed)
      ensures outcome.Rejected? ==>
                events == old(events) + Reported(outcome.error) && isDisposed == old(isDisposed)
    {
      pending := false;
      match outcome
      case Fulfilled(widget) =>
        if widget.Some? {
          if callbackAssigned {
            events := events + [Placed(widget.value)];
            Dispose();
          } else {
            Catch(CallbackTypeError);
          }
        }
      case Rejected(error) =>
        Catch(error);
    }

    /** `dispose`: the first call disposes, later calls do nothing. */
    method Dispose()
      modifies this`isDisposed, this`events
      ensures isDisposed
      ensures events == old(events) + (if old(isDisposed) then [] else [Disposed])
    {
      if !isDisposed {
        isDisposed := true;
        events := events + [Disposed];
      }
    }
  }

  /** Activating twice before the command settles, through any two cards,
      runs only the first one's command (src/launcher.tsx:251-258). */
  method ActivateTwice(launcher: Launcher, first: Item, second: Item)
    requires !launcher.pending
    modifies launcher`pending, launcher`events
    ensures launcher.pending
    ensures launcher.events == old(launcher.events) + [Executed(first.command, WithCwd(first.args, launcher.cwd))]
  {
    launcher.Activate(first);
    launcher.Activate(second);
  }

  /** A launch as the constructor leaves the launcher: whether the command
      yields a widget or fails, nothing is placed, the launcher is not
      disposed and no error is shown; the only trace is an unhandled
      `TypeError`. */
  method LaunchAsWritten(launcher: Launcher, item: Item, outcome: Outcome)
    requires !launcher.pending && !launcher.callbackAssigned && !launcher.transAssigned
    requires outcome.Rejected? || outcome.widget.Some?
    modifies launcher`pending, launcher`events, launcher`isDisposed
    ensures !launcher.pending && launcher.isDisposed == old(launcher.isDisposed)
    ensures launcher.events == old(launcher.events)
              + [Executed(item.command, WithCwd(item.args, launcher.cwd)), Unhandled(TransTypeError)]
  {
    launcher.Activate(item);
    launcher.Settle(outcome);
  }

  /** The same launch from a launcher built by `Wired`: a widget is placed
      and the launcher disposed; a failure is shown under "Launcher Error". */
  method LaunchWired(launcher: Launcher, item: Item, outcome: Outcome)
    requires !launcher.pending && !launcher.isDisposed && launcher.callbackAssigned && launcher.transAssigned
    requires outcome.Rejected? || outcome.widget.Some?
    modifies launcher`pending, launcher`events, launcher`isDisposed
    ensures !launcher.pending
    ensures outcome.Fulfilled? ==>
              && launcher.isDisposed
              && launcher.events == old(launcher.events)
                   + [Executed(item.command, WithCwd(item.args, launcher.cwd)), Placed(outcome.widget.value), Disposed]
    ensures outcome.Rejected? ==>
              && !launcher.isDisposed
              && launcher.events == old(launcher.events)
                   + [Executed(item.command, WithCwd(item.args, launcher.cwd)), ErrorShown(ErrorTitle, outcome.error)]
  {
    launcher.Activate(item);
    launcher.Settle(outcome);
  }

  /** The cards of one section (src/launcher.tsx:150-161): each item gets
      its key, then its card; the first card that throws ends the pass. */
  method BuildCards(arena: KeyArena, group: seq<Item>, kernel: bool, cwd: string, reg: Registry)
    returns (r: Result<seq<Node>>)
    requires arena.Valid()
    modifies arena
    ensures arena.Valid() && Extends(arena.keys, old(arena.keys))
    ensures arena.keys.Keys <= old(arena.keys).Keys + IdsOf(group)
    ensures r.Err? <==> exists x :: x in group && CardThrows(kernel, x, cwd, reg)
    ensures r.Err? ==> exists j :: 0 <= j < |group| && FirstThrow(group, j, kernel, cwd, reg)
                                   && arena.keys.Keys <= old(arena.keys).Keys + IdsOf(group[..j + 1])
    ensures r.Ok? ==> KeysInOrder(group, |group|, old(arena.keys), old(arena.next), arena.keys, arena.next)
    ensures r.Ok? ==> CardsReady(group, kernel, cwd, reg, arena.keys) && r.value == CardsFor(group, kernel, cwd, reg, arena.keys)
  {
    var cards: seq<Node> := [];
    ghost var keys0, next0 := arena.keys, arena.next;
    for j := 0 to |group|
      invariant arena.Valid() && Extends(arena.keys, keys0)
      invariant arena.keys.Keys <= keys0.Keys + IdsOf(group[..j])
      invariant KeysInOrder(group, j, keys0, next0, arena.keys, arena.next)
      invariant CardsReady(group[..j], kernel, cwd, reg, arena.keys)
      invariant cards == CardsFor(group[..j], kernel, cwd, reg, arena.keys)
    {
      var step := CardStep(arena, group, j, kernel, cwd, reg, cards, keys0, next0);
      if step.Err? {
        assert group[j] in group;
        return Err(step.fault);
      }
      cards := step.value;
    }
    assert group[..|group|] == group;
    return Ok(cards);
  }

  /** One turn of the cards loop: the next item gets its key, then its card;
      the cards so far grow by one, or this item is the first that throws. */
  method CardStep(arena: KeyArena, group: seq<Item>, j: int, kernel: bool, cwd: string, reg: Registry,
                  cards: seq<Node>, ghost keys0: map<ItemId, nat>, ghost next0: nat)
    returns (r: Result<seq<Node>>)
    requires 0 <= j < |group| && arena.Valid() && Extends(arena.keys, keys0)
    requires arena.keys.Keys <= keys0.Keys + IdsOf(group[..j])
    requires KeysInOrder(group, j, keys0, next0, arena.keys, arena.next)
    requires CardsReady(group[..j], kernel, cwd, reg, arena.keys)
    requires cards == CardsFor(group[..j], kernel, cwd, reg, arena.keys)
    modifies arena
    ensures arena.Valid() && Extends(arena.keys, keys0)
    ensures arena.keys.Keys <= keys0.Keys + IdsOf(group[..j + 1])
    ensures KeysInOrder(group, j + 1, keys0, next0, arena.keys, arena.next)
    ensures r.Err? ==> FirstThrow(group, j, kernel, cwd, reg)
    ensures r.Ok? ==> CardsReady(group[..j + 1], kernel, cwd, reg, arena.keys)
                      && r.value == CardsFor(group[..j + 1], kernel, cwd, reg, arena.keys)
  {
    ghost var before := arena.keys;
    KeyedPrefix(group, j, kernel, cwd, reg, before);
    var key := NextKey(arena, group, j, keys0, next0);
    var card := CardFor(kernel, group[j], cwd, reg, key);
    if card.Err? {
      return Err(card.fault);
    }
    CardsStable(group[..j], kernel, cwd, reg, before, arena.keys);
    CardsStep(group, j, kernel, cwd, reg, arena.keys);
    r := Ok(cards + [CardView(card.value)]);
  }

  /** `keyProperty.get(item)` for the group's next item, as one step of
      the cards loop. */
  method NextKey(arena: KeyArena, group: seq<Item>, j: int, ghost oldKeys: map<ItemId, nat>, ghost oldNext: nat)
    returns (key: nat)
    requires arena.Valid() && 0 <= j < |group|
    requires arena.keys.Keys <= oldKeys.Keys + IdsOf(group[..j])
    requires KeysInOrder(group, j, oldKeys, oldNext, arena.keys, arena.next)
    requires forall i :: 0 <= i < j ==> group[i].id in arena.keys
    modifies arena
    ensures arena.Valid() && Extends(arena.keys, old(arena.keys))
    ensures group[j].id in arena.keys && key == arena.keys[group[j].id]
    ensures arena.keys.Keys <= oldKeys.Keys + IdsOf(group[..j + 1])
    ensures KeysInOrder(group, j + 1, oldKeys, oldNext, arena.keys, arena.next)
  {
    ghost var before, beforeNext := arena.keys, arena.next;
    key := arena.Get(group[j]);
    IdsOfPrefix(group, j);
    KeysInOrderStep(group, j, oldKeys, oldNext, before, beforeNext, arena.keys, arena.next);
  }

  /** The keys handed out so far are new numbers, and an item first seen
      later in the group gets a larger key than every item before it. */
  ghost predicate KeysInOrder(group: seq<Item>, j: int, oldKeys: map<ItemId, nat>, oldNext: nat,
                              keys: map<ItemId, nat>, next: nat)
    requires 0 <= j <= |group|
  {
    FreshKeys(oldKeys, oldNext, keys, next) && LaterKeysLarger(group, j, oldKeys, keys)
  }

  /** Every key handed out since `oldKeys` is at least the counter then. */
  ghost predicate FreshKeys(oldKeys: map<ItemId, nat>, oldNext: nat, keys: map<ItemId, nat>, next: nat)
  {
    && oldNext <= next
    && (forall id :: id in keys && id !in oldKeys ==> oldNext <= keys[id])
  }

  /** Among the first `j` items, one first seen at `k` has a larger key
      than every item before it. */
  ghost predicate LaterKeysLarger(group: seq<Item>, j: int, oldKeys: map<ItemId, nat>, keys: map<ItemId, nat>)
    requires 0 <= j <= |group|
  {
    forall i, k :: 0 <= i < k < j && FirstSeenAt(group, k, oldKeys) ==>
      group[i].id in keys && group[k].id in keys && keys[group[i].id] < keys[group[k].id]
  }

  /** `keyProperty.get` on the next item keeps the keys in order. */
  lemma KeysInOrderStep(group: seq<Item>, j: int, oldKeys: map<ItemId, nat>, oldNext: nat,
                        before: map<ItemId, nat>, beforeNext: nat, after: map<ItemId, nat>, afterNext: nat)
    requires 0 <= j < |group| && KeysInOrder(group, j, oldKeys, oldNext, before, beforeNext)
    requires before.Keys <= oldKeys.Keys + IdsOf(group[..j])
    requires forall i :: 0 <= i < j ==> group[i].id in before
    requires forall id :: id in before ==> before[id] < beforeNext
    requires group[j].id in before ==> after == before && afterNext == beforeNext
    requires group[j].id !in before ==> after == before[group[j].id := beforeNext] && afterNext == beforeNext + 1
    ensures KeysInOrder(group, j + 1, oldKeys, oldNext, after, afterNext)
  {
    if group[j].id in before {
      NotFirstSeen(group, j, oldKeys, before);
      LaterKeysLargerSeen(group, j, oldKeys, before);
    } else {
      FreshKeysStep(oldKeys, oldNext, before, beforeNext, group[j].id);
      LaterKeysLargerNew(group, j, oldKeys, before, beforeNext);
    }
  }

  lemma FreshKeysStep(oldKeys: map<ItemId, nat>, oldNext: nat, before: map<ItemId, nat>, beforeNext: nat, id: ItemId)
    requires FreshKeys(oldKeys, oldNext, before, beforeNext)
    ensures FreshKeys(oldKeys, oldNext, before[id := beforeNext], beforeNext + 1)
  {
  }

  /** An item that already has a key, other than one from before the pass,
      was seen earlier in the group. */
  lemma NotFirstSeen(group: seq<Item>, j: int, oldKeys: map<ItemId, nat>, keys: map<ItemId, nat>)
    requires 0 <= j < |group|
    requires group[j].id in keys && keys.Keys <= oldKeys.Keys + IdsOf(group[..j])
    ensures !FirstSeenAt(group, j, oldKeys)
  {
    if group[j].id !in oldKeys {
      var m := IdsOfIndex(group[..j], group[j].id);
      assert group[m].id == group[j].id;
    }
  }

  /** An item seen before adds no first sighting. */
  lemma LaterKeysLargerSeen(group: seq<Item>, j: int, oldKeys: map<ItemId, nat>, keys: map<ItemId, nat>)
    requires 0 <= j < |group| && LaterKeysLarger(group, j, oldKeys, keys)
    requires !FirstSeenAt(group, j, oldKeys)
    ensures LaterKeysLarger(group, j + 1, oldKeys, keys)
  {
  }

  /** An id of a list's items is the id of one of its positions. */
  lemma IdsOfIndex(s: seq<Item>, id: ItemId) returns (m: int)
    requires id in IdsOf(s)
    ensures 0 <= m < |s| && s[m].id == id
  {
    var x :| x in s && x.id == id;
    m :| 0 <= m < |s| && s[m] == x;
  }

  /** A new item gets the counter, above every key handed out before. */
  lemma LaterKeysLargerNew(group: seq<Item>, j: int, oldKeys: map<ItemId, nat>, before: map<ItemId, nat>, next: nat)
    requires 0 <= j < |group| && LaterKeysLarger(group, j, oldKeys, before)
    requires group[j].id !in before
    requires forall i :: 0 <= i < j ==> group[i].id in before
    requires forall id :: id in before ==> before[id] < next
    ensures LaterKeysLarger(group, j + 1, oldKeys, before[group[j].id := next])
  {
    var after := before[group[j].id := next];
    forall i, k | 0 <= i < k < j + 1 && FirstSeenAt(group, k, oldKeys)
      ensures group[i].id in after && group[k].id in after && after[group[i].id] < after[group[k].id]
    {
      assert group[i].id in before;
      if k < j {
        assert group[k].id in before;
      }
    }
  }

  /** `group[k]` is the first occurrence of an item that had no key before
      the pass. */
  ghost predicate FirstSeenAt(group: seq<Item>, k: int, keys: map<ItemId, nat>)
    requires 0 <= k < |group|
  {
    group[k].id !in keys && forall m :: 0 <= m < k ==> group[m].id != group[k].id
  }

  /** `group[j]` is the first card of the group that throws. */
  ghost predicate FirstThrow(group: seq<Item>, j: int, kernel: bool, cwd: string, reg: Registry)
    requires 0 <= j < |group|
  {
    CardThrows(kernel, group[j], cwd, reg) && forall i :: 0 <= i < j ==> !CardThrows(kernel, group[i], cwd, reg)
  }

  /** The items before `j` are keyed and render. */
  lemma KeyedPrefix(group: seq<Item>, j: int, kernel: bool, cwd: string, reg: Registry, keys: map<ItemId, nat>)
    requires 0 <= j < |group| && CardsReady(group[..j], kernel, cwd, reg, keys)
    ensures forall i :: 0 <= i < j ==> group[i].id in keys && !CardThrows(kernel, group[i], cwd, reg)
  {
    forall i | 0 <= i < j
      ensures group[i].id in keys && !CardThrows(kernel, group[i], cwd, reg)
    {
      assert group[i] in group[..j];
    }
  }

  /** The ids of a prefix grow one item at a time, within the whole list's. */
  lemma IdsOfPrefix(s: seq<Item>, j: int)
    requires 0 <= j < |s|
    ensures IdsOf(s[..j]) + {s[j].id} == IdsOf(s[..j + 1])
    ensures IdsOf(s[..j + 1]) <= IdsOf(s)
  {
    assert s[..j + 1] == s[..j] + [s[j]];
  }

  /** One more card that renders extends the card list. */
  lemma CardsStep(group: seq<Item>, j: int, kernel: bool, cwd: string, reg: Registry, keys: map<ItemId, nat>)
    requires 0 <= j < |group| && CardsReady(group[..j], kernel, cwd, reg, keys)
    requires group[j].id in keys && !CardThrows(kernel, group[j], cwd, reg)
    ensures CardsReady(group[..j + 1], kernel, cwd, reg, keys)
    ensures CardsFor(group[..j + 1], kernel, cwd, reg, keys)
         == CardsFor(group[..j], kernel, cwd, reg, keys) + [CardView(CardFor(kernel, group[j], cwd, reg, keys[group[j].id]).value)]
  {
    assert group[..j + 1][..j] == group[..j];
  }

  /** The sections loop of `prerender` (src/launcher.tsx:121-165): each
      ordered category that is a dictionary key gets a section headed by
      its first item's icon. */
  method BuildSections(arena: KeyArena, ordered: seq<string>, keys: seq<string>, groups: map<string, seq<Item>>,
                       kernelCats: seq<string>, cwd: string, reg: Registry)
    returns (r: Result<seq<Node>>)
    requires arena.Valid()
    requires forall c :: c in groups <==> c in keys
    requires forall c :: c in groups ==> groups[c] != []
    modifies arena
    ensures arena.Valid() && Extends(arena.keys, old(arena.keys))
    ensures arena.keys.Keys <= old(arena.keys).Keys + GroupIds(ordered, groups)
    ensures r.Err? <==> exists c, x :: c in Within(ordered, keys) && c in groups && x in groups[c] && CardThrows(c in kernelCats, x, cwd, reg)
    ensures r.Ok? ==> Ready(Within(ordered, keys), groups, kernelCats, cwd, reg, arena.keys)
                      && r.value == SectionsFor(Within(ordered, keys), groups, kernelCats, cwd, reg, arena.keys, map[])
  {
    var sections: seq<Node> := [];
    for i := 0 to |ordered|
      invariant arena.Valid() && Extends(arena.keys, old(arena.keys))
      invariant arena.keys.Keys <= old(arena.keys).Keys + GroupIds(ordered[..i], groups)
      invariant Ready(Within(ordered[..i], keys), groups, kernelCats, cwd, reg, arena.keys)
      invariant sections == SectionsFor(Within(ordered[..i], keys), groups, kernelCats, cwd, reg, arena.keys, map[])
    {
      var cat := ordered[i];
      GroupIdsPrefix(ordered, i, groups);
      if cat in groups {
        var group := groups[cat];
        var icon := HeaderIcon(group[0], cwd, reg);
        ghost var before := arena.keys;
        var cards := BuildCards(arena, group, cat in kernelCats, cwd, reg);
        if cards.Err? {
          WithinPrefix(ordered, i, keys);
          return Err(cards.fault);
        }
        SectionsStable(Within(ordered[..i], keys), groups, kernelCats, cwd, reg, before, arena.keys, map[]);
        SectionsStep(ordered, i, keys, groups, kernelCats, cwd, reg, arena.keys);
        var section := SectionNode(cat, icon, cards.value);
        assert section == SectionOf(cat, groups, kernelCats, cwd, reg, arena.keys, map[]);
        sections := sections + [section];
      } else {
        WithinSkip(ordered, i, keys);
      }
    }
    assert ordered[..|ordered|] == ordered;
    r := Ok(sections);
  }

  /** The ids of the groups named by a prefix grow by the next category's
      group, within those of the whole list. */
  lemma GroupIdsPrefix(cats: seq<string>, i: int, groups: map<string, seq<Item>>)
    requires 0 <= i < |cats|
    ensures GroupIds(cats[..i], groups) + (if cats[i] in groups then IdsOf(groups[cats[i]]) else {})
            == GroupIds(cats[..i + 1], groups)
    ensures GroupIds(cats[..i + 1], groups) <= GroupIds(cats, groups)
  {
    assert cats[..i + 1] == cats[..i] + [cats[i]];
  }

  /** One more ordered category that is a key adds its section. */
  lemma SectionsStep(ordered: seq<string>, i: int, keys: seq<string>, groups: map<string, seq<Item>>,
                     kernelCats: seq<string>, cwd: string, reg: Registry, arenaKeys: map<ItemId, nat>)
    requires 0 <= i < |ordered| && ordered[i] in groups && ordered[i] in keys && groups[ordered[i]] != []
    requires Ready(Within(ordered[..i], keys), groups, kernelCats, cwd, reg, arenaKeys)
    requires CardsReady(groups[ordered[i]], ordered[i] in kernelCats, cwd, reg, arenaKeys)
    ensures Ready(Within(ordered[..i + 1], keys), groups, kernelCats, cwd, reg, arenaKeys)
    ensures SectionsFor(Within(ordered[..i + 1], keys), groups, kernelCats, cwd, reg, arenaKeys, map[])
            == SectionsFor(Within(ordered[..i], keys), groups, kernelCats, cwd, reg, arenaKeys, map[])
               + [SectionOf(ordered[i], groups, kernelCats, cwd, reg, arenaKeys, map[])]
  {
    WithinStep(ordered, i, keys);
    SectionsSnoc(Within(ordered[..i], keys), ordered[i], groups, kernelCats, cwd, reg, arenaKeys);
  }

  /** `render`'s nested loop (src/launcher.tsx:197-211). */
  method SelectKnown(known: seq<string>, launcherCategories: seq<Node>, icons: map<string, string>)
    returns (categories: seq<Node>)
    ensures categories == RenderSelect(known, launcherCategories, icons)
  {
    categories := [];
    for i := 0 to |known|
      invariant categories == RenderSelect(known[..i], launcherCategories, icons)
    {
      var category := known[i];
      for j := 0 to |launcherCategories|
        invariant categories == RenderSelect(known[..i], launcherCategories, icons)
                                + Pick(category, launcherCategories[..j], icons)
      {
        var cat := launcherCategories[j];
        assert launcherCategories[..j + 1] == launcherCategories[..j] + [cat];
        if KeyOf(cat) == Some(category) {
          if category in icons {
            cat := ReplaceCategoryIcon(cat, Custom("apps:" + category, icons[category]));
          }
          categories := categories + [cat];
        }
      }
      assert launcherCategories[..|launcherCategories|] == launcherCategories;
      assert known[..i + 1][..i] == known[..i];
    }
    assert known[..|known|] == known;
  }

  /** A card that threw belongs to an item of that category. */
  lemma ThrowWitness(items: seq<Item>, keys: seq<string>, ordered: seq<string>, sorted: map<string, seq<Item>>,
                     kernelCats: seq<string>, cwd: string, sortCwd: string, reg: Registry)
    requires sorted == SortedGroups(items, sortCwd, reg)
    requires exists c, x :: c in Within(ordered, keys) && c in sorted && x in sorted[c] && CardThrows(c in kernelCats, x, cwd, reg)
    ensures Throws(items, kernelCats, cwd, reg)
  {
    var c, x :| c in Within(ordered, keys) && c in sorted && x in sorted[c] && CardThrows(c in kernelCats, x, cwd, reg);
    SortedGroupsPartition(items, sortCwd, reg, x, c);
    assert x in multiset(sorted[c]);
    assert x in items;
  }

  /** Every category that was seen has a non-empty sorted group. */
  lemma SeenGroupsNonEmpty(items: seq<Item>, sortCwd: string, reg: Registry)
    ensures forall c :: c in SortedGroups(items, sortCwd, reg) ==> SortedGroups(items, sortCwd, reg)[c] != []
  {
    FirstSeenCategories(items);
    forall c | c in SortedGroups(items, sortCwd, reg)
      ensures SortedGroups(items, sortCwd, reg)[c] != []
    {
      var x :| x in items && CategoryOf(x) == c;
      SortedGroupsPartition(items, sortCwd, reg, x, c);
    }
  }

  /** When every emitted section's cards rendered, no item throws and every
      item has a key; the emitted categories are `Emitted`. */
  lemma NothingThrew(items: seq<Item>, keys: seq<string>, ordered: seq<string>, known: seq<string>,
                     kernelCats: seq<string>, cwd: string, sortCwd: string, reg: Registry, arenaKeys: map<ItemId, nat>)
    requires keys == FirstSeen(items) && ordered == known + Outside(keys, known)
    requires Ready(Within(ordered, keys), SortedGroups(items, sortCwd, reg), kernelCats, cwd, reg, arenaKeys)
    ensures !Throws(items, kernelCats, cwd, reg)
    ensures forall x :: x in items ==> x.id in arenaKeys
  {
    FirstSeenCategories(items);
    var groups := SortedGroups(items, sortCwd, reg);
    forall x | x in items
      ensures x.id in arenaKeys && !CardThrows(CategoryOf(x) in kernelCats, x, cwd, reg)
    {
      var c := CategoryOf(x);
      assert c in ordered;
      assert c in Within(ordered, keys);
      SortedGroupsPartition(items, sortCwd, reg, x, c);
      assert x in groups[c];
    }
  }
}
