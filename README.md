# Apps launcher: grouping, ordering and activation

A model of the launcher panel in `src/launcher.tsx` of the JupyterLab apps
launcher extension, with proofs. The panel takes the launcher items (a
command, its arguments, an optional category, rank and kernel icon URL). It
groups them by category and sorts each group by rank and then by display
label. It lays out one section per category: `prerender` emits the known
categories first and then any others; `render` keeps only the known ones and
swaps in configured section icons. Each item becomes a card. Clicking a card
runs its command, guarded by a single pending flag. The launcher's
constructor never assigns the callback and the translation bundle its cards
receive. So, as written, neither a widget nor a failure has its intended
effect: both end in an unhandled `TypeError` (see "## Findings").

Modules, in dependency order:

- `Collation` (`collation.dfy`): the string order labels are compared by.
- `Seqs` (`seqs.dfy`): duplicate-freedom and order-preserving filters on
  lists of names.
- `Items` (`items.dfy`): items, ranks, command arguments, and the command
  registry's lookups as plain function values.
- `Sorting` (`sorting.dfy`): `Array.prototype.sort`, as a stable insertion
  sort.
- `Private` (`private.dfy`): `sortCmp`, `createItem`, and the key counter
  behind `keyProperty`, as a class.
- `Cards` (`cards.dfy`): the card one item is rendered as.
- `Vdom` (`vdom.dfy`): the element tree the panel builds, and
  `replaceCategoryIcon`.
- `Grouping` (`grouping.dfy`): the first stages of `prerender`, as loops.
- `Sections` (`sections.dfy`): what `prerender` and `render` produce, as
  functions, and the theorems relating the two passes.
- `LauncherPanel` (`launcher.dfy`): the `Launcher` class, with its settings,
  its two rendering passes, the card handlers and disposal.

Modelling decisions:

- **Object identity.** An item's identity, which the key property attaches
  to, is its `id` field.
- **The two cwds.**
  - The comparator uses the cwd captured at construction (`_cwd2`,
    `initialCwd`).
  - Cards, section headers and the click handler read the launcher's
    current `cwd`.
- **Exceptions.** A kernel card with no truthy `kernelIconUrl` and an empty
  label throws, because `label[0]` is `undefined`. That exception leaves
  `prerender` and `render`; the model returns `Threw`. The card's key is
  handed out before the throw, because the element's props are evaluated
  before its children.
- **Flattened children.** `React.Children.forEach` flattens
  `[cwd header, sections]`, so the page's content is one flat list whose
  first element is the cwd header.
- **Unranked items.** `sortCmp` falls back to the labels when either rank
  is undefined, so an unranked item need not sort last.
  `Private.SortCmpCycleWithUnrankedItem` shows the cycle this allows, so the
  ordering theorems assume every rank is defined. Items made by
  `createItem` always have a rank (`Infinity` when none was given).
- **The completion handler.** The `.then` handler clears the pending flag.
  For a widget it calls `_callback2` and then `dispose`, without checking
  whether the launcher is already disposed; `dispose` does nothing the
  second time.
  - `_callback2` and `_trans2` are declared (src/launcher.tsx:227-228), but
    the constructor (38-52) assigns neither, so every card receives
    `undefined` for both.
  - As written, calling the callback throws a `TypeError`. The `.catch`
    chained after `.then` receives it, clears the flag again, and throws
    again reading `trans._p`. That rejection is unhandled.
  - A rejected command ends the same way: no error dialog is shown.
  - The class records whether the two fields are assigned.
    `Launcher.constructor` is the code as written; `Launcher.Wired` is the
    constructor with the two assignments made.

## Model

| member | source | states |
|---|---|---|
| Collation.Compare | src/launcher.tsx:380 | `localeCompare` stand-in: the result is -1, 0 or 1, and 0 exactly when the labels are equal |
| Collation.CompareAntisymmetric | src/launcher.tsx:380 | swapping the labels negates the comparison |
| Collation.CompareTransitive | src/launcher.tsx:380 | "sorts no later than" on labels is transitive |
| Collation.Upper | src/launcher.tsx:307 | `toUpperCase` on a character: lower-case ASCII letters map to the matching capital, and every other character is unchanged |
| Seqs.Outside | src/launcher.tsx:115-119 | the names not in the known list, in their own order |
| Seqs.Within | src/launcher.tsx:122-125 | the names that have a group, in list order: membership is "in the list and among the keys" |
| Items.WithCwd | src/launcher.tsx:245 | `{ ...args, cwd }`: the keys gain `cwd`, `cwd` maps to the launcher's cwd, and every other key keeps its value |
| Items.CategoryOf | src/launcher.tsx:90 | `item.category \|\| 'Other'`: never empty; the item's own category when it is truthy, otherwise "Other" |
| Sorting.Sort | src/launcher.tsx:98-102 | the sorted list is a permutation of the input, of the same length |
| Sorting.SortSorted | src/launcher.tsx:98-102 | under a total preorder the result is sorted by the comparator |
| Sorting.SortStable | src/launcher.tsx:98-102 | the elements that tie with any given element keep their input order |
| Private.SortCmp | src/launcher.tsx:364-381 | -1 or 1 by rank when both ranks are defined and differ, whatever the labels; otherwise the label comparison |
| Private.SortCmpAntisymmetric | src/launcher.tsx:364-381 | `sign(cmp(a,b)) = -sign(cmp(b,a))` for all items |
| Private.SortCmpTransitive | src/launcher.tsx:373-380 | with all three ranks defined, "sorts no later than" is transitive |
| Private.SortCmpCycleWithUnrankedItem | src/launcher.tsx:373-380 | three items, one unranked, that the comparator orders in a cycle |
| Private.ItemOrderTotalPreorder | src/launcher.tsx:364-381 | with every rank defined, the comparator is a total preorder |
| Private.SortItems | src/launcher.tsx:97-103 | a sorted category is a permutation of the category |
| Private.SortItemsOrdered | src/launcher.tsx:97-103 | with every rank defined, earlier items have a lower rank, or the same rank and a label that sorts no later |
| Private.SortItemsStable | src/launcher.tsx:97-103 | items tying with a given one in rank and label keep their source order |
| Private.CreateItem | src/launcher.tsx:351-359 | keeps command, args and icon URL; the category becomes a string with the same grouping category; the rank is kept, or `Infinity` when absent |
| Private.CreatedUnrankedSortsLast | src/launcher.tsx:357 | an item `createItem` gave no rank sorts after every finite rank, in both argument orders |
| Private.KeyArena.constructor | src/launcher.tsx:335 | the counter starts at 0, with no keys handed out |
| Private.KeyArena.Get | src/launcher.tsx:340-346 | a seen item keeps its key and the counter stays; a new item gets the counter's value and the counter increments; the counter stays equal to the number of items seen, and keys stay distinct and below it |
| Cards.UsableIcon | src/launcher.tsx:286-288 | the icon is absent exactly when there is none or it equals the icon class |
| Cards.CardFor | src/launcher.tsx:243-321 | rendering a card throws exactly for a kernel card with no truthy icon URL and an empty label |
| Cards.CardForFields | src/launcher.tsx:243-321 | the card's args (with `cwd`), text, category and key; the title (label for kernel cards, else the non-empty caption, else the label); the icon (kernel image, upper-cased first letter, or the command's icon with its icon class, dropped exactly when it aliases the class) |
| Vdom.ReplaceInHeader | src/launcher.tsx:60-75 | rewriting one child keeps its class name and key |
| Vdom.ReplaceCategoryIcon | src/launcher.tsx:55-79 | the section keeps class, key and children, except inside headers; a header keeps its own class and key, its titles stay, and every other grandchild becomes the new icon |
| Vdom.ReplaceOnSection | src/launcher.tsx:55-79 | on a section built by `prerender`, the rewrite swaps exactly the header icon |
| Vdom.SectionNode | src/launcher.tsx:137-162 | a section is keyed by its category; its header holds the icon and the category title, and its card container holds the cards in order |
| Vdom.Page | src/launcher.tsx:168-177 | the body wraps one content div, whose children, as `render` reads them back, are the cwd header followed by the sections |
| Grouping.GroupItems | src/launcher.tsx:88-95 | the dictionary's keys are the categories in first-seen order; each category's list is its items in source order |
| Grouping.FirstSeenCategories | src/launcher.tsx:88-95 | the key list is duplicate-free and holds exactly the categories some item has |
| Grouping.MembersCount | src/launcher.tsx:88-95 | every item is in its own category's group, as often as in the input, and in no other group |
| Grouping.MembersConcat | src/launcher.tsx:89-95 | grouping preserves source order: earlier items come before later ones |
| Grouping.MembersOfUnseen | src/launcher.tsx:91-93 | a category that was never seen has no members |
| Grouping.SortGroups | src/launcher.tsx:97-103 | every group is replaced by its sorted version, and the keys are unchanged |
| Grouping.OrderCategories | src/launcher.tsx:111-119 | the ordered list is the known list, then the keys not in it |
| Grouping.EmittedOrder | src/launcher.tsx:111-125 | sections come out as the known categories that have items, then the other observed ones; a category gets a section iff it has items |
| Grouping.EmittedDistinct | src/launcher.tsx:111-125 | with a duplicate-free known list, no category gets two sections |
| Sections.HeaderIcon | src/launcher.tsx:126-134 | a section's icon is its sorted group's first item's command icon (args with the current cwd), with that item's icon class; the icon is dropped exactly when it is absent or aliases the icon class |
| Sections.CardsFor | src/launcher.tsx:148-159 | one card per item of the group |
| Sections.CardsForAt | src/launcher.tsx:148-159 | the i-th card shows the i-th item, under that item's key |
| Sections.SectionsFor | src/launcher.tsx:122-165 | one section per category |
| Sections.SectionsForAt | src/launcher.tsx:122-165 | the i-th section is the i-th category's section |
| Sections.SectionKeysOfSections | src/launcher.tsx:138 | the sections' keys are their categories, in order |
| Sections.CardsStable | src/launcher.tsx:299 | handing out more keys leaves cards already built unchanged |
| Sections.SortedGroupsPartition | src/launcher.tsx:88-103 | after sorting, every item is in its own category's group as often as in the input, and in no other |
| Sections.SortedGroupIds | src/launcher.tsx:88-103 | the sorted groups hold only items of the model |
| Sections.GroupsReady | src/launcher.tsx:122-126 | when no card throws, every observed category has a non-empty group whose cards render |
| Sections.DressSection | src/launcher.tsx:204-207 | swapping the icon on a prerendered section gives the section with the configured icon |
| Sections.PickDistinct | src/launcher.tsx:202-210 | among sections with distinct keys, the inner loop yields the one keyed by the category, dressed, or nothing |
| Sections.RenderSelectKeyed | src/launcher.tsx:201-211 | over a keyless header and distinctly keyed nodes, render yields the dressed node of each known name that has one, in known order |
| Sections.RenderSelectSections | src/launcher.tsx:201-211 | over distinct sections, render keeps each known category's section, in known order, with its configured icon |
| Sections.PrerenderOrder | src/launcher.tsx:111-165 | prerender's section keys are the known categories that have items, then the other observed ones |
| Sections.KnownOrder | src/launcher.tsx:201-211 | render's section keys are the known categories that have items, in known order |
| Sections.RenderKeepsKnownCategories | src/launcher.tsx:201-211 | render over prerender's page is exactly the known categories' sections; unknown ones are dropped, and a section's icon is replaced iff the category has one configured |
| LauncherPanel.Launcher.constructor | src/launcher.tsx:38-52 | a new launcher has the default known and kernel categories and no icon overrides; it is neither pending nor disposed; its callback and translation bundle are unassigned |
| LauncherPanel.Launcher.Wired | src/launcher.tsx:38-52 | the same launcher with the callback and translation bundle assigned |
| LauncherPanel.Launcher.ApplySettings | src/launcher.tsx:45-49 | the loaded settings replace all three fields |
| LauncherPanel.Launcher.Prerender | src/launcher.tsx:82-178 | null without a model, with the key counter untouched; throws iff some kernel card would; keys are handed out only to the model's items and earlier keys are kept; otherwise every item has a key and the page is the cwd header plus the prerendered sections |
| LauncherPanel.Launcher.Render | src/launcher.tsx:184-224 | null without a model, with the key counter untouched; throws iff prerender does; keys only for the model's items; otherwise the known sections with their icons (exactly the known categories' sections when the known list is duplicate-free) |
| LauncherPanel.Launcher.Activate | src/launcher.tsx:251-262 | while pending, nothing happens; otherwise pending is set and the command runs once, with its args and the current cwd |
| LauncherPanel.Launcher.KeyPress | src/launcher.tsx:278-282 | Enter activates; any other key changes nothing |
| LauncherPanel.Launcher.Catch | src/launcher.tsx:270-273 | pending is cleared; the error is shown under "Launcher Error", or, with no translation bundle, one unhandled `TypeError` is left instead |
| LauncherPanel.Launcher.Settle | src/launcher.tsx:263-273 | pending is cleared; with a callback, a widget is handed to it and the launcher is disposed; without one, the `TypeError` goes to the catch handler; a rejection goes to the catch handler; a non-widget value does nothing else |
| LauncherPanel.Launcher.Dispose | src/launcher.tsx:267 | disposing is recorded once; later calls change nothing |
| LauncherPanel.LaunchAsWritten | src/launcher.tsx:251-273 | launching from a launcher as the constructor leaves it runs the command and then leaves only an unhandled `TypeError`, whether a widget or an error comes back: nothing placed, not disposed, no dialog |
| LauncherPanel.LaunchWired | src/launcher.tsx:251-273 | launching from a wired launcher places the widget and disposes the launcher, or shows the error under "Launcher Error" |
| LauncherPanel.ActivateTwice | src/launcher.tsx:251-258 | two activations before settling run only the first command |
| LauncherPanel.BuildCards | src/launcher.tsx:148-159 | keys go only to the group's items, and earlier keys are kept; the pass throws iff some card throws, and then it stops at the first throwing card, having keyed only the items up to it; otherwise the cards are the group's cards, new keys are at least the counter's old value, and an item first seen later in the group gets a larger key than every item before it |
| LauncherPanel.CardStep | src/launcher.tsx:150-158 | one turn of the loop: the next item is keyed, then either its card extends the cards so far or it is the first card that throws |
| LauncherPanel.NextKey | src/launcher.tsx:299 | `keyProperty.get` on the next item keeps the keys confined to the items so far and in first-seen order |
| LauncherPanel.BuildSections | src/launcher.tsx:122-165 | keys only for the items of the ordered categories' groups; the pass throws iff some emitted category's card throws; otherwise one section per ordered category that has a group |
| LauncherPanel.SelectKnown | src/launcher.tsx:197-211 | the nested loop computes the render selection |
| LauncherPanel.ThrowWitness | src/launcher.tsx:307 | a card that threw belongs to an item of the list |
| LauncherPanel.NothingThrew | src/launcher.tsx:122-165 | when every emitted section rendered, no item throws and every item has a key |

## Left out

- `src/index.ts` is not part of this model. It covers plugin registration, the logo injected into the top bar, command-palette wiring and layout signal handlers.
- Settings loading is asynchronous and may never finish. `ApplySettings` may be called at any point, or never. Settings of the wrong type are not modelled.
- React elements, `LabIcon` and `classes(...)`:
  - sections and cards are a small `Node` datatype;
  - the icon class is stored without the `jp-Icon-cover` class added;
  - an override icon carries its base64 payload undecoded, so `atob` failing on a malformed payload is not modelled.
- `cat.key in this._icon` also matches names inherited by a plain object, such as `constructor`. The model tests map membership only.
- Translation of the error title is not modelled. A launcher with a translation bundle shows the untranslated "Launcher Error", which is what the null translator returns.
- The `TypeError` messages are placeholders; engines word them differently.
- The command registry, `commands.execute`, `showErrorMessage` and the launcher callback are outside the model:
  - registry lookups are plain, deterministic functions;
  - the other three are recorded as events;
  - an exception thrown by an assigned callback is not modelled; the `TypeError` of the unassigned one is.
- Promise scheduling: a command's outcome arrives through an explicit `Settle` call, which the model does not tie to an earlier `Activate`.
- `Widget.dispose`'s other effects are not modelled: signals, DOM removal and disposing the children.
- Ranks are integers plus `Infinity`. Fractional values, `NaN` and `-Infinity` are not modelled.
- `localeCompare` is modelled as code-point order (Dafny characters are Unicode scalar values, not UTF-16 code units), and its result as -1, 0 or 1.
- `for ... in` lists integer-like property names first. The model assumes first-seen order for every category name.
- Collation.Upper: upper-cases only ASCII letters, not the whole of Unicode.
- Sorting.Sort: models `Array.prototype.sort` as a stable insertion sort. For a comparator that is not a total preorder (unranked items mixed with ranked ones), the engine may order differently.
- Private.SortItemsOrdered: proved only when every rank in the group is defined; see `Private.SortCmpCycleWithUnrankedItem` for why.
- Sections.RenderKeepsKnownCategories: assumes a duplicate-free known list. With a repeated name, `prerender` emits that category once per repetition and `render` picks every copy once per repetition. `LauncherPanel.Launcher.Render` still describes that case through `Sections.RenderSelect`.

## Findings

| source | as written | input that shows it | evidently intended | confidence | as-written member | corrected member |
|---|---|---|---|---|---|---|
| src/launcher.tsx:38-52, 227-228, 263-273 | the constructor never assigns `_callback2` or `_trans2`, so the `.then` handler throws calling `undefined` and the `.catch` handler throws reading `trans._p`: no widget is placed, the launcher is not disposed, no error is shown | any click on a card whose command resolves to a widget, or fails | the constructor stores the options' callback and a translation bundle, so a widget is placed and the launcher disposed, and a failure is shown under "Launcher Error" | high; not executed | LauncherPanel.LaunchAsWritten | LauncherPanel.LaunchWired |
