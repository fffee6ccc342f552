/** Launcher items and the command-registry lookups made on them. */
module Items {

  datatype Option<+T> = None | Some(value: T)

  /** The command arguments are a JSON object; only its scalar values are modelled. */
  datatype Json = JNull | JBool(b: bool) | JNumber(n: int) | JString(s: string)

  type Args = map<string, Json>

  /** A rank is a number; `createItem` supplies `Infinity` when it is absent. */
  datatype Rank = Finite(n: int) | Infinity

  /** The object identity of an item record, which the key property is attached to. */
  type ItemId = nat

  /** One launcher item (`ILauncher.IItemOptions`): `category` and `rank` are optional. */
  datatype Item = Item(
    id: ItemId,
    command: string,
    args: Args,
    category: Option<string>,
    rank: Option<Rank>,
    kernelIconUrl: Option<string>)

  /** The command registry's lookups, given a command and its arguments. */
  datatype Registry = Registry(
    labelOf: (string, Args) -> string,
    captionOf: (string, Args) -> string,
    iconClassOf: (string, Args) -> string,
    iconOf: (string, Args) -> Option<string>)

  /** `{ ...args, cwd: cwd }`: the arguments with `cwd` overwritten. */
  function WithCwd(args: Args, cwd: string): (r: Args)
    ensures r.Keys == args.Keys + {"cwd"}
    ensures r["cwd"] == JString(cwd)
    ensures forall k :: k in args && k != "cwd" ==> r[k] == args[k]
  {
    args["cwd" := JString(cwd)]
  }

  /** JavaScript truthiness of an optional string: present and non-empty. */
  predicate Truthy(s: Option<string>)
  {
    s.Some? && s.value != ""
  }

  /** `item.category || 'Other'`: the category an item is grouped and tagged under. */
  function CategoryOf(item: Item): (c: string)
    ensures c != ""
    ensures c == "Other" <==> !Truthy(item.category) || item.category.value == "Other"
    ensures c != "Other" ==> item.category == Some(c)
  {
    if Truthy(item.category) then item.category.value else "Other"
  }
}
