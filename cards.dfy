/** `Card`: the descriptor one launcher item is rendered as. */
module Cards {
  import opened Items
  import Collation

  /** What a card shows in its icon slot. */
  datatype CardIcon =
    | KernelImage(url: string)          // <img src={item.kernelIconUrl}>
    | KernelGlyph(letter: string)       // the label's first letter, upper-cased
    | CommandIcon(icon: Option<string>, iconClass: string)

  datatype Card = Card(
    item: Item,
    key: nat,
    title: string,
    text: string,
    category: string,
    args: Args,
    icon: CardIcon)

  /** What rendering a card can throw: `label[0].toUpperCase()` reads a
      property of `undefined` when the label is empty. */
  datatype Fault = GlyphOfEmptyLabel

  datatype Result<T> = Ok(value: T) | Err(fault: Fault)

  /** The command's icon, dropped when it merely aliases the icon class. */
  function UsableIcon(icon: Option<string>, iconClass: string): (r: Option<string>)
    ensures r.None? <==> icon.None? || icon.value == iconClass
    ensures r.Some? ==> r == icon
  {
    if icon == Some(iconClass) then None else icon
  }

  /** A kernel card without a truthy `kernelIconUrl` whose label is empty
      throws while it is rendered. */
  predicate CardThrows(kernel: bool, item: Item, cwd: string, reg: Registry)
  {
    kernel && !Truthy(item.kernelIconUrl) && reg.labelOf(item.command, WithCwd(item.args, cwd)) == ""
  }

  /** `Card(kernel, item, launcher, ...)` with the key `keyProperty` gave
      the item: it fails exactly when the glyph would be read from an empty
      label. */
  function CardFor(kernel: bool, item: Item, cwd: string, reg: Registry, key: nat): (r: Result<Card>)
    ensures r.Err? <==> CardThrows(kernel, item, cwd, reg)
  {
    var args := WithCwd(item.args, cwd);
    var caption := reg.captionOf(item.command, args);
    var text := reg.labelOf(item.command, args);
    var title := if kernel then text else if caption != "" then caption else text;
    var iconClass := reg.iconClassOf(item.command, args);
    var icon := UsableIcon(reg.iconOf(item.command, args), iconClass);
    if kernel && !Truthy(item.kernelIconUrl) && text == "" then
      Err(GlyphOfEmptyLabel)
    else
      var view :=
        if kernel then
          if Truthy(item.kernelIconUrl) then KernelImage(item.kernelIconUrl.value)
          else KernelGlyph([Collation.Upper(text[0])])
        else CommandIcon(icon, iconClass);
      Ok(Card(item, key, title, text, CategoryOf(item), args, view))
  }

  /** What a rendered card shows: the item's own command, args with the
      launcher's cwd, the label as text, the caption as the title of a
      non-kernel card when it is not empty, and for the icon the kernel's
      image, the label's first letter upper-cased, or the command's icon
      unless it aliases the icon class. */
  lemma CardForFields(kernel: bool, item: Item, cwd: string, reg: Registry, key: nat)
    ensures var r := CardFor(kernel, item, cwd, reg, key);
      r.Ok? ==>
      var args := WithCwd(item.args, cwd);
      var text := reg.labelOf(item.command, args);
      var caption := reg.captionOf(item.command, args);
      var c := r.value;
      && c.item == item && c.key == key && c.text == text && c.args == args
      && c.category == CategoryOf(item)
      && (kernel ==> c.title == text)
      && (!kernel && caption != "" ==> c.title == caption)
      && (!kernel && caption == "" ==> c.title == text)
      && (kernel && Truthy(item.kernelIconUrl) ==> c.icon == KernelImage(item.kernelIconUrl.value))
      && (kernel && !Truthy(item.kernelIconUrl) ==>
            text != "" && c.icon == KernelGlyph([Collation.Upper(text[0])]))
      && (!kernel ==> c.icon.CommandIcon? && c.icon.iconClass == reg.iconClassOf(item.command, args)
                      && c.icon.icon == UsableIcon(reg.iconOf(item.command, args), c.icon.iconClass)
                      && (c.icon.icon.None? <==> reg.iconOf(item.command, args) in {None, Some(c.icon.iconClass)}))
  {
  }
}
