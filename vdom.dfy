/** The rendered tree, reduced to the elements the launcher builds and
    inspects, and `replaceCategoryIcon`'s rewrite of a section. */
module Vdom {
  import opened Items
  import opened Cards

  /** An icon element: resolved from the command registry, or built from an
      override's SVG payload under a name of its own. */
  datatype IconRef =
    | Resolved(icon: Option<string>, iconClass: string)
    | Custom(name: string, svg: string)

  datatype Node =
    | Div(className: string, key: Option<string>, children: seq<Node>)
    | SectionTitle(text: string)   // <h2 className="jp-Launcher-sectionTitle">
    | CwdTitle(text: string)       // <h3>, no class
    | IconView(icon: IconRef, stylesheet: string)
    | CardView(card: Card)

  const SectionClass := "jp-Launcher-section"
  const SectionHeaderClass := "jp-Launcher-sectionHeader"
  const SectionTitleClass := "jp-Launcher-sectionTitle"
  const CardContainerClass := "jp-Launcher-cardContainer"

  /** `props.className` of an element. */
  function ClassName(n: Node): Option<string>
  {
    match n
    case Div(c, _, _) => Some(c)
    case SectionTitle(_) => Some(SectionTitleClass)
    case CwdTitle(_) => None
    case IconView(_, _) => None
    case CardView(_) => Some("jp-LauncherCard")
  }

  /** `key` of an element; only the section divs carry one at page level. */
  function KeyOf(n: Node): Option<string>
  {
    if n.Div? then n.key else None
  }

  /** One category's section (src/launcher.tsx:137-162): keyed by the
      category, a header showing the icon and the category's name, then the
      card container holding the cards in order. */
  function SectionNode(cat: string, icon: IconRef, cards: seq<Node>): (r: Node)
    ensures r.Div? && ClassName(r) == Some(SectionClass) && KeyOf(r) == Some(cat)
    ensures |r.children| == 2 && r.children[0].Div? && r.children[1].Div?
    ensures ClassName(r.children[0]) == Some(SectionHeaderClass)
    ensures IconView(icon, "launcherSection") in r.children[0].children
    ensures SectionTitle(cat) in r.children[0].children
    ensures ClassName(r.children[1]) == Some(CardContainerClass) && r.children[1].children == cards
  {
    Div(SectionClass, Some(cat), [
      Div(SectionHeaderClass, None, [IconView(icon, "launcherSection"), SectionTitle(cat)]),
      Div(CardContainerClass, None, cards)])
  }

  function CwdHeader(cwd: string): Node
  {
    Div("jp-Launcher-cwd", None, [CwdTitle(cwd)])
  }

  /** The body and content divs around the cwd header and the sections
      (src/launcher.tsx:168-177). Its content, as `render` reads it back,
      is the cwd header followed by the sections. */
  function Page(cwd: string, sections: seq<Node>): (r: Node)
    ensures r.Div? && |r.children| == 1 && r.children[0].Div?
    ensures r.children[0].children == [CwdHeader(cwd)] + sections
  {
    Div("jp-Launcher-body", None, [Div("jp-Launcher-content", None, [CwdHeader(cwd)] + sections)])
  }

  /** `launcherBody.props.children.props.children`. */
  function PageChildren(body: Node): (r: seq<Node>)
    requires body.Div? && |body.children| == 1 && body.children[0].Div?
  {
    body.children[0].children
  }

  /** The grandchild rewrite: in the section header every child but the
      title becomes the new icon. */
  function ReplaceInHeader(child: Node, icon: IconRef): (r: Node)
    ensures ClassName(r) == ClassName(child) && KeyOf(r) == KeyOf(child)
  {
    match child
    case Div(c, k, gs) =>
      if c == SectionHeaderClass then
        Div(c, k, seq(|gs|, j requires 0 <= j < |gs| =>
          if ClassName(gs[j]) != Some(SectionTitleClass) then IconView(icon, "launcherSection") else gs[j]))
      else child
    case _ => child
  }

  /** `replaceCategoryIcon`: the section keeps its class, key and children;
      inside its header, titles are kept and everything else becomes `icon`. */
  function ReplaceCategoryIcon(category: Node, icon: IconRef): (r: Node)
    requires category.Div?
    ensures r.Div? && r.className == category.className && r.key == category.key
    ensures |r.children| == |category.children|
    ensures forall i :: 0 <= i < |r.children| && ClassName(category.children[i]) != Some(SectionHeaderClass) ==>
              r.children[i] == category.children[i]
    ensures forall i :: 0 <= i < |r.children| && ClassName(category.children[i]) == Some(SectionHeaderClass) ==>
              var h, h' := category.children[i], r.children[i];
              h.Div? && h'.Div? && h'.className == h.className && h'.key == h.key &&
              |h'.children| == |h.children| &&
              forall j :: 0 <= j < |h.children| ==>
                h'.children[j] == if ClassName(h.children[j]) == Some(SectionTitleClass) then h.children[j]
                                  else IconView(icon, "launcherSection")
  {
    Div(category.className, category.key,
        seq(|category.children|, i requires 0 <= i < |category.children| => ReplaceInHeader(category.children[i], icon)))
  }

  /** On a section the rewrite swaps exactly the header icon. */
  lemma {:induction false} ReplaceOnSection(cat: string, before: IconRef, after: IconRef, cards: seq<Node>)
    ensures ReplaceCategoryIcon(SectionNode(cat, before, cards), after) == SectionNode(cat, after, cards)
  {
    var s := SectionNode(cat, before, cards);
    var r := ReplaceCategoryIcon(s, after);
    var header := Div(SectionHeaderClass, None, [IconView(after, "launcherSection"), SectionTitle(cat)]);
    assert r.children[0] == header;
    assert r.children[1] == s.children[1];
    assert r.children == SectionNode(cat, after, cards).children;
  }
}
