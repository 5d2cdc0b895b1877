/** The item tree shared by the dropdown menu, the context menu and the
    menubar, and the recursive rendering the three have in common. The only
    difference between them is whether a separator shows its label: the
    dropdown and context menus put it in a heading before the line, the
    menubar drops it. */
module MenuTree {
  import opened Common

  /** `type?: 'item' | 'separator'`; a missing type is an item. */
  datatype Kind = Item | Separator

  /** One entry of `items`. A missing `children` list is the empty list: both
      are rendered as a leaf. */
  datatype MenuItem = MenuItem(
    kind: Kind, icon: Node, text: Node, shortcut: Node, disabled: bool,
    children: seq<MenuItem>, onClick: Option<Handler>)

  /** What one entry renders to. A submenu trigger carries no `disabled` flag
      and no select handler; only a leaf has them. */
  datatype MenuNode =
    | Heading(text: Node)
    | Line
    | Submenu(icon: Node, text: Node, content: seq<MenuNode>)
    | Leaf(icon: Node, text: Node, shortcut: Node, disabled: bool, onSelect: Option<Handler>)

  /** The item render function (`DropDownMenuItemRender` and its siblings). */
  function RenderItem(item: MenuItem, labelledSeparators: bool): seq<MenuNode>
    decreases item, 1
  {
    if item.kind == Separator then
      (if labelledSeparators && Truthy(item.text) then [Heading(item.text)] else []) + [Line]
    else if |item.children| > 0 then
      [Submenu(WhenTruthy(item.icon), item.text, RenderItems(item.children, labelledSeparators))]
    else
      [Leaf(WhenTruthy(item.icon), item.text, WhenTruthy(item.shortcut), item.disabled, item.onClick)]
  }

  /** `items.map(...)`, with each item's fragment spliced in place. */
  function RenderItems(items: seq<MenuItem>, labelledSeparators: bool): seq<MenuNode>
    decreases items, 0
  {
    if items == [] then []
    else RenderItem(items[0], labelledSeparators) + RenderItems(items[1..], labelledSeparators)
  }

  /** One item's classification: a separator takes precedence over children,
      handler and flag and yields a line, preceded by a heading only when
      labelled separators are on and the label is truthy; non-empty children
      give one submenu whose content is the children rendered in order;
      otherwise one leaf carrying the item's flag and handler, with icon and
      shortcut only when given. */
  lemma RenderItemSpec(item: MenuItem, labelledSeparators: bool)
    ensures var r := RenderItem(item, labelledSeparators);
      && (item.kind == Separator ==>
            r == if labelledSeparators && Truthy(item.text) then [Heading(item.text), Line] else [Line])
      && (item.kind == Item && |item.children| > 0 ==>
            |r| == 1 && r[0].Submenu? && r[0].text == item.text
            && r[0].content == RenderItems(item.children, labelledSeparators)
            && (r[0].icon.Some? <==> Truthy(item.icon)))
      && (item.kind == Item && |item.children| == 0 ==>
            |r| == 1 && r[0].Leaf? && r[0].text == item.text
            && r[0].disabled == item.disabled && r[0].onSelect == item.onClick
            && (r[0].icon.Some? <==> Truthy(item.icon))
            && (r[0].shortcut.Some? <==> Truthy(item.shortcut)))
  {
  }

  /** Rendering a list renders its parts one after the other: order is kept. */
  lemma {:induction false} RenderItemsAppend(a: seq<MenuItem>, b: seq<MenuItem>, labelledSeparators: bool)
    ensures RenderItems(a + b, labelledSeparators)
            == RenderItems(a, labelledSeparators) + RenderItems(b, labelledSeparators)
  {
    if a == [] {
      assert a + b == b;
    } else {
      assert (a + b)[1..] == a[1..] + b;
      RenderItemsAppend(a[1..], b, labelledSeparators);
    }
  }

  /** A separator whose label is shown. */
  predicate ShowsHeading(item: MenuItem, labelledSeparators: bool) {
    item.kind == Separator && labelledSeparators && Truthy(item.text)
  }

  function HeadingCount(items: seq<MenuItem>, labelledSeparators: bool): nat {
    if items == [] then 0
    else (if ShowsHeading(items[0], labelledSeparators) then 1 else 0)
         + HeadingCount(items[1..], labelledSeparators)
  }

  /** Each entry gives exactly one node at its level, plus one heading per
      labelled separator that shows its label. */
  lemma {:induction false} RenderItemsLength(items: seq<MenuItem>, labelledSeparators: bool)
    ensures |RenderItems(items, labelledSeparators)| == |items| + HeadingCount(items, labelledSeparators)
  {
    if items != [] {
      RenderItemsLength(items[1..], labelledSeparators);
    }
  }

  /** Without labelled separators, the entries and the nodes correspond one to one. */
  lemma {:induction false} RenderItemsUnlabelled(items: seq<MenuItem>)
    ensures var r := RenderItems(items, false);
      |r| == |items| && forall k :: 0 <= k < |items| ==> [r[k]] == RenderItem(items[k], false)
  {
    if items != [] {
      RenderItemsUnlabelled(items[1..]);
      var r := RenderItems(items, false);
      assert r == RenderItem(items[0], false) + RenderItems(items[1..], false);
      forall k | 0 <= k < |items| ensures [r[k]] == RenderItem(items[k], false) {
        if k > 0 { assert items[k] == items[1..][k - 1]; }
      }
    }
  }
}
