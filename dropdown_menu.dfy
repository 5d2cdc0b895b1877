/** The dropdown menu (`DropdownMenu`): the item tree rendered inside one
    group, separators with their label as a heading. */
module DropdownMenu {
  import opened Common
  import opened MenuTree

  /** `DropDownMenuItemRender`: a separator shows its truthy label as a heading. */
  function ItemRender(item: MenuItem): (r: seq<MenuNode>)
    ensures item.kind == Separator ==>
      r == if Truthy(item.text) then [Heading(item.text), Line] else [Line]
    ensures item.kind == Item && |item.children| > 0 ==>
      r == [Submenu(WhenTruthy(item.icon), item.text, RenderItems(item.children, true))]
    ensures item.kind == Item && |item.children| == 0 ==>
      r == [Leaf(WhenTruthy(item.icon), item.text, WhenTruthy(item.shortcut), item.disabled, item.onClick)]
  {
    RenderItem(item, true)
  }

  /** The menu's single group: the top-level items rendered in order, one
      node each plus one heading per labelled separator. */
  function Group(items: seq<MenuItem>): (group: seq<MenuNode>)
    ensures |group| == |items| + HeadingCount(items, true)
  {
    RenderItemsLength(items, true);
    RenderItems(items, true)
  }

  /** The group of a list is the groups of its parts, in order. */
  lemma GroupInOrder(a: seq<MenuItem>, b: seq<MenuItem>)
    ensures Group(a + b) == Group(a) + Group(b)
  {
    RenderItemsAppend(a, b, true);
  }
}
