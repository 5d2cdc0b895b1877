/** The menubar (`Menubar`): a row of menus, each a trigger label over its
    item tree; here a separator is only a line and its label is dropped. */
module Menubar {
  import opened Common
  import opened MenuTree

  /** One entry of `menu`: the trigger's label and the menu's items. */
  datatype MenubarMenu = MenubarMenu(text: Node, items: seq<MenuItem>)

  datatype MenuView = MenuView(trigger: Node, content: seq<MenuNode>)

  /** `MenubarItemRender`: a separator renders a bare line, whatever its label. */
  function ItemRender(item: MenuItem): (r: seq<MenuNode>)
    ensures item.kind == Separator ==> r == [Line]
    ensures item.kind == Item && |item.children| > 0 ==>
      r == [Submenu(WhenTruthy(item.icon), item.text, RenderItems(item.children, false))]
    ensures item.kind == Item && |item.children| == 0 ==>
      r == [Leaf(WhenTruthy(item.icon), item.text, WhenTruthy(item.shortcut), item.disabled, item.onClick)]
  {
    RenderItem(item, false)
  }

  /** A menu's content: one node per item, in order. */
  function Content(items: seq<MenuItem>): (content: seq<MenuNode>)
    ensures |content| == |items|
    ensures forall k :: 0 <= k < |items| ==> [content[k]] == ItemRender(items[k])
  {
    RenderItemsUnlabelled(items);
    RenderItems(items, false)
  }

  /** `menu.map(...)`: the menus in order, each with its label as trigger. */
  function Render(menu: seq<MenubarMenu>): (r: seq<MenuView>)
    ensures |r| == |menu|
    ensures forall k :: 0 <= k < |menu| ==>
      r[k].trigger == menu[k].text && r[k].content == Content(menu[k].items)
  {
    if menu == [] then []
    else [MenuView(menu[0].text, Content(menu[0].items))] + Render(menu[1..])
  }
}
