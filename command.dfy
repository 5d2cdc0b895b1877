/** The command palette (`Command`): which parts are disabled, when the
    search reaches `onSearch`, when built-in filtering is on, and the groups
    and items it renders. */
module Command {
  import opened Common

  datatype CommandItem = CommandItem(
    icon: Node, text: Node, shortcut: Node, disabled: bool, onClick: Option<Handler>)

  datatype CommandGroup = CommandGroup(heading: Node, items: Option<seq<CommandItem>>)

  /** The props that decide behaviour. `shouldFilter` is `None` when not given. */
  datatype Props = Props(
    disabled: bool, loading: bool, shouldFilter: Option<bool>, hasOnSearch: bool,
    groups: seq<CommandGroup>)

  /** `shouldFilter = true` as a destructuring default. */
  predicate ShouldFilterProp(p: Props) {
    if p.shouldFilter.Some? then p.shouldFilter.value else true
  }

  /** `isDisabled = disabled || loading`. */
  predicate IsDisabled(p: Props) {
    p.disabled || p.loading
  }

  /** `handleChangeInputSearch`: the text reaches `onSearch` unless the
      component is disabled (loading alone does not stop it). */
  function SearchForward(p: Props, search: string): (forwarded: Option<string>)
    ensures forwarded.Some? <==> !p.disabled && p.hasOnSearch
    ensures forwarded.Some? ==> forwarded.value == search
  {
    if p.disabled then None
    else if p.hasOnSearch then Some(search)
    else None
  }

  /** The `shouldFilter` handed to the primitive: off whenever `onSearch` is given. */
  predicate EffectiveShouldFilter(p: Props) {
    if p.hasOnSearch then false else ShouldFilterProp(p)
  }

  datatype ItemView = ItemView(
    icon: Node, text: Node, shortcut: Node, disabled: bool, onSelect: Option<Handler>)

  datatype GroupView = GroupView(heading: Node, items: seq<ItemView>)

  /** The search input, when rendered, is disabled while disabled or loading. */
  datatype InputView = InputView(disabled: bool)

  datatype View = View(
    input: Option<InputView>, filter: bool, loadingOverlay: bool, groups: seq<GroupView>)

  function RenderItem(item: CommandItem, isDisabled: bool): (v: ItemView)
    ensures v.disabled <==> isDisabled || item.disabled
    ensures v.onSelect == item.onClick && v.text == item.text
    ensures v.icon.Some? <==> Truthy(item.icon)
    ensures v.shortcut.Some? <==> Truthy(item.shortcut)
  {
    ItemView(WhenTruthy(item.icon), item.text, WhenTruthy(item.shortcut),
             isDisabled || item.disabled, item.onClick)
  }

  function RenderItems(items: seq<CommandItem>, isDisabled: bool): (r: seq<ItemView>)
    ensures |r| == |items|
    ensures forall k :: 0 <= k < |items| ==> r[k] == RenderItem(items[k], isDisabled)
  {
    if items == [] then [] else [RenderItem(items[0], isDisabled)] + RenderItems(items[1..], isDisabled)
  }

  function RenderGroup(g: CommandGroup, isDisabled: bool): GroupView {
    GroupView(g.heading, if g.items.Some? then RenderItems(g.items.value, isDisabled) else [])
  }

  function RenderGroups(groups: seq<CommandGroup>, isDisabled: bool): (r: seq<GroupView>)
    ensures |r| == |groups|
    ensures forall k :: 0 <= k < |groups| ==> r[k] == RenderGroup(groups[k], isDisabled)
  {
    if groups == [] then [] else [RenderGroup(groups[0], isDisabled)] + RenderGroups(groups[1..], isDisabled)
  }

  function Render(p: Props): View {
    View(
      if ShouldFilterProp(p) then Some(InputView(IsDisabled(p))) else None,
      EffectiveShouldFilter(p),
      p.loading,
      RenderGroups(p.groups, IsDisabled(p)))
  }

  /** What the palette shows: the search input exactly when the
      `shouldFilter` prop is on (not the effective one); filtering only
      without `onSearch`; every group in order, a group without items empty;
      every item in order, disabled when the palette counts as disabled or
      the item is, its icon and shortcut only when given. */
  lemma RenderSpec(p: Props)
    ensures var v := Render(p);
      && (v.input.Some? <==> ShouldFilterProp(p))
      && (v.input.Some? ==> (v.input.value.disabled <==> p.disabled || p.loading))
      && (v.filter <==> !p.hasOnSearch && ShouldFilterProp(p))
      && (v.loadingOverlay <==> p.loading)
      && |v.groups| == |p.groups|
      && forall g :: 0 <= g < |p.groups| ==>
           && v.groups[g].heading == p.groups[g].heading
           && (p.groups[g].items.None? ==> v.groups[g].items == [])
           && (p.groups[g].items.Some? ==>
                 var items := p.groups[g].items.value;
                 && |v.groups[g].items| == |items|
                 && forall k :: 0 <= k < |items| ==>
                      && (v.groups[g].items[k].disabled <==> p.disabled || p.loading || items[k].disabled)
                      && v.groups[g].items[k].onSelect == items[k].onClick
                      && v.groups[g].items[k].text == items[k].text
                      && (v.groups[g].items[k].icon.Some? <==> Truthy(items[k].icon))
                      && (v.groups[g].items[k].shortcut.Some? <==> Truthy(items[k].shortcut)))
  {
  }
}
