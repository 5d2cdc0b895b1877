/** The breadcrumb (`Breadcrumb`): each item is classified as an ellipsis
    dropdown, a link, a page or a plain label, and a separator follows every
    item but the last. */
module Breadcrumb {
  import opened Common

  /** A child of an item (the item shape without `isPage`); children of
      children are never rendered, so they are not kept. */
  datatype Crumb = Crumb(text: Node, onClick: Option<Handler>)

  /** One entry of `items`. A missing `children` list is the empty list. */
  datatype BreadcrumbItem = BreadcrumbItem(
    text: Node, onClick: Option<Handler>, isPage: bool, children: seq<Crumb>)

  /** One entry of the ellipsis dropdown. */
  datatype Entry = LinkEntry(text: Node, onClick: Option<Handler>) | TextEntry(text: Node)

  /** What an item renders to, followed by its separator. */
  datatype Segment =
    | Ellipsis(entries: seq<Entry>)
    | Link(text: Node, onClick: Handler)
    | Page(text: Node)
    | Plain(text: Node)
    | Separator

  /** The ellipsis dropdown's entries: links wired to each child's own
      handler when the parent has a handler, plain labels otherwise. */
  function Entries(children: seq<Crumb>, parentClickable: bool): (r: seq<Entry>)
    ensures |r| == |children|
    ensures forall k :: 0 <= k < |children| ==>
      r[k] == if parentClickable then LinkEntry(children[k].text, children[k].onClick)
              else TextEntry(children[k].text)
  {
    if children == [] then []
    else [if parentClickable then LinkEntry(children[0].text, children[0].onClick)
          else TextEntry(children[0].text)]
         + Entries(children[1..], parentClickable)
  }

  /** `BreadcrumbItemRenderer` without the separator. */
  function Classify(item: BreadcrumbItem): (s: Segment)
    ensures |item.children| > 0 ==> s == Ellipsis(Entries(item.children, item.onClick.Some?))
    ensures |item.children| == 0 && item.onClick.Some? ==> s == Link(item.text, item.onClick.value)
    ensures |item.children| == 0 && item.onClick.None? && item.isPage ==> s == Page(item.text)
    ensures |item.children| == 0 && item.onClick.None? && !item.isPage ==> s == Plain(item.text)
  {
    if |item.children| > 0 then Ellipsis(Entries(item.children, item.onClick.Some?))
    else if item.onClick.Some? then Link(item.text, item.onClick.value)
    else if item.isPage then Page(item.text)
    else Plain(item.text)
  }

  /** `BreadcrumbItemRenderer`: the item, then a separator unless it is the last. */
  function ItemRender(item: BreadcrumbItem, isLastItem: bool): (r: seq<Segment>)
    ensures r == if isLastItem then [Classify(item)] else [Classify(item), Separator]
  {
    [Classify(item)] + (if isLastItem then [] else [Separator])
  }

  /** The list: `items.map((item, index) => ... isLastItem={index === items.length - 1})`. */
  function Render(items: seq<BreadcrumbItem>): seq<Segment>
  {
    if items == [] then []
    else ItemRender(items[0], |items| == 1) + Render(items[1..])
  }

  function SeparatorCount(segments: seq<Segment>): nat {
    if segments == [] then 0
    else (if segments[0].Separator? then 1 else 0) + SeparatorCount(segments[1..])
  }

  lemma {:induction false} SeparatorCountAppend(a: seq<Segment>, b: seq<Segment>)
    ensures SeparatorCount(a + b) == SeparatorCount(a) + SeparatorCount(b)
  {
    if a == [] {
      assert a + b == b;
    } else {
      assert (a + b)[1..] == a[1..] + b;
      SeparatorCountAppend(a[1..], b);
    }
  }

  /** A list of more than one item starts with the first item and a separator. */
  lemma RenderUnfold(items: seq<BreadcrumbItem>)
    requires |items| > 1
    ensures Render(items) == [Classify(items[0]), Separator] + Render(items[1..])
  {
  }

  /** `n` items give `2n - 1` segments. */
  lemma {:induction false} RenderLength(items: seq<BreadcrumbItem>)
    requires |items| > 0
    ensures |Render(items)| == 2 * |items| - 1
  {
    if |items| > 1 {
      RenderUnfold(items);
      RenderLength(items[1..]);
    }
  }

  /** Item `k` is at position `2k`, a separator at `2k + 1` for every item but
      the last. */
  lemma {:induction false} RenderAt(items: seq<BreadcrumbItem>, k: nat)
    requires k < |items|
    ensures |Render(items)| == 2 * |items| - 1
    ensures Render(items)[2 * k] == Classify(items[k])
    ensures k < |items| - 1 ==> Render(items)[2 * k + 1] == Separator
  {
    RenderLength(items);
    if |items| > 1 {
      RenderUnfold(items);
      if k > 0 {
        RenderAt(items[1..], k - 1);
        assert items[1..][k - 1] == items[k];
      }
    }
  }

  /** A separator follows every item except the last: `n` items give `n - 1`
      separators. */
  lemma {:induction false} RenderSeparators(items: seq<BreadcrumbItem>)
    requires |items| > 0
    ensures SeparatorCount(Render(items)) == |items| - 1
  {
    if |items| == 1 {
      assert Render(items) == [Classify(items[0])];
      assert Render(items)[1..] == [];
    } else {
      RenderUnfold(items);
      RenderSeparators(items[1..]);
      var head := [Classify(items[0]), Separator];
      SeparatorCountAppend(head, Render(items[1..]));
      assert head[1..] == [Separator];
      assert head[1..][1..] == [];
    }
  }
}
