/** The plain select (`Select`) and the option record every select shares. */
module Select {
  import opened Common

  /** One entry of a select's `options` list; `text` is the source's `label`. */
  datatype SelectOption = SelectOption(value: string, text: string, disabled: bool)

  /** Position `i` holds the first option whose value is `v`. */
  predicate IsFirstWithValue(options: seq<SelectOption>, v: string, i: int) {
    0 <= i < |options| && options[i].value == v
    && forall k :: 0 <= k < i ==> options[k].value != v
  }

  lemma FirstWithValueUnique(options: seq<SelectOption>, v: string, i: int, j: int)
    requires IsFirstWithValue(options, v, i) && IsFirstWithValue(options, v, j)
    ensures i == j
  {
  }

  /** `options.find((option) => option.value === v)`: the first option with that value. */
  function FindByValue(options: seq<SelectOption>, v: string): (r: Option<SelectOption>)
    ensures r.None? <==> forall k :: 0 <= k < |options| ==> options[k].value != v
    ensures r.Some? ==> exists i :: IsFirstWithValue(options, v, i) && options[i] == r.value
  {
    if options == [] then None
    else if options[0].value == v then
      assert IsFirstWithValue(options, v, 0);
      Some(options[0])
    else
      var r := FindByValue(options[1..], v);
      if r.Some? then
        var i :| IsFirstWithValue(options[1..], v, i) && options[1..][i] == r.value;
        assert IsFirstWithValue(options, v, i + 1) by {
          forall k | 0 <= k < i + 1 ensures options[k].value != v {
            if k > 0 { assert options[k] == options[1..][k - 1]; }
          }
        }
        r
      else
        assert forall k :: 1 <= k < |options| ==> options[k] == options[1..][k - 1];
        r
  }

  /** `options.find((option) => option.value === v)?.label`: the label of the
      first option with that value, absent when no option has it. */
  function LabelOf(options: seq<SelectOption>, v: string): (l: Option<string>)
    ensures l.None? <==> forall k :: 0 <= k < |options| ==> options[k].value != v
    ensures forall i :: IsFirstWithValue(options, v, i) ==> l == Some(options[i].text)
  {
    var item := FindByValue(options, v);
    if item.Some? then
      assert forall i :: IsFirstWithValue(options, v, i) ==> options[i] == item.value by {
        forall i | IsFirstWithValue(options, v, i) ensures options[i] == item.value {
          var j :| IsFirstWithValue(options, v, j) && options[j] == item.value;
          FirstWithValueUnique(options, v, i, j);
        }
      }
      Some(item.value.text)
    else None
  }

  /** The searchable selects' filter test
      `item?.label?.toLowerCase().includes(search?.toLowerCase())`: the first
      option with that value exists and its lower-cased label contains the
      lower-cased search text. */
  predicate LabelMatches(options: seq<SelectOption>, value: string, search: string) {
    var item := FindByValue(options, value);
    item.Some? && Includes(Lower(item.value.text), Lower(search))
  }

  /** The filter only ever looks at the lower-cased search text. */
  lemma LabelMatchesIgnoresCase(options: seq<SelectOption>, value: string, search: string)
    ensures LabelMatches(options, value, search) == LabelMatches(options, value, Lower(search))
  {
    LowerIdempotent(search);
  }

  /** With an empty search every option that exists is kept. */
  lemma {:induction false} LabelMatchesEmptySearch(options: seq<SelectOption>, k: nat)
    requires k < |options|
    ensures LabelMatches(options, options[k].value, "")
  {
    IncludesEmpty(Lower(FindByValue(options, options[k].value).value.text));
  }

  // ---------------------------------------------------------------------
  // The `Select` component

  /** `value = ''` as a default and `value ?? ''`: an absent or null value shows as `''`. */
  function ShownValue(value: Prop<string>): (r: string)
    ensures value.Given? ==> r == value.value
    ensures !value.Given? ==> r == ""
  {
    match value
    case Given(v) => v
    case _ => ""
  }

  /** The guard on `onValueChange`: the empty value is never forwarded. */
  function ForwardChange(newValue: string): (forwarded: Option<string>)
    ensures forwarded.Some? <==> newValue != ""
    ensures forwarded.Some? ==> forwarded.value == newValue
  {
    if newValue != "" then Some(newValue) else None
  }

  /** One rendered select item. */
  datatype ItemView = ItemView(value: string, text: string, disabled: bool)

  /** What the select's popup content shows. */
  datatype ContentView = ContentView(loadingOverlay: bool, items: seq<ItemView>, noData: bool)

  function ItemOf(o: SelectOption): ItemView {
    ItemView(o.value, o.text, o.disabled)
  }

  function ItemViews(options: seq<SelectOption>): (r: seq<ItemView>)
    ensures |r| == |options|
    ensures forall k :: 0 <= k < |options| ==>
      r[k].value == options[k].value && r[k].text == options[k].text
      && r[k].disabled == options[k].disabled
  {
    if options == [] then [] else [ItemOf(options[0])] + ItemViews(options[1..])
  }

  function Content(options: seq<SelectOption>, loading: bool): (v: ContentView)
    ensures v.loadingOverlay == loading
    ensures v.noData <==> |options| == 0
    ensures |v.items| == |options|
    ensures forall k :: 0 <= k < |options| ==> v.items[k] == ItemOf(options[k])
  {
    ContentView(loading, ItemViews(options), |options| == 0)
  }
}
