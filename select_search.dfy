/** The searchable single select (`SelectSearch`). */
module SelectSearch {
  import opened Common
  import opened Select

  /** `handleFilter`: unlike the multi-select there is no `'select-all'` entry. */
  function Filter(options: seq<SelectOption>, value: string, search: string): (score: int)
    ensures score == 0 || score == 1
    ensures score == 1 <==> LabelMatches(options, value, search)
  {
    if LabelMatches(options, value, search) then 1 else 0
  }

  /** Spelled out: the first option with that value exists and its lower-cased
      label contains the lower-cased search text. Even the value
      `'select-all'` needs an option of its own. */
  lemma FilterSpec(options: seq<SelectOption>, value: string, search: string)
    ensures Filter(options, value, search) == 1 <==>
      exists i :: IsFirstWithValue(options, value, i)
                  && Includes(Lower(options[i].text), Lower(search))
  {
    var item := FindByValue(options, value);
    if item.Some? {
      var i :| IsFirstWithValue(options, value, i) && options[i] == item.value;
      forall j | IsFirstWithValue(options, value, j) ensures j == i {
        FirstWithValueUnique(options, value, i, j);
      }
    }
  }

  /** The trigger's text: the label of the first option whose value is the
      current value, otherwise the placeholder (which may itself be absent). */
  function TriggerText(options: seq<SelectOption>, current: Option<string>, placeholder: Option<string>)
    : (t: Option<string>)
    ensures current.None? ==> t == placeholder
    ensures current.Some? && (forall k :: 0 <= k < |options| ==> options[k].value != current.value)
            ==> t == placeholder
    ensures forall i ::
              current.Some? && IsFirstWithValue(options, current.value, i) ==> t == Some(options[i].text)
  {
    if current.None? then placeholder
    else
      var l := LabelOf(options, current.value);
      if l.Some? then l else placeholder
  }

  /** One option row of the list. */
  datatype Row = Row(value: string, text: string, checked: bool, disabled: bool)

  function Rows(options: seq<SelectOption>, current: Option<string>, disabled: bool): (r: seq<Row>)
    ensures |r| == |options|
    ensures forall k :: 0 <= k < |options| ==>
      r[k].value == options[k].value && r[k].text == options[k].text
      && (r[k].checked <==> current == Some(options[k].value))
      && (r[k].disabled <==> disabled || options[k].disabled)
  {
    if options == [] then []
    else [Row(options[0].value, options[0].text, current == Some(options[0].value),
              disabled || options[0].disabled)]
         + Rows(options[1..], current, disabled)
  }

  class Component {
    const options: seq<SelectOption>
    const disabled: bool
    const hasOnSearch: bool
    const placeholder: Option<string>
    /** The `value` prop, as the parent last rendered it. */
    var value: Prop<string>
    /** The internal value, used when `value` is `undefined`; starts at `null`. */
    var selectedValue: Option<string>
    var open: bool

    constructor (options: seq<SelectOption>, disabled: bool, hasOnSearch: bool,
                 placeholder: Option<string>, value: Prop<string>)
      ensures this.options == options && this.disabled == disabled
      ensures this.hasOnSearch == hasOnSearch && this.placeholder == placeholder
      ensures this.value == value && selectedValue.None? && !open
    {
      this.options := options;
      this.disabled := disabled;
      this.hasOnSearch := hasOnSearch;
      this.placeholder := placeholder;
      this.value := value;
      selectedValue := None;
      open := false;
    }

    predicate IsControlled()
      reads this
    {
      !value.Undefined?
    }

    /** `isControlled ? value : selectedValue`, with `null` read as no value. */
    function CurrentValue(): (r: Option<string>)
      reads this
      ensures value.Given? ==> r == Some(value.value)
      ensures value.Null? ==> r.None?
      ensures value.Undefined? ==> r == selectedValue
    {
      match value
      case Given(v) => Some(v)
      case Null => None
      case Undefined => selectedValue
    }

    /** Built-in filtering is off when `onSearch` is supplied. */
    predicate ShouldFilter() {
      !hasOnSearch
    }

    method Rerender(value: Prop<string>)
      modifies this`value
      ensures this.value == value
    {
      this.value := value;
    }

    /** Picking an item sets it (picking it again does not clear it), reports
        it and closes the popover. */
    method HandleSelectItem(x: string) returns (emitted: string)
      modifies this`selectedValue, this`open
      ensures emitted == x && !open
      ensures selectedValue == if IsControlled() then old(selectedValue) else Some(x)
      ensures !IsControlled() ==> CurrentValue() == Some(x)
    {
      if !IsControlled() {
        selectedValue := Some(x);
      }
      emitted := x;
      open := false;
    }

    method OnOpenChange(isOpen: bool)
      modifies this`open
      ensures open == isOpen
    {
      open := isOpen;
    }

    function Trigger(): Option<string>
      reads this
    {
      TriggerText(options, CurrentValue(), placeholder)
    }

    function OptionRows(): seq<Row>
      reads this
    {
      Rows(options, CurrentValue(), disabled)
    }
  }
}
