/** The searchable multi-select (`SelectMultiple`): list operations on the
    selected values and the component state they are written to. */
module SelectMultiple {
  import opened Common
  import opened Select

  // ---------------------------------------------------------------------
  // List operations on the selection

  /** `current.filter((v) => v !== x)`. */
  function Remove(current: seq<string>, x: string): (r: seq<string>)
    ensures x !in r
    ensures forall y :: y in r <==> y in current && y != x
    ensures multiset(r) == multiset(current)[x := 0]
    ensures |r| <= |current|
  {
    if current == [] then []
    else
      var rest := Remove(current[1..], x);
      assert current == [current[0]] + current[1..];
      if current[0] == x then rest else [current[0]] + rest
  }

  /** Filtering works piecewise, so the values kept stay in their order. */
  lemma {:induction false} RemoveAppend(a: seq<string>, b: seq<string>, x: string)
    ensures Remove(a + b, x) == Remove(a, x) + Remove(b, x)
  {
    if a == [] {
      assert a + b == b;
    } else {
      assert (a + b)[1..] == a[1..] + b;
      RemoveAppend(a[1..], b, x);
    }
  }

  /** Removing an absent value leaves the list as it was. */
  lemma {:induction false} RemoveAbsent(current: seq<string>, x: string)
    requires x !in current
    ensures Remove(current, x) == current
  {
    if current != [] {
      RemoveAbsent(current[1..], x);
      assert current == [current[0]] + current[1..];
    }
  }

  /** `handleSelectItem`: a value not yet selected is appended at the end;
      a selected value is taken out, every occurrence of it. */
  function Toggle(current: seq<string>, x: string): (r: seq<string>)
    ensures x in r <==> x !in current
    ensures x !in current ==> r == current + [x]
    ensures x in current ==> multiset(r) == multiset(current)[x := 0]
    ensures forall y :: y != x ==> (y in r <==> y in current)
  {
    if x in current then Remove(current, x) else current + [x]
  }

  /** Selecting an absent value twice gives back the original selection. */
  lemma ToggleTwiceAbsent(current: seq<string>, x: string)
    requires x !in current
    ensures Toggle(Toggle(current, x), x) == current
  {
    RemoveAppend(current, [x], x);
    RemoveAbsent(current, x);
  }

  /** Selecting a present value twice moves it, once, to the end. */
  lemma ToggleTwicePresent(current: seq<string>, x: string)
    requires x in current
    ensures Toggle(Toggle(current, x), x) == Remove(current, x) + [x]
  {
  }

  /** `options.map((option) => option.value)`. */
  function Values(options: seq<SelectOption>): (r: seq<string>)
    ensures |r| == |options|
    ensures forall k :: 0 <= k < |options| ==> r[k] == options[k].value
  {
    if options == [] then [] else [options[0].value] + Values(options[1..])
  }

  /** `selectAll`: when the selection is as long as the option list (only the
      lengths are compared) it clears, otherwise every option value is
      selected, disabled ones included, in option order. */
  function SelectAllResult(current: seq<string>, options: seq<SelectOption>): (r: seq<string>)
    ensures |current| == |options| ==> r == []
    ensures |current| != |options| ==>
      |r| == |options| && forall k :: 0 <= k < |options| ==> r[k] == options[k].value
  {
    if |current| == |options| then [] else Values(options)
  }

  /** Pressing select-all twice on a partial selection ends with an empty selection. */
  lemma SelectAllTwice(current: seq<string>, options: seq<SelectOption>)
    requires |current| != |options|
    ensures SelectAllResult(SelectAllResult(current, options), options) == []
  {
  }

  /** `handleFilter`: the score the command list uses to keep an entry. */
  function Filter(options: seq<SelectOption>, value: string, search: string): (score: int)
    ensures score == 0 || score == 1
    ensures value == "select-all" ==> score == 1
    ensures value != "select-all" ==> (score == 1 <==> LabelMatches(options, value, search))
  {
    if value == "select-all" then 1
    else if LabelMatches(options, value, search) then 1 else 0
  }

  /** Spelled out: a value other than `'select-all'` scores 1 exactly when an
      option with that value exists and the lower-cased label of the first
      such option contains the lower-cased search text. */
  lemma FilterSpec(options: seq<SelectOption>, value: string, search: string)
    requires value != "select-all"
    ensures Filter(options, value, search) == 1 <==>
      exists i :: IsFirstWithValue(options, value, i)
                  && Includes(Lower(options[i].text), Lower(search))
  {
    var item := FindByValue(options, value);
    if item.Some? {
      var i :| IsFirstWithValue(options, value, i) && options[i] == item.value;
      forall j | IsFirstWithValue(options, value, j) ensures j == i {
        FirstWithValueUnique(options, value, i, j);
      }
    }
  }

  // ---------------------------------------------------------------------
  // What the trigger button shows

  datatype TriggerView = Placeholder | Badges(shown: seq<string>, labels: seq<Option<string>>, more: nat)

  /** The badge texts: each value's option label, absent when no option has it. */
  function Labels(options: seq<SelectOption>, values: seq<string>): (r: seq<Option<string>>)
    ensures |r| == |values|
    ensures forall k :: 0 <= k < |values| ==> r[k] == LabelOf(options, values[k])
  {
    if values == [] then [] else [LabelOf(options, values[0])] + Labels(options, values[1..])
  }

  /** Up to three badges, for the first selected values in selection order
      and labelled with their options' labels, then a `+ n marcados` badge
      when more are selected (`more == 0` means no such badge). */
  function Trigger(options: seq<SelectOption>, current: seq<string>): (t: TriggerView)
    ensures current == [] <==> t.Placeholder?
    ensures t.Badges? ==> t.shown <= current && |t.shown| == if |current| < 3 then |current| else 3
    ensures t.Badges? ==> |t.shown| + t.more == |current|
    ensures t.Badges? ==> |t.labels| == |t.shown|
    ensures t.Badges? ==> forall k :: 0 <= k < |t.shown| ==> t.labels[k] == LabelOf(options, t.shown[k])
  {
    if current == [] then Placeholder
    else
      var shown := if |current| <= 3 then current else current[..3];
      Badges(shown, Labels(options, shown), |current| - |shown|)
  }

  /** One option row of the list. */
  datatype Row = Row(value: string, text: string, checked: bool, disabled: bool)

  function Rows(options: seq<SelectOption>, current: seq<string>, disabled: bool): (r: seq<Row>)
    ensures |r| == |options|
    ensures forall k :: 0 <= k < |options| ==>
      r[k].value == options[k].value && r[k].text == options[k].text
      && (r[k].checked <==> options[k].value in current)
      && (r[k].disabled <==> disabled || options[k].disabled)
  {
    if options == [] then []
    else [Row(options[0].value, options[0].text, options[0].value in current,
              disabled || options[0].disabled)]
         + Rows(options[1..], current, disabled)
  }

  // ---------------------------------------------------------------------
  // The component

  class Component {
    const options: seq<SelectOption>
    const disabled: bool
    const hasOnSearch: bool
    /** The optional `showCheckAll` prop (`showCheckAll = true`). */
    const showCheckAll: Option<bool>
    /** The `value` prop, as the parent last rendered it. */
    var value: Prop<seq<string>>
    /** The internal selection, used when `value` is `undefined`. */
    var selectedValues: seq<string>
    var open: bool

    constructor (options: seq<SelectOption>, disabled: bool, hasOnSearch: bool, showCheckAll: Option<bool>,
                 value: Prop<seq<string>>)
      ensures this.options == options && this.disabled == disabled && this.hasOnSearch == hasOnSearch
      ensures this.showCheckAll == showCheckAll
      ensures this.value == value && selectedValues == [] && !open
    {
      this.options := options;
      this.disabled := disabled;
      this.hasOnSearch := hasOnSearch;
      this.showCheckAll := showCheckAll;
      this.value := value;
      selectedValues := [];
      open := false;
    }

    predicate IsControlled()
      reads this
    {
      !value.Undefined?
    }

    /** `(isControlled ? value : selectedValues) ?? []`. */
    function CurrentValue(): (r: seq<string>)
      reads this
      ensures value.Given? ==> r == value.value
      ensures value.Null? ==> r == []
      ensures value.Undefined? ==> r == selectedValues
    {
      match value
      case Given(v) => v
      case Null => []
      case Undefined => selectedValues
    }

    /** Built-in filtering is off when `onSearch` is supplied. */
    predicate ShouldFilter() {
      !hasOnSearch
    }

    /** The parent renders again with a new `value` prop. */
    method Rerender(value: Prop<seq<string>>)
      modifies this`value
      ensures this.value == value
    {
      this.value := value;
    }

    /** Writes the new selection to the internal list only when uncontrolled. */
    method Commit(next: seq<string>)
      modifies this`selectedValues
      ensures selectedValues == if IsControlled() then old(selectedValues) else next
    {
      if !IsControlled() {
        selectedValues := next;
      }
    }

    method HandleSelectItem(x: string) returns (emitted: seq<string>)
      modifies this`selectedValues
      ensures emitted == Toggle(old(CurrentValue()), x)
      ensures selectedValues == if IsControlled() then old(selectedValues) else emitted
    {
      emitted := Toggle(CurrentValue(), x);
      Commit(emitted);
    }

    method RemoveItem(x: string) returns (emitted: seq<string>)
      modifies this`selectedValues
      ensures emitted == Remove(old(CurrentValue()), x)
      ensures selectedValues == if IsControlled() then old(selectedValues) else emitted
    {
      emitted := Remove(CurrentValue(), x);
      Commit(emitted);
    }

    /** The cross on a badge: ignored while the component is disabled. */
    method BadgeRemove(x: string) returns (emitted: Option<seq<string>>)
      modifies this`selectedValues
      ensures disabled ==> emitted.None? && selectedValues == old(selectedValues)
      ensures !disabled ==> emitted == Some(Remove(old(CurrentValue()), x))
      ensures !disabled ==>
        selectedValues == if IsControlled() then old(selectedValues) else emitted.value
    {
      if disabled {
        return None;
      }
      var next := RemoveItem(x);
      emitted := Some(next);
    }

    method Clear() returns (emitted: seq<string>)
      modifies this`selectedValues
      ensures emitted == []
      ensures selectedValues == if IsControlled() then old(selectedValues) else []
    {
      emitted := [];
      Commit(emitted);
    }

    method SelectAll() returns (emitted: seq<string>)
      modifies this`selectedValues
      ensures emitted == SelectAllResult(old(CurrentValue()), options)
      ensures selectedValues == if IsControlled() then old(selectedValues) else emitted
    {
      emitted := SelectAllResult(CurrentValue(), options);
      Commit(emitted);
    }

    method OnOpenChange(isOpen: bool)
      modifies this`open
      ensures open == isOpen
    {
      open := isOpen;
    }

    /** The select-all row is checked when the selection is as long as the options. */
    predicate AllChecked()
      reads this
    {
      |CurrentValue()| == |options|
    }

    /** The "Marcar todos" row above the options: present unless
        `showCheckAll` is `false` (an omitted prop shows it), checked by the
        length comparison and disabled with the component. */
    function SelectAllRow(): (r: Option<Row>)
      reads this
      ensures r.Some? <==> showCheckAll != Some(false)
      ensures r.Some? ==> r.value.value == "select-all" && r.value.text == "Marcar todos"
      ensures r.Some? ==> (r.value.checked <==> |CurrentValue()| == |options|)
      ensures r.Some? ==> (r.value.disabled <==> disabled)
    {
      if showCheckAll == Some(false) then None
      else Some(Row("select-all", "Marcar todos", AllChecked(), disabled))
    }

    function OptionRows(): seq<Row>
      reads this
    {
      Rows(options, CurrentValue(), disabled)
    }

    function TriggerContent(): TriggerView
      reads this
    {
      Trigger(options, CurrentValue())
    }
  }

  /** The select-all check mark and the select-all toggle use the same length
      test: with at least one option, the row is checked exactly when pressing
      it clears the selection. A selection holding values that are not
      options passes the test as well. */
  lemma AllCheckedClears(c: Component)
    requires |c.options| > 0
    ensures c.AllChecked() <==> SelectAllResult(c.CurrentValue(), c.options) == []
  {
    if !c.AllChecked() {
      assert |SelectAllResult(c.CurrentValue(), c.options)| == |c.options|;
    }
  }

  /** The check mark does not mean every option is selected: one selected
      value that is no option's value checks the row of a one-option list. */
  lemma AllCheckedForeignValue(c: Component, x: string)
    requires |c.options| == 1 && c.value == Given([x]) && x != c.options[0].value
    ensures c.AllChecked() && !c.OptionRows()[0].checked
  {
  }

  /** In uncontrolled mode, selecting the same new value twice restores the selection. */
  method SelectTwiceUncontrolled(c: Component, x: string)
    requires c.value.Undefined? && x !in c.selectedValues
    modifies c
    ensures c.selectedValues == old(c.selectedValues)
  {
    var first := c.HandleSelectItem(x);
    var second := c.HandleSelectItem(x);
    ToggleTwiceAbsent(old(c.selectedValues), x);
  }
}
