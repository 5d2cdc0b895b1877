/** The file upload (`Upload`): how a drop builds the new file list, how a
    file is removed, and the "list full" lock. Files are opaque values of
    type `F`; which files the drop zone accepts or rejects is an input. */
module Upload {
  import opened Common

  /** One rejected file, reduced to the codes of its errors. */
  datatype Rejection = Rejection(errorCodes: seq<string>)

  /** The one toast a drop may raise. */
  datatype Message = TooLarge | Unsupported

  /** The props of one render. */
  datatype Props<F> = Props(value: Prop<seq<F>>, reSelect: bool, disabled: bool, maxFiles: int)

  /** `maxFiles === 1 ? true : reSelect`. */
  predicate ReSelectAll<F>(p: Props<F>) {
    if p.maxFiles == 1 then true else p.reSelect
  }

  /** `value ? [...value] : []`: the list the drop starts from. */
  function Existing<F>(value: Prop<seq<F>>): seq<F> {
    if value.Given? then value.value else []
  }

  /** How many accepted files fit behind `base`: none once the list is as
      long as `maxFiles`, and never more than were accepted. */
  function Room(baseLength: nat, maxFiles: int, accepted: nat): (n: nat)
    ensures n <= accepted
    ensures baseLength < maxFiles ==> n == if maxFiles - baseLength < accepted then maxFiles - baseLength else accepted
    ensures baseLength >= maxFiles ==> n == 0
  {
    if baseLength >= maxFiles then 0
    else if maxFiles - baseLength < accepted then maxFiles - baseLength
    else accepted
  }

  /** The list a non-disabled drop reports: the kept prefix followed by the
      accepted files that fit, in arrival order. */
  function DropResult<F>(p: Props<F>, accepted: seq<F>): (r: seq<F>)
  {
    var base := if ReSelectAll(p) then [] else Existing(p.value);
    base + accepted[..Room(|base|, p.maxFiles, |accepted|)]
  }

  /** The toast chosen from the rejections: only the first rejection's first
      error code is looked at. */
  function PickMessage(rejected: seq<Rejection>): (m: Option<Message>)
    ensures rejected == [] <==> m.None?
    ensures m == Some(TooLarge) <==>
      rejected != [] && |rejected[0].errorCodes| > 0 && rejected[0].errorCodes[0] == "file-too-large"
  {
    if rejected == [] then None
    else if |rejected[0].errorCodes| > 0 && rejected[0].errorCodes[0] == "file-too-large" then Some(TooLarge)
    else Some(Unsupported)
  }

  /** `onDrop`. `emitted` is what `onValueChange` receives (`None`: not called). */
  method OnDrop<F>(p: Props<F>, accepted: seq<F>, rejected: seq<Rejection>)
    returns (emitted: Option<seq<F>>, message: Option<Message>)
    ensures p.disabled ==> emitted.None? && message.None?
    ensures !p.disabled ==> emitted == Some(DropResult(p, accepted))
    ensures !p.disabled ==> message == PickMessage(rejected)
  {
    if p.disabled {
      return None, None;
    }
    var newValues := Existing(p.value);
    if ReSelectAll(p) {
      newValues := [];
    }
    ghost var base := newValues;
    ghost var room := Room(|base|, p.maxFiles, |accepted|);
    var i := 0;
    while i < |accepted|
      invariant 0 <= i <= |accepted|
      invariant newValues == base + accepted[..if i < room then i else room]
    {
      if |newValues| < p.maxFiles {
        newValues := newValues + [accepted[i]];
        assert accepted[..i + 1] == accepted[..i] + [accepted[i]];
      }
      i := i + 1;
    }
    emitted := Some(newValues);

    message := None;
    for k := 0 to |rejected|
      invariant k == 0 && message.None?
    {
      var codes := rejected[k].errorCodes;
      if |codes| > 0 && codes[0] == "file-too-large" {
        message := Some(TooLarge);
        break;
      }
      message := Some(Unsupported);
      break;
    }
  }

  /** With re-selection the previous files are dropped; otherwise they stay,
      unchanged, at the front. What follows comes from the accepted files,
      in order, and the list only grows while it is shorter than `maxFiles`. */
  lemma DropResultShape<F>(p: Props<F>, accepted: seq<F>)
    ensures var r := DropResult(p, accepted);
      var base := if ReSelectAll(p) then [] else Existing(p.value);
      && base <= r
      && r[|base|..] <= accepted
      && (|base| >= p.maxFiles ==> r == base)
      && (|base| <= p.maxFiles ==> |r| <= p.maxFiles)
      && (|base| < p.maxFiles && |base| + |accepted| >= p.maxFiles ==> |r| == p.maxFiles)
  {
    var base := if ReSelectAll(p) then [] else Existing(p.value);
    var r := DropResult(p, accepted);
    assert r[|base|..] == accepted[..Room(|base|, p.maxFiles, |accepted|)];
  }

  /** A list that respects the limit still respects it after a drop. */
  lemma DropKeepsLimit<F>(p: Props<F>, accepted: seq<F>)
    requires |Existing(p.value)| <= p.maxFiles
    ensures |DropResult(p, accepted)| <= p.maxFiles
  {
    DropResultShape(p, accepted);
  }

  /** With a limit of one file, a drop always replaces the list. */
  lemma SingleFileReplaces<F>(p: Props<F>, accepted: seq<F>)
    requires p.maxFiles == 1
    ensures DropResult(p, accepted) == if accepted == [] then [] else [accepted[0]]
  {
  }

  /** `maxFiles = 1`: the limit a render uses when the prop is omitted. */
  function MaxFiles(given: Option<int>): int {
    if given.Some? then given.value else 1
  }

  /** An upload rendered without `maxFiles` forces re-selection, so every
      drop replaces the list by the first accepted file, whatever `reSelect`
      says. */
  lemma OmittedLimitReplaces<F>(value: Prop<seq<F>>, reSelect: bool, disabled: bool, accepted: seq<F>)
    ensures var p := Props(value, reSelect, disabled, MaxFiles(None));
      ReSelectAll(p) && DropResult(p, accepted) == if accepted == [] then [] else [accepted[0]]
  {
    SingleFileReplaces(Props(value, reSelect, disabled, MaxFiles(None)), accepted);
  }

  // ---------------------------------------------------------------------
  // Removing a file

  /** `value.filter((_, index) => index !== i)`. */
  function DropIndex<F>(files: seq<F>, i: int): (r: seq<F>)
    decreases |files|
  {
    if files == [] then []
    else (if i == 0 then [] else [files[0]]) + DropIndex(files[1..], i - 1)
  }

  /** Removing index `i` deletes exactly that position and keeps the rest in
      order; an index outside the list leaves it as it was. */
  lemma {:induction false} DropIndexSpec<F>(files: seq<F>, i: int)
    ensures DropIndex(files, i) == if 0 <= i < |files| then files[..i] + files[i + 1..] else files
    decreases |files|
  {
    if files != [] {
      DropIndexSpec(files[1..], i - 1);
      assert files == [files[0]] + files[1..];
      if 0 < i < |files| {
        assert files[1..][..i - 1] == files[1..i];
        assert files[1..][i..] == files[i + 1..];
        assert files[..i] == [files[0]] + files[1..i];
      }
    }
  }

  /** `removeFileFromSet`: nothing is emitted when there is no value. */
  function RemoveFile<F>(value: Prop<seq<F>>, i: int): (emitted: Option<seq<F>>)
    ensures !value.Given? <==> emitted.None?
    ensures value.Given? && 0 <= i < |value.value| ==>
      emitted == Some(value.value[..i] + value.value[i + 1..])
    ensures value.Given? && !(0 <= i < |value.value|) ==> emitted == Some(value.value)
  {
    if value.Given? then
      DropIndexSpec(value.value, i);
      Some(DropIndex(value.value, i))
    else None
  }

  // ---------------------------------------------------------------------
  // The lock flag

  /** `value?.length === maxFiles && !reSelect`: uses `reSelect`, not
      `reSelectAll`, and an absent list is never full. */
  predicate IsFull<F>(value: Prop<seq<F>>, maxFiles: int, reSelect: bool) {
    value.Given? && |value.value| == maxFiles && !reSelect
  }

  /** The dependency list `[reSelectAll, value, disabled]` of `onDrop` differs
      from the one the handler was created with. React compares `value` by
      reference, so `valueIsNew` (the parent passed another array) is what
      counts, not the files it holds. */
  predicate DropDepsChanged<F>(before: Props<F>, after: Props<F>, valueIsNew: bool) {
    ReSelectAll(before) != ReSelectAll(after) || valueIsNew || before.disabled != after.disabled
  }

  /** After a render that raises `maxFiles` but hands back the same `value`
      and keeps `reSelectAll` and `disabled`, the drop handler still applies
      the old limit. */
  lemma StaleLimit(files: seq<int>)
    requires |files| == 3
    ensures var before := Props(Undefined, true, false, 1);
      var after := before.(maxFiles := 3);
      !DropDepsChanged(before, after, false)
      && DropResult(before, files) == files[..1]
      && DropResult(after, files) == files
  {
  }

  class Component<F(==)> {
    /** The props of the last render. */
    var props: Props<F>
    /** The props the memoized `onDrop` was last created with: it is created
        again only when `reSelectAll`, `value` or `disabled` changes, so
        `maxFiles` may be out of date. */
    var dropProps: Props<F>
    /** `isLOF`: the list is full and no more files can be dropped. */
    var isLOF: bool

    /** The first render, followed by the effect, which always runs on mount. */
    constructor (props: Props<F>)
      ensures this.props == props && dropProps == props
      ensures isLOF <==> IsFull(props.value, props.maxFiles, props.reSelect)
    {
      this.props := props;
      dropProps := props;
      isLOF := IsFull(props.value, props.maxFiles, props.reSelect);
    }

    /** A render with new props. `valueIsNew` says whether the parent passed a
        different `value` object than at the last render: it must when the
        files differ, and cannot when `value` stays `undefined` or `null`.
        The effect re-runs only on a new `value` or a changed `maxFiles`, so a
        change of `reSelect` alone leaves the flag as it was; the drop handler
        is renewed only when one of its dependencies changed. */
    method Render(props: Props<F>, valueIsNew: bool)
      requires props.value != this.props.value ==> valueIsNew
      requires !props.value.Given? && props.value == this.props.value ==> !valueIsNew
      modifies this
      ensures this.props == props
      ensures valueIsNew || props.maxFiles != old(this.props.maxFiles) ==>
        (isLOF <==> IsFull(props.value, props.maxFiles, props.reSelect))
      ensures !valueIsNew && props.maxFiles == old(this.props.maxFiles) ==> isLOF == old(isLOF)
      ensures dropProps == if DropDepsChanged(old(dropProps), props, valueIsNew) then props else old(dropProps)
    {
      if valueIsNew || props.maxFiles != this.props.maxFiles {
        isLOF := IsFull(props.value, props.maxFiles, props.reSelect);
      }
      if DropDepsChanged(dropProps, props, valueIsNew) {
        dropProps := props;
      }
      this.props := props;
    }

    /** The input is disabled iff the component is disabled or the list is full. */
    predicate IsInputDisabled()
      reads this
    {
      props.disabled || isLOF
    }

    /** A drop on the zone. While the input is disabled the zone has no drop
        handlers, so nothing happens; otherwise the memoized `onDrop` runs
        with the props it captured. */
    method Drop(accepted: seq<F>, rejected: seq<Rejection>)
      returns (emitted: Option<seq<F>>, message: Option<Message>)
      ensures IsInputDisabled() ==> emitted.None? && message.None?
      ensures !IsInputDisabled() && dropProps.disabled ==> emitted.None? && message.None?
      ensures !IsInputDisabled() && !dropProps.disabled ==>
        emitted == Some(DropResult(dropProps, accepted)) && message == PickMessage(rejected)
    {
      if IsInputDisabled() {
        return None, None;
      }
      emitted, message := OnDrop(dropProps, accepted, rejected);
    }
  }

  /** With a limit of one file and no re-selection, a drop that accepts a
      file fills the list, so once the parent passes it back the input locks:
      the forced re-selection of a one-file upload only helps when the parent
      changes `reSelect` or `maxFiles`. */
  lemma SingleFileDropLocks<F>(p: Props<F>, accepted: seq<F>)
    requires p.maxFiles == 1 && !p.reSelect && accepted != []
    ensures IsFull(Given(DropResult(p, accepted)), p.maxFiles, p.reSelect)
  {
    SingleFileReplaces(p, accepted);
  }

  /** After a render that hands over a new list or changes the limit, the
      input is disabled exactly when the component is disabled or the list is
      full without re-selection. */
  method RenderThenInputState<F(==)>(c: Component<F>, props: Props<F>, valueIsNew: bool)
    returns (inputDisabled: bool)
    requires props.value != c.props.value ==> valueIsNew
    requires !props.value.Given? && props.value == c.props.value ==> !valueIsNew
    requires valueIsNew || props.maxFiles != c.props.maxFiles
    modifies c
    ensures inputDisabled <==> props.disabled || IsFull(props.value, props.maxFiles, props.reSelect)
  {
    c.Render(props, valueIsNew);
    inputDisabled := c.IsInputDisabled();
  }

  /** Once the parent hands back a full list without re-selection, a further
      drop is ignored: nothing is reported and no toast is raised. */
  method DropOnFullList<F(==)>(c: Component<F>, props: Props<F>, accepted: seq<F>, rejected: seq<Rejection>)
    returns (emitted: Option<seq<F>>, message: Option<Message>)
    requires props.value.Given? && |props.value.value| == props.maxFiles && !props.reSelect
    modifies c
    ensures emitted.None? && message.None?
  {
    c.Render(props, true);
    emitted, message := c.Drop(accepted, rejected);
  }
}
