/** The confirmation-dialog provider (`PopConfirmProvider`): one record of
    dialog settings, opened with a configuration that is spread over it,
    and closed by the dialog's buttons. */
module PopConfirm {
  import opened Common

  datatype Variant = Default | Destructive | Success

  /** The dialog state. Every field may be `undefined` (`None`). */
  datatype ConfirmState = ConfirmState(
    isOpen: Option<bool>,
    onConfirm: Option<Handler>,
    onCancel: Option<Handler>,
    title: Option<string>,
    description: Option<string>,
    cancelText: Option<string>,
    confirmText: Option<string>,
    hideCancelButton: Option<bool>,
    variant: Option<Variant>)

  /** A key of an `open` configuration: left out of the object, or present
      with a value that may itself be `undefined`. */
  datatype Entry<T> = Missing | Present(value: Option<T>)

  datatype ConfirmConfig = ConfirmConfig(
    isOpen: Entry<bool>,
    onConfirm: Entry<Handler>,
    onCancel: Entry<Handler>,
    title: Entry<string>,
    description: Entry<string>,
    cancelText: Entry<string>,
    confirmText: Entry<string>,
    hideCancelButton: Entry<bool>,
    variant: Entry<Variant>)

  /** The handlers the default state installs (`() => {}`). */
  const NoOpConfirm: Handler := Handler(0)
  const NoOpCancel: Handler := Handler(1)

  /** `defaultValues`. */
  const DefaultState: ConfirmState := ConfirmState(
    Some(false), Some(NoOpConfirm), Some(NoOpCancel), Some(""), None,
    Some("Cancelar"), Some("Sim"), Some(false), Some(Default))

  /** A spread key overrides the field when the key is present, even with `undefined`. */
  function Overlay<T>(current: Option<T>, e: Entry<T>): (r: Option<T>)
    ensures e.Missing? ==> r == current
    ensures e.Present? ==> r == e.value
  {
    match e
    case Missing => current
    case Present(v) => v
  }

  /** `{ ...state, isOpen: true, ...config }`. */
  function Merge(s: ConfirmState, c: ConfirmConfig): ConfirmState {
    ConfirmState(
      Overlay(Some(true), c.isOpen),
      Overlay(s.onConfirm, c.onConfirm),
      Overlay(s.onCancel, c.onCancel),
      Overlay(s.title, c.title),
      Overlay(s.description, c.description),
      Overlay(s.cancelText, c.cancelText),
      Overlay(s.confirmText, c.confirmText),
      Overlay(s.hideCancelButton, c.hideCancelButton),
      Overlay(s.variant, c.variant))
  }

  /** The dialog is shown open only when `isOpen` is `true`. */
  predicate Shown(s: ConfirmState) {
    s.isOpen == Some(true)
  }

  /** `title={confirmState.title ?? ''}`. */
  function ShownTitle(s: ConfirmState): (t: string)
    ensures s.title.None? ==> t == ""
    ensures s.title.Some? ==> t == s.title.value
  {
    if s.title.Some? then s.title.value else ""
  }

  /** What `open` does to the state: it opens unless the configuration has its
      own `isOpen` key, which then wins; every key of the configuration
      replaces its field; every other field keeps its previous value (it is
      not reset to the default). */
  lemma MergeSpec(s: ConfirmState, c: ConfirmConfig)
    ensures var m := Merge(s, c);
      && (c.isOpen.Missing? ==> Shown(m))
      && (c.isOpen.Present? ==> m.isOpen == c.isOpen.value)
      && (c.title.Missing? ==> m.title == s.title)
      && (c.title.Present? ==> m.title == c.title.value)
      && (c.description.Missing? ==> m.description == s.description)
      && (c.description.Present? ==> m.description == c.description.value)
      && (c.cancelText.Missing? ==> m.cancelText == s.cancelText)
      && (c.cancelText.Present? ==> m.cancelText == c.cancelText.value)
      && (c.confirmText.Missing? ==> m.confirmText == s.confirmText)
      && (c.confirmText.Present? ==> m.confirmText == c.confirmText.value)
      && (c.hideCancelButton.Missing? ==> m.hideCancelButton == s.hideCancelButton)
      && (c.hideCancelButton.Present? ==> m.hideCancelButton == c.hideCancelButton.value)
      && (c.variant.Missing? ==> m.variant == s.variant)
      && (c.variant.Present? ==> m.variant == c.variant.value)
      && (c.onConfirm.Missing? ==> m.onConfirm == s.onConfirm)
      && (c.onConfirm.Present? ==> m.onConfirm == c.onConfirm.value)
      && (c.onCancel.Missing? ==> m.onCancel == s.onCancel)
      && (c.onCancel.Present? ==> m.onCancel == c.onCancel.value)
  {
  }

  /** Opening twice with the same configuration is opening once. */
  lemma MergeIdempotent(s: ConfirmState, c: ConfirmConfig)
    ensures Merge(Merge(s, c), c) == Merge(s, c)
  {
  }

  /** A configuration with every key present fixes the state whatever came before. */
  lemma MergeFullConfig(s1: ConfirmState, s2: ConfirmState, c: ConfirmConfig)
    requires c.onConfirm.Present? && c.onCancel.Present? && c.title.Present?
    requires c.description.Present? && c.cancelText.Present? && c.confirmText.Present?
    requires c.hideCancelButton.Present? && c.variant.Present?
    ensures Merge(s1, c) == Merge(s2, c)
  {
  }

  class Provider {
    var confirmState: ConfirmState

    constructor ()
      ensures confirmState == DefaultState
    {
      confirmState := DefaultState;
    }

    method Open(config: ConfirmConfig)
      modifies this
      ensures confirmState == Merge(old(confirmState), config)
    {
      confirmState := Merge(confirmState, config);
    }

    /** `{ ...state, isOpen: false }`: nothing else changes. */
    method Close()
      modifies this
      ensures confirmState == old(confirmState).(isOpen := Some(false))
    {
      confirmState := confirmState.(isOpen := Some(false));
    }

    /** Runs `onCancel` when there is one (`ran` records it), then closes. */
    method HandleCancel() returns (ran: Option<Handler>)
      modifies this
      ensures ran == old(confirmState.onCancel)
      ensures confirmState == old(confirmState).(isOpen := Some(false))
    {
      ran := if confirmState.onCancel.Some? then Some(confirmState.onCancel.value) else None;
      Close();
    }

    /** Runs `onConfirm` when there is one, then closes. */
    method HandleConfirm() returns (ran: Option<Handler>)
      modifies this
      ensures ran == old(confirmState.onConfirm)
      ensures confirmState == old(confirmState).(isOpen := Some(false))
    {
      ran := if confirmState.onConfirm.Some? then Some(confirmState.onConfirm.value) else None;
      Close();
    }

    /** The dialog asking to close closes it; asking to open does nothing. */
    method OnOpenChange(isOpen: bool)
      modifies this
      ensures !isOpen ==> confirmState == old(confirmState).(isOpen := Some(false))
      ensures isOpen ==> confirmState == old(confirmState)
    {
      if !isOpen {
        Close();
      }
    }
  }

  /** A dialog opened with some settings and then confirmed runs the
      configured handler (or the previous one, when the configuration has
      none), ends closed, and keeps the settings for the next opening. */
  method OpenThenConfirm(p: Provider, config: ConfirmConfig) returns (ran: Option<Handler>)
    modifies p
    ensures ran == Overlay(old(p.confirmState.onConfirm), config.onConfirm)
    ensures !Shown(p.confirmState)
    ensures p.confirmState == Merge(old(p.confirmState), config).(isOpen := Some(false))
  {
    p.Open(config);
    ran := p.HandleConfirm();
  }
}
