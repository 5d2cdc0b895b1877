# web-ui-components: a Dafny model of the component logic

This project models the behaviour-bearing logic of the `web-ui-components` React
library (form inputs, menus and a confirmation-dialog provider on top of shadcn/Radix
primitives) and proves properties of it with Dafny. Markup and styling are left out.
What is modelled is what each component decides:

- which values it reports to its callbacks;
- which internal state it keeps, and when (controlled or uncontrolled);
- what it shows and in what order;
- which parts are disabled.

One module per source file:

| module | source file | form |
|---|---|---|
| `Common` | shared JavaScript semantics: truthiness, `toLowerCase`, `includes`, `value?: T \| null` | pure |
| `Select` | `src/components/ui-custom/select.tsx`, plus the option record and lookups the selects share | pure |
| `SelectMultiple` | `src/components/ui-custom/select-multiple.tsx` | list operations as functions; `class Component` for the state |
| `SelectSearch` | `src/components/ui-custom/select-search.tsx` | functions plus `class Component` |
| `Upload` | `src/components/ui-custom/upload.tsx` | `method OnDrop` with the source's loops; `class Component` for the lock flag |
| `DatePicker` | `src/components/ui-custom/date-picker.tsx` | option builders as functions; `class Calendar` and `class Picker` |
| `PopConfirm` | `src/providers/popconfirm-provider.tsx` | state merge as a function; `class Provider` |
| `Command` | `src/components/ui-custom/command.tsx` | pure render |
| `Breadcrumb` | `src/components/ui-custom/breadcrumb.tsx` | pure render |
| `MenuTree` | the recursive item render shared by the three menus | pure, mutually recursive |
| `DropdownMenu`, `ContextMenu`, `Menubar` | `dropdown-menu.tsx`, `context-menu.tsx`, `menubar.tsx` | instances of `MenuTree` |

How the model represents the source:

- **Callbacks.** A callback prop (`onValueChange`, `onChange`, `onConfirm`) becomes a
  returned value. For example, `emitted` is what `onValueChange` receives, and `None`
  means it is not called. Menu and command handlers are `Handler` values, carried
  through to the rendered nodes.
- **React state.** It becomes class fields. A parent re-rendering with new props is a
  `Rerender` (or `Render`) method. An effect that runs after such a render is part of
  that method.
- **Optional props.** A `value?: T | null` prop is `Prop<T>` = `Undefined | Null | Given(v)`.
  The distinction matters: `undefined` means uncontrolled, while `null` is controlled
  and empty.
- **Text props.** A `ReactNode` text prop is `Node = Option<string>`. It is rendered by
  `cond && ...` exactly when it is truthy: present and not `''`.
- **Dates.** A JavaScript `Date` is `Date(year, month, day, time)`, compared in that
  order.

## Model

| member | source | states |
|---|---|---|
| Common.WhenTruthy | src/components/ui-custom/command.tsx:129-131 | a `cond && <X/>` node is present exactly when the text is truthy, and is then that text |
| Common.Lower | src/components/ui-custom/select-multiple.tsx:119 | the model of `toLowerCase`: keeps the length and maps the ASCII and Latin-1 capitals (`A`-`Z`, `À`-`Þ` without `×`) to their small letters, leaving every other character alone; the result has no such capital left |
| Common.LowerIdempotent | src/components/ui-custom/select-multiple.tsx:119 | lower-casing twice is lower-casing once |
| Common.Includes | src/components/ui-custom/select-multiple.tsx:119 | `includes` as a left-to-right scan; what it means is stated by `IncludesSpec` |
| Common.IncludesOccurs | src/components/ui-custom/select-multiple.tsx:119 | a successful scan has found an occurrence of the needle |
| Common.OccursIncludes | src/components/ui-custom/select-multiple.tsx:119 | an occurrence of the needle at any position is found by the scan |
| Common.IncludesSpec | src/components/ui-custom/select-multiple.tsx:119 | the scanning `includes` is true exactly when the needle occurs at some position of the haystack |
| Common.IncludesEmpty | src/components/ui-custom/select-multiple.tsx:119 | every text includes the empty text |
| Common.AccentedSearch | src/components/ui-custom/select-multiple.tsx:119 | example (one scenario; the general facts are `Lower` and `IncludesSpec`): the search "água" matches the label "Água" once both are lower-cased |
| Select.FirstWithValueUnique | src/components/ui-custom/select-multiple.tsx:118 | at most one position is the first option with a given value |
| Select.FindByValue | src/components/ui-custom/select-multiple.tsx:118 | `find` is absent exactly when no option has the value, and otherwise returns the first option that has it |
| Select.LabelOf | src/components/ui-custom/select-multiple.tsx:163 | a value's label is absent exactly when no option has the value, and otherwise is the label of the first option that has it |
| Select.LabelMatches | src/components/ui-custom/select-multiple.tsx:118-119 | the filter test: the first option with the value exists and its lower-cased label includes the lower-cased search; spelled out by the two `FilterSpec` lemmas |
| Select.LabelMatchesIgnoresCase | src/components/ui-custom/select-multiple.tsx:119 | the label filter gives the same answer for a search text and its lower-cased form |
| Select.LabelMatchesEmptySearch | src/components/ui-custom/select-multiple.tsx:118-119 | with an empty search every option value that exists passes the filter |
| Select.ShownValue | src/components/ui-custom/select.tsx:44-53 | an absent or `null` value is shown as `''`; a given value is shown as itself |
| Select.ForwardChange | src/components/ui-custom/select.tsx:53 | a change reaches `onValueChange` exactly when the new value is not `''`, unchanged |
| Select.ItemViews | src/components/ui-custom/select.tsx:69-73 | one item per option, in order, with its value, label and disabled flag |
| Select.Content | src/components/ui-custom/select.tsx:64-80 | the loading overlay follows `loading`; the no-data block shows exactly when there are no options; the items are the options in order |
| SelectMultiple.Remove | src/components/ui-custom/select-multiple.tsx:106-108 | removal deletes every occurrence of the value and nothing else (multiset minus all copies; membership iff different and present) |
| SelectMultiple.RemoveAppend | src/components/ui-custom/select-multiple.tsx:108 | removal works piecewise over a concatenation, so the kept values stay in their order |
| SelectMultiple.RemoveAbsent | src/components/ui-custom/select-multiple.tsx:108 | removing a value that is not selected leaves the selection unchanged |
| SelectMultiple.Toggle | src/components/ui-custom/select-multiple.tsx:95-99 | the value ends selected exactly when it was not; an absent value is appended at the end; a present one is removed with all its copies; no other value's membership changes |
| SelectMultiple.ToggleTwiceAbsent | src/components/ui-custom/select-multiple.tsx:97-99 | selecting a new value twice restores the original selection exactly |
| SelectMultiple.ToggleTwicePresent | src/components/ui-custom/select-multiple.tsx:97-99 | selecting a present value twice moves it, once, to the end |
| SelectMultiple.Values | src/components/ui-custom/select-multiple.tsx:139 | the values of all options, in option order |
| SelectMultiple.SelectAllResult | src/components/ui-custom/select-multiple.tsx:134-143 | when the selection is as long as the option list it clears; otherwise every option value, disabled ones included, in option order |
| SelectMultiple.SelectAllTwice | src/components/ui-custom/select-multiple.tsx:134-143 | select-all pressed twice on a partial selection ends empty |
| SelectMultiple.Filter | src/components/ui-custom/select-multiple.tsx:115-122 | the score is 0 or 1; `'select-all'` always scores 1; any other value scores 1 exactly when its label matches |
| SelectMultiple.FilterSpec | src/components/ui-custom/select-multiple.tsx:115-122 | a value other than `'select-all'` scores 1 exactly when the lower-cased label of the first option with that value contains the lower-cased search |
| SelectMultiple.Labels | src/components/ui-custom/select-multiple.tsx:161-163 | one badge text per value, each that value's option label |
| SelectMultiple.Trigger | src/components/ui-custom/select-multiple.tsx:159-184 | the placeholder exactly when nothing is selected; otherwise badges for the first min(n, 3) selected values in order, with their labels, and a `+ n marcados` count of the rest |
| SelectMultiple.Rows | src/components/ui-custom/select-multiple.tsx:215-230 | one row per option, in order; checked exactly when the value is selected; disabled when the component or the option is |
| SelectMultiple.Component.constructor | src/components/ui-custom/select-multiple.tsx:74-84 | the popover starts closed, the internal selection starts empty, and the props (`showCheckAll` optional) are kept |
| SelectMultiple.Component.CurrentValue | src/components/ui-custom/select-multiple.tsx:85-86 | a given value is used as is, `null` reads as empty, and `undefined` falls back to the internal selection |
| SelectMultiple.Component.Rerender | src/components/ui-custom/select-multiple.tsx:85-86 | a render with a new `value` prop replaces it and keeps the internal selection |
| SelectMultiple.Component.ShouldFilter | src/components/ui-custom/select-multiple.tsx:196 | built-in filtering is on exactly when no `onSearch` is given |
| SelectMultiple.Component.Commit | src/components/ui-custom/select-multiple.tsx:100 | the internal selection changes only when uncontrolled |
| SelectMultiple.Component.HandleSelectItem | src/components/ui-custom/select-multiple.tsx:95-104 | reports the toggled selection and stores it only when uncontrolled |
| SelectMultiple.Component.RemoveItem | src/components/ui-custom/select-multiple.tsx:106-113 | reports the selection without the value and stores it only when uncontrolled |
| SelectMultiple.Component.BadgeRemove | src/components/ui-custom/select-multiple.tsx:166-170 | a badge's cross does nothing while disabled; otherwise it is `removeItem` |
| SelectMultiple.Component.Clear | src/components/ui-custom/select-multiple.tsx:129-132 | reports the empty selection and stores it only when uncontrolled |
| SelectMultiple.Component.SelectAll | src/components/ui-custom/select-multiple.tsx:134-143 | reports the select-all result and stores it only when uncontrolled |
| SelectMultiple.Component.OnOpenChange | src/components/ui-custom/select-multiple.tsx:124-127 | the popover's open state follows the request |
| SelectMultiple.Component.AllChecked | src/components/ui-custom/select-multiple.tsx:206 | the select-all check mark: the current selection is as long as the option list (a length comparison only) |
| SelectMultiple.Component.SelectAllRow | src/components/ui-custom/select-multiple.tsx:204-213 | the "Marcar todos" row is shown unless `showCheckAll` is `false` (omitted means shown); it is checked by the length comparison and disabled with the component |
| SelectMultiple.AllCheckedClears | src/components/ui-custom/select-multiple.tsx:134-143 | with at least one option, the check mark is on exactly when pressing select-all clears the selection: both use the same length test |
| SelectMultiple.AllCheckedForeignValue | src/components/ui-custom/select-multiple.tsx:206-222 | example: one selected value that is no option's value checks select-all while the only option's row stays unchecked |
| SelectMultiple.SelectTwiceUncontrolled | src/components/ui-custom/select-multiple.tsx:97-100 | in uncontrolled mode two clicks on a new value leave the stored selection as it was |
| SelectSearch.Filter | src/components/ui-custom/select-search.tsx:98-104 | the score is 0 or 1, and 1 exactly when the label matches; there is no `'select-all'` exception |
| SelectSearch.FilterSpec | src/components/ui-custom/select-search.tsx:98-104 | a value scores 1 exactly when the lower-cased label of the first option with that value contains the lower-cased search |
| SelectSearch.TriggerText | src/components/ui-custom/select-search.tsx:126 | the first matching option's label when a value is set and some option has it; the placeholder otherwise |
| SelectSearch.Rows | src/components/ui-custom/select-search.tsx:146-161 | one row per option, in order; checked exactly when its value is the current one; disabled when the component or the option is |
| SelectSearch.Component.constructor | src/components/ui-custom/select-search.tsx:76-78 | the popover starts closed and the internal value starts at `null` |
| SelectSearch.Component.CurrentValue | src/components/ui-custom/select-search.tsx:79-80 | a given value is used, `null` means none, and `undefined` falls back to the internal value |
| SelectSearch.Component.Rerender | src/components/ui-custom/select-search.tsx:79-80 | a render with a new `value` prop replaces it and keeps the internal value |
| SelectSearch.Component.ShouldFilter | src/components/ui-custom/select-search.tsx:138 | built-in filtering is on exactly when no `onSearch` is given |
| SelectSearch.Component.HandleSelectItem | src/components/ui-custom/select-search.tsx:89-96 | reports the picked value and closes the popover; picking the current value again keeps it; only an uncontrolled component stores it |
| SelectSearch.Component.OnOpenChange | src/components/ui-custom/select-search.tsx:106-109 | the popover's open state follows the request |
| Upload.Room | src/components/ui-custom/upload.tsx:81-85 | how many accepted files fit: none once the list has `maxFiles`, never more than were accepted |
| Upload.ReSelectAll | src/components/ui-custom/upload.tsx:59 | re-selection is forced when `maxFiles` is 1, and otherwise follows `reSelect` |
| Upload.DropResult | src/components/ui-custom/upload.tsx:77-85 | the list a drop reports (kept prefix, then the accepted files that fit); `OnDrop` is proved equal to it and `DropResultShape` states its shape |
| Upload.PickMessage | src/components/ui-custom/upload.tsx:89-97 | no toast without rejections; the size toast exactly when the first rejection's first error is `file-too-large`; otherwise the unsupported-file toast |
| Upload.OnDrop | src/components/ui-custom/upload.tsx:71-100 | a disabled drop does nothing; otherwise it reports the drop result and raises the toast for the first rejection |
| Upload.DropDepsChanged | src/components/ui-custom/upload.tsx:99 | the dependency list `[reSelectAll, value, disabled]` of the memoized `onDrop` differs between two renders; `value` is compared by identity (a new array counts as changed even with the same files) |
| Upload.StaleLimit | src/components/ui-custom/upload.tsx:71-100 | example (one scenario; the general facts are `Component.Render` and `DropDepsChanged`): raising `maxFiles` from 1 to 3 under `reSelect`, with the same `value` object, changes no dependency of `onDrop`, so a drop of three files still keeps one |
| Upload.DropResultShape | src/components/ui-custom/upload.tsx:77-85 | the kept prefix (empty under re-selection) stays in front; then come accepted files in order; the list grows only while below `maxFiles`, and fills up to it when enough were accepted |
| Upload.DropKeepsLimit | src/components/ui-custom/upload.tsx:81-85 | a list within the limit stays within it after a drop |
| Upload.SingleFileReplaces | src/components/ui-custom/upload.tsx:59 | with `maxFiles` 1 a drop replaces the list by the first accepted file |
| Upload.MaxFiles | src/components/ui-custom/upload.tsx:51 | `maxFiles = 1`: the given limit, or 1 when the prop is omitted |
| Upload.OmittedLimitReplaces | src/components/ui-custom/upload.tsx:51-85 | an upload rendered without `maxFiles` forces re-selection, so a drop replaces the list by the first accepted file whatever `reSelect` says |
| Upload.SingleFileDropLocks | src/components/ui-custom/upload.tsx:102-104 | with `maxFiles` 1 and no `reSelect`, a drop that accepts a file makes the list full |
| Upload.DropIndexSpec | src/components/ui-custom/upload.tsx:65 | removing by index deletes exactly that position and keeps the order; an index outside the list changes nothing |
| Upload.DropIndex | src/components/ui-custom/upload.tsx:65 | `filter` by index; what it computes is stated by `DropIndexSpec` |
| Upload.RemoveFile | src/components/ui-custom/upload.tsx:62-69 | nothing is reported without a value; otherwise the list without position `i` |
| Upload.IsFull | src/components/ui-custom/upload.tsx:103 | the list is full: present, exactly `maxFiles` long, and `reSelect` off (`reSelect`, not the forced `reSelectAll`) |
| Upload.Component.IsInputDisabled | src/components/ui-custom/upload.tsx:60 | the input is disabled when the component is disabled or the lock flag is on |
| Upload.Component.constructor | src/components/ui-custom/upload.tsx:58-104 | the lock flag starts `false` and the mount effect sets it at once: full exactly when the list has `maxFiles` files and `reSelect` is off; the drop handler captures the first props |
| Upload.Component.Render | src/components/ui-custom/upload.tsx:71-104 | when the parent passes a new `value` object (required whenever the files differ, impossible for an unchanged `undefined`/`null`) or `maxFiles` changed, the lock flag becomes "list full without `reSelect`"; otherwise it keeps its previous value, even if `reSelect` changed; the drop handler takes the new props only when `reSelectAll` or `disabled` changed or `value` is a new object |
| Upload.Component.Drop | src/components/ui-custom/upload.tsx:71-113 | while the input is disabled the zone has no drop handlers and a drop does nothing; otherwise it runs the memoized `onDrop`, so it uses the props that handler captured, possibly with an older `maxFiles` |
| Upload.RenderThenInputState | src/components/ui-custom/upload.tsx:60 | after a render that passes a new list or changes the limit, the input is disabled exactly when the component is disabled or the list is full |
| Upload.DropOnFullList | src/components/ui-custom/upload.tsx:102-133 | once the parent passes back a full list without `reSelect`, a further drop reports nothing and raises no toast |
| DatePicker.Decimal | src/components/ui-custom/date-picker.tsx:26 | `toString()` of a year is a non-empty string of decimal digits |
| DatePicker.ParseDecimalOfDecimal | src/components/ui-custom/date-picker.tsx:109-112 | `parseInt(n.toString(), 10)` gives `n` back |
| DatePicker.DecimalInjective | src/components/ui-custom/date-picker.tsx:26 | different years have different option values |
| DatePicker.YearOption | src/components/ui-custom/date-picker.tsx:26 | a year option's value and label are both its decimal text |
| DatePicker.YearsFrom | src/components/ui-custom/date-picker.tsx:23-29 | `count` consecutive years from `start`, those below 1 left out; stated by `YearsFromSpec` |
| DatePicker.GetYears | src/components/ui-custom/date-picker.tsx:21-30 | `getYears`: `2r + 1` years centred on the selected year, or on the current year when the date is invalid; stated by `GetYearsSpec` and `GetYearsFull` |
| DatePicker.YearsFromSpec | src/components/ui-custom/date-picker.tsx:23-29 | consecutive years from `max(start, 1)` to `start + count - 1`, one entry each, the ones below 1 left out |
| DatePicker.GetYearsSpec | src/components/ui-custom/date-picker.tsx:21-29 | the options run ascending, one year apart, from `max(Y - r, 1)` to `Y + r`, where Y is the selected date's year or the current year when the date is invalid |
| DatePicker.GetYearsFull | src/components/ui-custom/date-picker.tsx:23 | when no year falls below 1 there are exactly `2r + 1` options and the middle one is Y |
| DatePicker.YearOptionsRoundTrip | src/components/ui-custom/date-picker.tsx:105-114 | parsing any year option's value gives back that option's year |
| DatePicker.MonthOptionsSpec | src/components/ui-custom/date-picker.tsx:35-48 | twelve month options in calendar order, valued `'0'` to `'11'`, and parsing the value gives the position back |
| DatePicker.DayDisabled | src/components/ui-custom/date-picker.tsx:122 | the calendar's `disabled` matcher: before the minimum, after the maximum, or the whole calendar disabled |
| DatePicker.DayDisabledSpec | src/components/ui-custom/date-picker.tsx:122 | a day is disabled exactly when it lies before the minimum, after the maximum, or the calendar is disabled; the bounds themselves stay selectable |
| DatePicker.MinimumWithTimeDisablesItsDay | src/components/ui-custom/date-picker.tsx:122 | a minimum with a time of day after midnight disables the cell of its own day |
| DatePicker.Calendar.constructor | src/components/ui-custom/date-picker.tsx:77-85 | the displayed month starts at the value, or at now when there is none; an omitted `yearRange` is 50 |
| DatePicker.Calendar.YearOptions | src/components/ui-custom/date-picker.tsx:86 | the year select offers the years from `max(Y - yearRange, 1)` to `Y + yearRange` around the displayed month's year, ascending, each as its decimal text; with no year below 1 there are `2·yearRange+1`, centred on `Y` |
| DatePicker.Calendar.Rerender | src/components/ui-custom/date-picker.tsx:88-90 | a new given value moves the displayed month to it; clearing the value keeps the month |
| DatePicker.Calendar.SelectMonth | src/components/ui-custom/date-picker.tsx:95-104 | picking a month option sets the month to that option's position and keeps everything else |
| DatePicker.Calendar.SelectYear | src/components/ui-custom/date-picker.tsx:105-114 | picking a year sets the year to the parsed value and keeps everything else |
| DatePicker.Calendar.OnMonthChange | src/components/ui-custom/date-picker.tsx:121 | the grid's own navigation sets the displayed month |
| DatePicker.Picker.constructor | src/components/ui-custom/date-picker.tsx:150-173 | the popover starts closed; the field state takes the `value` prop, and its own date starts empty |
| DatePicker.Picker.ChangeDate | src/components/ui-custom/date-picker.tsx:151-173 | a committed date is reported as that date and a cleared field as `null`; the field keeps it only when uncontrolled (the `value` prop is `undefined`); a controlled field keeps showing the parent's value |
| DatePicker.Picker.FieldValue | src/components/ui-custom/date-picker.tsx:151-167 | the field shows the parent's date when controlled, nothing for `null`, and its own date when `value` is `undefined` |
| DatePicker.Picker.Rerender | src/components/ui-custom/date-picker.tsx:151 | a render with a new `value` prop replaces it and keeps the field's own date |
| DatePicker.Picker.PickDay | src/components/ui-custom/date-picker.tsx:216-220 | picking an enabled day commits that day with the time of day the field shows (midnight when empty), reports it, keeps it only when uncontrolled, and closes the popover |
| DatePicker.Picker.OnOpenChange | src/components/ui-custom/date-picker.tsx:201 | the popover's open state follows the request |
| PopConfirm.Overlay | src/providers/popconfirm-provider.tsx:45-51 | a spread key replaces the field when present, even with `undefined`, and leaves it otherwise |
| PopConfirm.Merge | src/providers/popconfirm-provider.tsx:45-51 | `{ ...state, isOpen: true, ...config }`; what it does to each field is stated by `MergeSpec` |
| PopConfirm.Shown | src/providers/popconfirm-provider.tsx:77 | `open={confirmState.isOpen}`: the dialog is open only when `isOpen` is `true` |
| PopConfirm.ShownTitle | src/providers/popconfirm-provider.tsx:78 | an absent title is shown as `''` |
| PopConfirm.MergeSpec | src/providers/popconfirm-provider.tsx:45-51 | opening shows the dialog unless the configuration has its own `isOpen`; each key the configuration has replaces its field, even with `undefined`; every other field keeps its previous value rather than the default |
| PopConfirm.MergeIdempotent | src/providers/popconfirm-provider.tsx:45-51 | opening twice with one configuration is opening once |
| PopConfirm.MergeFullConfig | src/providers/popconfirm-provider.tsx:45-51 | a configuration with every key fixes the state regardless of what came before |
| PopConfirm.Provider.constructor | src/providers/popconfirm-provider.tsx:24-34 | the state starts at the defaults: closed, no-op handlers, `Cancelar`/`Sim`, default variant |
| PopConfirm.Provider.Open | src/providers/popconfirm-provider.tsx:45-51 | the state becomes the merge of the old state and the configuration |
| PopConfirm.Provider.Close | src/providers/popconfirm-provider.tsx:53 | only `isOpen` changes, to false |
| PopConfirm.Provider.HandleCancel | src/providers/popconfirm-provider.tsx:55-61 | runs the current `onCancel` when there is one, then closes and changes nothing else |
| PopConfirm.Provider.HandleConfirm | src/providers/popconfirm-provider.tsx:63-68 | runs the current `onConfirm` when there is one, then closes and changes nothing else |
| PopConfirm.Provider.OnOpenChange | src/providers/popconfirm-provider.tsx:70-72 | a request to close closes; a request to open changes nothing |
| PopConfirm.OpenThenConfirm | src/providers/popconfirm-provider.tsx:45-68 | open then confirm runs the configured handler (or the previous one) and leaves the dialog closed, with the merged settings kept |
| Command.SearchForward | src/components/ui-custom/command.tsx:96-99 | search text reaches `onSearch` exactly when the palette is not disabled and `onSearch` is given; loading does not stop it |
| Command.IsDisabled | src/components/ui-custom/command.tsx:95 | the palette counts as disabled while disabled or loading |
| Command.EffectiveShouldFilter | src/components/ui-custom/command.tsx:102 | the primitive filters only without `onSearch`, and then as the `shouldFilter` prop says |
| Command.RenderItem | src/components/ui-custom/command.tsx:123-132 | an item is disabled when the palette is disabled, loading, or the item is; it keeps its handler and label; icon and shortcut show only when truthy |
| Command.RenderItems | src/components/ui-custom/command.tsx:122-133 | one rendered item per item, in order |
| Command.RenderGroup | src/components/ui-custom/command.tsx:121-134 | a group keeps its heading and renders its items, none when `items` is absent |
| Command.RenderGroups | src/components/ui-custom/command.tsx:120-135 | one rendered group per group, in order |
| Command.Render | src/components/ui-custom/command.tsx:95-135 | the whole palette view; stated by `RenderSpec` |
| Command.RenderSpec | src/components/ui-custom/command.tsx:95-135 | the input shows exactly when the `shouldFilter` prop (default true) is on, disabled while disabled or loading; built-in filtering only without `onSearch`; overlay follows `loading`; groups and items in order, a group without items empty |
| Breadcrumb.Entries | src/components/ui-custom/breadcrumb.tsx:60-70 | one dropdown entry per child, in order; a link with the child's own handler only when the parent has a handler |
| Breadcrumb.Classify | src/components/ui-custom/breadcrumb.tsx:51-91 | non-empty children give the ellipsis dropdown; otherwise a handler gives a link, `isPage` a page, anything else a plain label |
| Breadcrumb.ItemRender | src/components/ui-custom/breadcrumb.tsx:50-95 | an item is followed by a separator exactly when it is not the last |
| Breadcrumb.Render | src/components/ui-custom/breadcrumb.tsx:116-118 | `items.map` with `isLastItem` true for the last index only; stated by `RenderLength`, `RenderAt` and `RenderSeparators` |
| Breadcrumb.RenderUnfold | src/components/ui-custom/breadcrumb.tsx:116-118 | a list of several items starts with the first item and a separator |
| Breadcrumb.RenderLength | src/components/ui-custom/breadcrumb.tsx:116-118 | `n` items give `2n - 1` segments |
| Breadcrumb.RenderAt | src/components/ui-custom/breadcrumb.tsx:116-118 | item `k` is at position `2k`, followed by a separator unless it is the last |
| Breadcrumb.RenderSeparators | src/components/ui-custom/breadcrumb.tsx:116-118 | `n` items give exactly `n - 1` separators |
| MenuTree.RenderItem | src/components/ui-custom/dropdown-menu.tsx:56-91 | the item render shared by the three menus; stated by `RenderItemSpec` |
| MenuTree.RenderItems | src/components/ui-custom/dropdown-menu.tsx:75-77 | `items.map` of the item render, fragments in order; stated by `RenderItemsAppend`, `RenderItemsLength` and `RenderItemsUnlabelled` |
| MenuTree.RenderItemSpec | src/components/ui-custom/dropdown-menu.tsx:56-91 | a separator gives a line, preceded by a heading only for labelled separators with a truthy label; non-empty children give one submenu rendering them in order; otherwise one leaf with the item's flag, handler, and icon and shortcut when truthy |
| MenuTree.RenderItemsAppend | src/components/ui-custom/dropdown-menu.tsx:75-77 | rendering a list renders its parts one after the other |
| MenuTree.RenderItemsLength | src/components/ui-custom/dropdown-menu.tsx:57-64 | one node per item at its level, plus one heading per separator that shows its label |
| MenuTree.RenderItemsUnlabelled | src/components/ui-custom/menubar.tsx:55-57 | without separator headings, items and nodes correspond one to one |
| DropdownMenu.ItemRender | src/components/ui-custom/dropdown-menu.tsx:56-91 | a separator shows its truthy label as a heading above the line; submenus and leaves as in the shared render |
| DropdownMenu.Group | src/components/ui-custom/dropdown-menu.tsx:121-125 | the group holds one node per item plus one heading per labelled separator |
| DropdownMenu.GroupInOrder | src/components/ui-custom/dropdown-menu.tsx:121-125 | the group of a concatenation is the concatenation of the groups |
| ContextMenu.ItemRender | src/components/ui-custom/context-menu.tsx:56-91 | the same classification as the dropdown menu, labelled separators included |
| ContextMenu.Group | src/components/ui-custom/context-menu.tsx:121-125 | the group holds one node per item plus one heading per labelled separator |
| ContextMenu.GroupInOrder | src/components/ui-custom/context-menu.tsx:121-125 | the group of a concatenation is the concatenation of the groups |
| Menubar.ItemRender | src/components/ui-custom/menubar.tsx:54-82 | a separator is a bare line whatever its label; submenus and leaves as in the shared render |
| Menubar.Content | src/components/ui-custom/menubar.tsx:98-100 | a menu's content is one node per item, in order |
| Menubar.Render | src/components/ui-custom/menubar.tsx:94-103 | one menu per entry, in order, its trigger the entry's label |

## Left out

- Markup, class names, icons, accessibility attributes and React keys.
- Common.Lower: lower-cases the ASCII and Latin-1 capitals only (every letter of Portuguese); `toLowerCase` also folds other scripts (Latin Extended, Greek, Cyrillic) and has special cases such as `İ`.
- Focus and scrolling: the `setTimeout`/`scrollIntoView` on opening the multi-select is not modelled.
- The multi-select's "Fechar" button is not modelled separately; it is `OnOpenChange(false)`.
- Search text forwarding in the two selects (`onSearch`) is not modelled; only `Command.SearchForward` models it, and the selects' `shouldFilter` is off exactly when `onSearch` is given (`Component.ShouldFilter`).
- Upload: which files the drop zone accepts or rejects (`react-dropzone`'s type and size checks) is an input of `OnDrop`. The toast's text and its `maxSize` in MB are reduced to the `Message` value.
- Upload.OnDrop: the optional `onValueChange` is modelled as always receiving the result; a missing callback only drops the report. `OnDrop` takes the props the memoized handler captured (`Component.Drop` supplies them); a stale `onValueChange` is not modelled.
- Upload.Component.Render: whether the parent passes a new `value` array is an input (`valueIsNew`) rather than derived from object identity. Every drop reports a freshly built array (upload.tsx:77), so a parent that stores and passes back the reported list always passes a new one.
- DatePicker: `setMonth`/`setFullYear` overflow, for example 31 March moved to April, is not modelled. `SelectMonth` and `SelectYear` set the field only.
- DatePicker: time zones (`America/Sao_Paulo`) and the `parseDateTime`/`format` conversions are not modelled.
- DatePicker.Picker.ChangeDate: only the date-field state's controlled/uncontrolled rule is modelled. Typing in the segmented field, a `defaultValue`, and the state's skipping of `onChange` when the value is the same object are not modelled; the method receives the committed date directly.
- DatePicker.Picker.PickDay: when the field is empty the date-field state commits a date-only value, which becomes midnight in the São Paulo time zone; the model commits midnight without a zone.
- DatePicker.Calendar.SelectMonth and DatePicker.Calendar.SelectYear require the option values the selects offer (`IsMonthValue`, `IsDigits`). The source's `parseInt` of any other text is not modelled.
- Breadcrumb and menus: a missing `children` list is modelled as the empty list. Grandchildren of a breadcrumb item are never rendered and are not kept.
- In the selects, the calendar, the date picker and the dialog provider, props other than `value` are fixed for the life of a component instance (constructor constants). The upload component takes all its props anew on each render.
- Prop defaults: `maxFiles = 1` (`Upload.MaxFiles`), the calendar's `yearRange = 50` (`DatePicker.Calendar.constructor`) and `showCheckAll = true` (`SelectMultiple.Component.SelectAllRow`) are modelled. `Upload.Props` holds the effective `maxFiles`, after the default. The default of 10 in `getYears`'s own signature is never used by the calendar, which always passes its range.
- JavaScript numbers `maxFiles` and `calendarYearRange` (`yearRange`) are modelled as unbounded integers; fractional or non-finite values are not modelled.
- Tabs, theme, toasts, form wrappers and the other source files are not part of this model.
