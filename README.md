# aw-grid: page window and selection logic

This project models the stateful core of the `aw-grid` component of
ng2-grid-livescroll, a virtualised grid that loads rows page by page as the
viewport scrolls and keeps a row selection across pages. The component
itself is mostly framework wiring; what is modelled is:

- `select(ids?)`: replacing the selection, and resolving it against the rows
  of every resident page into one batched `selectMany` call;
- reading the visible page indexes from the rendered page markers
  (`parseInt(…, 10)`, then dropping NaN);
- the `columnsDef` setter, which sets every column's `cellWidth` to its
  `width` in place and republishes the list;
- `refresh()`, with its one-shot `initialRequestDone` handler that sets
  `initialized` and unsubscribes itself;
- `onLiveScroll`, the `allowDrag`/`allowDrop` setters and getters,
  `ngAfterViewInit` (refresh only with columns) and `ngOnDestroy` (release
  every subscription), and the five pass-through event forwards.

Layout:

- `wrappers.dfy` — `Option`, standing for `undefined`/`null`, and for NaN.
- `parse_int.dfy` (module `JsParseInt`) — `parseInt(s, 10)` as section 18.2.5
  of the ECMAScript 2015 language specification defines it, with its round
  trip against the decimal spelling of an integer.
- `visible_pages.dfy` (module `VisiblePages`) — the `map`/`filter` pipeline
  over page markers.
- `row_selection.dfy` (module `RowSelection`) — the `map`/`reduce`/`filter`
  pipeline of `select`, a page-by-page reference definition it is proved
  equal to, and the filter callback as written (see Findings).
- `aw_grid.dfy` (module `Grid`) — class `AwGridModel` holding the
  component's fields and the state of the services it drives (data service:
  `selectedIds`, `currentPages`, `pageServices`, `sortField`, `sortDsc`;
  drag-and-drop service: `dragDisabled`, `dropDisabled`; select service:
  its selection mode), a log `calls` of the calls made on those services in
  order, a log `emitted` of the component's outputs, and class `ColumnDef`
  for the column objects the setter mutates. `Valid()` states the one-shot
  invariant: each armed handler has run once if it has unsubscribed and not
  at all otherwise, and `initialized` holds exactly when one has run.
  The methods' ``modifies this`field`` frames state what each operation
  leaves unchanged.

Facts about the code that the model keeps:

- `select(ids)` assigns `selected` and the data service's `selectedIds`
  before its early return, so the selection is replaced even when no page is
  resident.
- The visible page indexes keep document order and duplicates.
- Rows are concatenated in `pageServices` order.

One exception: `Grid.AwGridModel.Select` passes on the rows chosen by the
membership filter `RowSelection.FilterSelected`, not by the filter as
written, `RowSelection.FilterSelectedAsWritten` (see Findings).

## Model

| member | source | states |
|---|---|---|
| `JsParseInt.ParseInt` | projects/ng2-grid-livescroll/src/lib/components/AwGrid.ts:133 | `parseInt(s, 10)`: skips leading white space, reads an optional sign and the longest run of decimal digits; `None` (NaN) when there is no digit |
| `JsParseInt.ParseIntRoundTrip` | projects/ng2-grid-livescroll/src/lib/components/AwGrid.ts:133 | the decimal spelling of any integer (with '-' when negative) parses back to that integer |
| `JsParseInt.ParseIntOfDecimalPrefix` | projects/ng2-grid-livescroll/src/lib/components/AwGrid.ts:133 | parsing stops at the first non-digit: a decimal spelling followed by text that does not start with a digit parses to the spelled integer |
| `JsParseInt.ParseIntSkipsWhiteSpace` | projects/ng2-grid-livescroll/src/lib/components/AwGrid.ts:133 | leading white space (ECMAScript white space and line terminators) does not change the parse result |
| `VisiblePages.ParseMarker` | projects/ng2-grid-livescroll/src/lib/components/AwGrid.ts:133 | one marker's `page-index` attribute parsed with `parseInt`, a missing attribute read as the string "null" |
| `VisiblePages.ParseMarkers` | projects/ng2-grid-livescroll/src/lib/components/AwGrid.ts:132-133 | the `map` step: one parse result per marker, in document order |
| `VisiblePages.VisiblePageIndexes` | projects/ng2-grid-livescroll/src/lib/components/AwGrid.ts:132-134 | the indexes passed to `onLiveScroll`: the parsed markers with the NaN ones dropped |
| `VisiblePages.MissingMarkerIsNaN` | projects/ng2-grid-livescroll/src/lib/components/AwGrid.ts:133 | a marker with no `page-index` attribute parses to NaN |
| `VisiblePages.KeepParsed` | projects/ng2-grid-livescroll/src/lib/components/AwGrid.ts:134 | the output is no longer than the input, and is empty when every marker is NaN (so also for no markers) |
| `VisiblePages.KeepParsedAppend` | projects/ng2-grid-livescroll/src/lib/components/AwGrid.ts:132-134 | order is kept: the indexes of a concatenation of markers are the indexes of the first part followed by those of the second |
| `VisiblePages.KeepParsedMember` | projects/ng2-grid-livescroll/src/lib/components/AwGrid.ts:134 | an index is in the output if and only if some marker parsed to it |
| `VisiblePages.KeepParsedCount` | projects/ng2-grid-livescroll/src/lib/components/AwGrid.ts:134 | no de-duplication: each index occurs as many times as markers parsed to it |
| `VisiblePages.KeepParsedAllValid` | projects/ng2-grid-livescroll/src/lib/components/AwGrid.ts:134 | when no marker is NaN the output is exactly the parsed values in marker order |
| `VisiblePages.VisiblePageIndexesRoundTrip` | projects/ng2-grid-livescroll/src/lib/components/AwGrid.ts:132-134 | markers carrying the decimal spelling of page indexes are read back as exactly those indexes, in order, duplicates included |
| `RowSelection.RowsStates` | projects/ng2-grid-livescroll/src/lib/components/AwGrid.ts:186-187 | the `map` step: each resident page's `rowsState`, in `pageServices` order |
| `RowSelection.ReduceConcat` | projects/ng2-grid-livescroll/src/lib/components/AwGrid.ts:188 | `reduce` of `concat` without an initial value: a left fold seeded with the first page's rows |
| `RowSelection.FilterSelected` | projects/ng2-grid-livescroll/src/lib/components/AwGrid.ts:189 | the membership filter: keeps the rows whose id is in the selection, in order |
| `RowSelection.SelectedRows` | projects/ng2-grid-livescroll/src/lib/components/AwGrid.ts:186-189 | the argument of `selectMany`: the concatenated resident rows filtered to the selection |
| `RowSelection.ReduceConcatFlattens` | projects/ng2-grid-livescroll/src/lib/components/AwGrid.ts:186-188 | the left-folding `reduce` of `concat` over a non-empty page list equals the page-by-page concatenation of all rows |
| `RowSelection.FilterSelectedMember` | projects/ng2-grid-livescroll/src/lib/components/AwGrid.ts:189 | a row is kept if and only if it is in the input and its id is selected |
| `RowSelection.FilterSelectedAppend` | projects/ng2-grid-livescroll/src/lib/components/AwGrid.ts:189 | the filter preserves relative order: filtering a concatenation concatenates the filtered parts |
| `RowSelection.FilterSelectedCount` | projects/ng2-grid-livescroll/src/lib/components/AwGrid.ts:189 | a row with a selected id occurs in the output as often as in the input |
| `RowSelection.SelectedRowsMember` | projects/ng2-grid-livescroll/src/lib/components/AwGrid.ts:185-191 | a row reaches `selectMany` if and only if its id is selected and it is in some resident page's `rowsState` |
| `RowSelection.SelectedRowsAppend` | projects/ng2-grid-livescroll/src/lib/components/AwGrid.ts:186-189 | rows of earlier pages in `pageServices` come first: the selected rows of a page list split into those of its parts, in order |
| `RowSelection.Find` | projects/ng2-grid-livescroll/src/lib/components/AwGrid.ts:189 | `Array.prototype.find(id => id == r.id)`: the first selected id equal to the row's id, or undefined |
| `RowSelection.FilterSelectedAsWritten` | projects/ng2-grid-livescroll/src/lib/components/AwGrid.ts:189 | the filter as written: keeps a row when `find`'s result is truthy (defined and not "") |
| `RowSelection.FindIsMembership` | projects/ng2-grid-livescroll/src/lib/components/AwGrid.ts:189 | `selected.find(id => id == r.id)` returns `r.id` when it is selected and undefined otherwise |
| `RowSelection.FilterAsWrittenMember` | projects/ng2-grid-livescroll/src/lib/components/AwGrid.ts:189 | as written, a row is kept if and only if its id is selected and is not the empty string |
| `RowSelection.FilterAsWrittenAgrees` | projects/ng2-grid-livescroll/src/lib/components/AwGrid.ts:189 | when no selected id is empty, the filter as written keeps exactly the rows the membership filter keeps |
| `RowSelection.EmptyIdDroppedAsWritten` | projects/ng2-grid-livescroll/src/lib/components/AwGrid.ts:189 | a selected row with id "" is dropped as written and kept by the membership filter |
| `Grid.AwGridModel.constructor` | projects/ng2-grid-livescroll/src/lib/components/AwGrid.ts:95-114 | the five forwarding subscriptions are live, field defaults hold (page size 100, multiple selection, not initialized, empty `columns`), no call made, no handler armed |
| `Grid.AwGridModel.AllowDrag` | projects/ng2-grid-livescroll/src/lib/components/AwGrid.ts:42-44 | the `allowDrag` getter: the negation of the drag-and-drop service's `dragDisabled` |
| `Grid.AwGridModel.SetAllowDrag` | projects/ng2-grid-livescroll/src/lib/components/AwGrid.ts:38-44 | `dragDisabled` becomes the negation of the value, the getter returns the value set, and `dropDisabled` is untouched |
| `Grid.AwGridModel.AllowDrop` | projects/ng2-grid-livescroll/src/lib/components/AwGrid.ts:51-53 | the `allowDrop` getter: the negation of the drag-and-drop service's `dropDisabled` |
| `Grid.AwGridModel.SetAllowDrop` | projects/ng2-grid-livescroll/src/lib/components/AwGrid.ts:47-53 | `dropDisabled` becomes the negation of the value, the getter returns the value set, and `dragDisabled` is untouched |
| `Grid.AwGridModel.SetColumnsDef` | projects/ng2-grid-livescroll/src/lib/components/AwGrid.ts:58-66 | every column of the list has `cellWidth == width` in place, widths and fields are unchanged, no other object changes, and the stored definition and the latest `columns` value are that same list |
| `Grid.AwGridModel.NgAfterViewInit` | projects/ng2-grid-livescroll/src/lib/components/AwGrid.ts:123-145 | the selection mode is mirrored, a live scroll subscription is added, and the refresh effects happen if and only if there is a non-empty column definition |
| `Grid.AwGridModel.NgOnDestroy` | projects/ng2-grid-livescroll/src/lib/components/AwGrid.ts:147-149 | every subscription is released, none is added or removed, and no channel stays subscribed |
| `Grid.AwGridModel.Forward` | projects/ng2-grid-livescroll/src/lib/components/AwGrid.ts:98-114 | a select-service event is re-emitted unchanged on its output exactly while its subscription is live |
| `Grid.AwGridModel.Refresh` | projects/ng2-grid-livescroll/src/lib/components/AwGrid.ts:163-174 | one new one-shot handler is armed; `initialize(pageSize, colsDef, idField)`, the scroller reset and the data refresh are called in that order; `currentPages == [0]`; the one-shot invariant is kept |
| `Grid.AwGridModel.InitialRequestDone` | projects/ng2-grid-livescroll/src/lib/components/AwGrid.ts:164-168 | each still-armed handler runs exactly once and unsubscribes, handlers that already ran do not run again, and `initialized` becomes true if some handler ran and is never reset |
| `Grid.AwGridModel.Select` | projects/ng2-grid-livescroll/src/lib/components/AwGrid.ts:176-192 | given ids replace both `selected` and `selectedIds` even with no resident page; no ids leave both; with no resident page no call is made; otherwise exactly one `selectMany` call with the selected resident rows (no rows when `selected` is undefined and no row is resident) |
| `Grid.AwGridModel.OnLiveScroll` | projects/ng2-grid-livescroll/src/lib/components/AwGrid.ts:194-197 | one `changePages` call with the pages unchanged and the current sort field, sort direction and selection |
| `Grid.AwGridModel.Scrolled` | projects/ng2-grid-livescroll/src/lib/components/AwGrid.ts:126-137 | while the scroll subscription is live, one `changePages` call with the visible page indexes read from the markers; none after it is released |

## Left out

- `Grid.AwGridModel.Select`: it uses the membership filter, not the filter as written, which also drops rows whose id is the empty string (see Findings).
- `Grid.AwGridModel.Select`: it does not model the TypeError thrown when no ids are given, `selected` is undefined and some page holds a row (the filter callback calls `find` on undefined); its requires excludes exactly that case.
- `Grid.AwGridModel.SetColumnsDef`: it takes a list, so it does not model a null or undefined `cols`, which the source stores in `_colsDef` before throwing at `forEach`.
- `Grid.AwGridModel.Refresh`: it assumes the live-scroll directive is present, as it is once the view is initialised; called before that, the source would throw at `reset()` after `initialize` was called and `currentPages` set.
- `Grid.AwGridModel.InitialRequestDone`: it assumes the notification arrives after `subscribe` has returned; a synchronous emission during `subscribe` would find `sub` unassigned and throw, which is not modelled.
- Angular decorators, templates, change detection, `@ViewChild`/`@ViewChildren` wiring and the `pages` getter: framework plumbing.
- The DOM query for page elements and reading their `page-index` attribute: the markers' attribute values are the input of `Scrolled`.
- `debounceTime(500)` and `distinctUntilChanged` on scroll events: they depend on time; `Scrolled` models one delivered event.
- `setTimeout(() => this.fit(), 100)` in the `pageServices` stream, `fit()`, `onColumnResizing` and `columnResizing`: timer and layout side effects; the scroller `reset()` is only logged.
- The `totalCount` getter: a plain read of the data service, whose internals are not part of this model.
- The data, select and drag-and-drop services' own behaviour (`initialize`, `refresh`, `changePages`, `selectMany`, `initialRequestDone`): their source is not part of this model; their state is fields of `AwGridModel` and their calls are logged.
- Inputs the core does not read (`noRecordsMessage`, `dragSourceType`, `acceptDropTypes`, `emptyRowHeight`, `height`), the row fields beyond `id`, and the shape of click events beyond the row.
- `parseInt` returns a double: the model's unbounded integers do not show the loss of precision beyond 2^53 or the distinction between -0 and 0.
- Ids are strings compared with `==`; JavaScript's loose equality between a number and a string is not modelled.
- In the source `selected` and the data service's `selectedIds` become the same array object; the model stores equal values and does not capture that later in-place changes to one would show in the other.

## Findings

| source | as written | input that shows it | evidently intended | confidence | as-written member | corrected member |
|---|---|---|---|---|---|---|
| projects/ng2-grid-livescroll/src/lib/components/AwGrid.ts:189 | the filter keeps a row when `selected.find(id => id == r.id)` is truthy; `find` returns the matching id itself, so a match on the empty id "" is falsy and the row is dropped | `selected == [""]` with one resident row whose id is "" | keep every resident row whose id is in `selected` | low; not executed | `RowSelection.EmptyIdDroppedAsWritten` | `RowSelection.FilterSelectedMember` |
