/**
 * The `aw-grid` component: its own fields, the state of the services it
 * drives (data service, select service, drag-and-drop service) as plain
 * fields, and the calls it makes on them as an ordered log.
 */
module Grid {
  import opened Wrappers
  import opened RowSelection
  import opened VisiblePages

  /** Mirrored into the select service when the view is ready. */
  datatype SelectionMode = NoSelection | Single | Multiple

  /** A column definition. The host keeps references to these objects; the
      `columnsDef` setter updates their `cellWidth` in place. */
  class ColumnDef {
    var field: string
    var width: Option<real>
    var cellWidth: Option<real>

    constructor (field: string, width: Option<real>)
      ensures this.field == field && this.width == width && cellWidth == None
    {
      this.field := field;
      this.width := width;
      cellWidth := None;
    }
  }

  /** Calls the component makes on the services and the live-scroll directive. */
  datatype Call =
    | Initialize(pageSize: int, columns: Option<seq<ColumnDef>>, idField: Option<string>)
    | ResetScroll
    | RefreshData
    | SelectMany(rows: seq<Row>)
    | ChangePages(pages: seq<int>, sortField: Option<string>, sortDsc: bool, selectedIds: Option<seq<string>>)

  /** The subscriptions the component releases when it is destroyed. */
  datatype Channel = SelectChannel | RowCreateChannel | RowDestroyChannel | DoubleClickChannel | ClickChannel | ScrollChannel

  datatype Teardown = Teardown(channel: Channel, subscribed: bool)

  /** Events of the select service, re-emitted on the component's outputs. */
  datatype GridEvent =
    | Selected(rows: seq<Row>)
    | RowCreated(row: Row, page: int)
    | RowDestroyed(row: Row, page: int)
    | DoubleClicked(row: Row)
    | Clicked(row: Row)

  function ChannelOf(e: GridEvent): Channel {
    match e
    case Selected(_) => SelectChannel
    case RowCreated(_, _) => RowCreateChannel
    case RowDestroyed(_, _) => RowDestroyChannel
    case DoubleClicked(_) => DoubleClickChannel
    case Clicked(_) => ClickChannel
  }

  class AwGridModel {
    // The component's own state.
    var idField: Option<string>
    var pageSize: int
    var selectionMode: SelectionMode
    var selected: Option<seq<string>>
    var colsDef: Option<seq<ColumnDef>>
    var columns: seq<ColumnDef>          // latest value of the `columns` stream
    var initialized: bool
    var teardowns: seq<Teardown>
    var emitted: seq<GridEvent>          // everything emitted on the outputs

    // State of the services the component reads and writes.
    var selectedIds: Option<seq<string>>
    var currentPages: seq<int>
    var pageServices: seq<PageService>
    var sortField: Option<string>
    var sortDsc: bool
    var dragDisabled: bool
    var dropDisabled: bool
    var selectServiceMode: Option<SelectionMode>
    var calls: seq<Call>

    // The one-shot `initialRequestDone` handlers, one per `refresh`, in
    // subscription order: `armed[i]` while handler i is still subscribed,
    // `runs[i]` the number of times it has run.
    var armed: seq<bool>
    ghost var runs: seq<nat>

    /** Each handler has run once if it has unsubscribed itself and not at
        all otherwise; the component is initialized exactly when one has run. */
    ghost predicate Valid()
      reads this`armed, this`runs, this`initialized
    {
      && |runs| == |armed|
      && (forall i :: 0 <= i < |armed| ==> runs[i] == if armed[i] then 0 else 1)
      && (initialized <==> exists i :: 0 <= i < |armed| && !armed[i])
    }

    /** The five forwarding subscriptions are made at construction. */
    constructor (pageServices: seq<PageService>, sortField: Option<string>, sortDsc: bool,
                 dragDisabled: bool, dropDisabled: bool)
      ensures Valid()
      ensures this.pageServices == pageServices && this.sortField == sortField && this.sortDsc == sortDsc
      ensures this.dragDisabled == dragDisabled && this.dropDisabled == dropDisabled
      ensures idField == None && pageSize == 100 && selectionMode == Multiple
      ensures selected == None && colsDef == None && columns == [] && !initialized
      ensures teardowns == [Teardown(SelectChannel, true), Teardown(RowCreateChannel, true),
                            Teardown(RowDestroyChannel, true), Teardown(DoubleClickChannel, true),
                            Teardown(ClickChannel, true)]
      ensures emitted == [] && calls == [] && armed == []
      ensures selectedIds == None && currentPages == [] && selectServiceMode == None
    {
      idField := None;
      pageSize := 100;
      selectionMode := Multiple;
      selected := None;
      colsDef := None;
      columns := [];
      initialized := false;
      teardowns := [Teardown(SelectChannel, true), Teardown(RowCreateChannel, true),
                    Teardown(RowDestroyChannel, true), Teardown(DoubleClickChannel, true),
                    Teardown(ClickChannel, true)];
      emitted := [];
      selectedIds := None;
      currentPages := [];
      this.pageServices := pageServices;
      this.sortField := sortField;
      this.sortDsc := sortDsc;
      this.dragDisabled := dragDisabled;
      this.dropDisabled := dropDisabled;
      selectServiceMode := None;
      calls := [];
      armed := [];
      runs := [];
    }

    /** The `allowDrag` getter. */
    function AllowDrag(): bool
      reads this`dragDisabled
    {
      !dragDisabled
    }

    /** The `allowDrag` setter; the getter then returns what was set. */
    method SetAllowDrag(v: bool)
      modifies this`dragDisabled
      ensures dragDisabled == !v
      ensures AllowDrag() == v
    {
      dragDisabled := !v;
    }

    /** The `allowDrop` getter. */
    function AllowDrop(): bool
      reads this`dropDisabled
    {
      !dropDisabled
    }

    /** The `allowDrop` setter; the getter then returns what was set. */
    method SetAllowDrop(v: bool)
      modifies this`dropDisabled
      ensures dropDisabled == !v
      ensures AllowDrop() == v
    {
      dropDisabled := !v;
    }

    /** The `columnsDef` setter: every column's `cellWidth` becomes its
        `width`, in place, and the same list is published on `columns`. */
    method SetColumnsDef(cols: seq<ColumnDef>)
      modifies this`colsDef, this`columns, cols`cellWidth
      ensures colsDef == Some(cols) && columns == cols
      ensures forall c :: c in cols ==> c.cellWidth == c.width
      ensures forall c :: c in cols ==> c.width == old(c.width) && c.field == old(c.field)
    {
      colsDef := Some(cols);
      for i := 0 to |cols|
        invariant colsDef == Some(cols)
        invariant forall j :: 0 <= j < i ==> cols[j].cellWidth == cols[j].width
      {
        cols[i].cellWidth := cols[i].width;
      }
      columns := cols;
    }

    predicate HasColumns()
      reads this`colsDef
    {
      colsDef.Some? && |colsDef.value| > 0
    }

    /** Whether the subscription for `ch` is still live. */
    predicate Subscribed(ch: Channel)
      reads this`teardowns
    {
      Teardown(ch, true) in teardowns
    }

    /** `ngAfterViewInit`: mirror the selection mode, subscribe to scrolling,
        and refresh when there are columns. */
    method NgAfterViewInit()
      requires Valid()
      modifies this`selectServiceMode, this`teardowns, this`armed, this`runs, this`calls, this`currentPages
      ensures Valid()
      ensures selectServiceMode == Some(selectionMode)
      ensures teardowns == old(teardowns) + [Teardown(ScrollChannel, true)]
      ensures HasColumns() ==>
        && armed == old(armed) + [true]
        && calls == old(calls) + [Initialize(pageSize, colsDef, idField), ResetScroll, RefreshData]
        && currentPages == [0]
      ensures !HasColumns() ==>
        armed == old(armed) && runs == old(runs) && calls == old(calls) && currentPages == old(currentPages)
    {
      selectServiceMode := Some(selectionMode);
      teardowns := teardowns + [Teardown(ScrollChannel, true)];
      if HasColumns() {
        Refresh();
      }
    }

    /** `ngOnDestroy`: every subscription is released. */
    method NgOnDestroy()
      modifies this`teardowns
      ensures |teardowns| == |old(teardowns)|
      ensures forall i :: 0 <= i < |teardowns| ==> teardowns[i] == Teardown(old(teardowns[i]).channel, false)
      ensures forall ch :: !Subscribed(ch)
    {
      var i := 0;
      while i < |teardowns|
        invariant 0 <= i <= |teardowns| == |old(teardowns)|
        invariant forall j :: 0 <= j < i ==> teardowns[j] == Teardown(old(teardowns[j]).channel, false)
        invariant forall j :: i <= j < |teardowns| ==> teardowns[j] == old(teardowns[j])
      {
        teardowns := teardowns[i := teardowns[i].(subscribed := false)];
        i := i + 1;
      }
    }

    /** The select service emits `e`: it is re-emitted unchanged on the
        matching output while that subscription is live. */
    method Forward(e: GridEvent)
      modifies this`emitted
      ensures emitted == old(emitted) + if Subscribed(ChannelOf(e)) then [e] else []
    {
      if Subscribed(ChannelOf(e)) {
        emitted := emitted + [e];
      }
    }

    /** `refresh`: arm a one-shot handler, initialize the data service, reset
        the window to page 0, reset the scroller, then fetch. */
    method Refresh()
      requires Valid()
      modifies this`armed, this`runs, this`calls, this`currentPages
      ensures Valid()
      ensures armed == old(armed) + [true] && runs == old(runs) + [0]
      ensures calls == old(calls) + [Initialize(pageSize, colsDef, idField), ResetScroll, RefreshData]
      ensures currentPages == [0]
    {
      ghost var before := armed;
      armed := armed + [true];
      runs := runs + [0];
      assert forall i :: 0 <= i < |before| ==> armed[i] == before[i];
      calls := calls + [Initialize(pageSize, colsDef, idField)];
      currentPages := [0];
      calls := calls + [ResetScroll];
      calls := calls + [RefreshData];
    }

    /** The data service's `initialRequestDone` fires: each handler still
        subscribed runs once, unsubscribing itself and setting `initialized`. */
    method InitialRequestDone()
      requires Valid()
      modifies this`armed, this`runs, this`initialized
      ensures Valid()
      ensures |armed| == |old(armed)| && forall i :: 0 <= i < |armed| ==> !armed[i]
      ensures forall i :: 0 <= i < |runs| ==> runs[i] == old(runs[i]) + if old(armed[i]) then 1 else 0
      ensures initialized == (old(initialized) || true in old(armed))
    {
      var i := 0;
      while i < |armed|
        invariant 0 <= i <= |armed| == |old(armed)| == |runs|
        invariant forall j :: 0 <= j < i ==> !armed[j] && runs[j] == old(runs[j]) + if old(armed[j]) then 1 else 0
        invariant forall j :: i <= j < |armed| ==> armed[j] == old(armed[j]) && runs[j] == old(runs[j])
        invariant initialized == (old(initialized) || true in old(armed)[..i])
      {
        if armed[i] {
          armed := armed[i := false];
          runs := runs[i := runs[i] + 1];
          initialized := true;
        }
        assert old(armed)[..i + 1] == old(armed)[..i] + [old(armed)[i]];
        i := i + 1;
      }
      assert old(armed)[..i] == old(armed);
    }

    /** `select(ids?)`. The selection is replaced first when ids are given;
        with pages resident, one `selectMany` call receives the selected
        resident rows. Without ids and with `selected` undefined, the filter
        callback would throw on the first resident row; with no resident row
        it never runs and `selectMany` receives no rows. */
    method Select(ids: Option<seq<string>>)
      requires ids.Some? || selected.Some? || Flatten(RowsStates(pageServices)) == []
      modifies this`selected, this`selectedIds, this`calls
      ensures selected == if ids.Some? then ids else old(selected)
      ensures selectedIds == if ids.Some? then ids else old(selectedIds)
      ensures pageServices == [] ==> calls == old(calls)
      ensures pageServices != [] && selected.Some? ==>
        calls == old(calls) + [SelectMany(SelectedRows(pageServices, selected.value))]
      ensures pageServices != [] && selected.None? ==> calls == old(calls) + [SelectMany([])]
    {
      if ids.Some? {
        selected := ids;
        selectedIds := ids;
      }
      if pageServices == [] {
        return;
      }
      var rows := if selected.Some? then SelectedRows(pageServices, selected.value) else [];
      calls := calls + [SelectMany(rows)];
    }

    /** `onLiveScroll`: the pages are passed on with the current sort and
        selection, unchanged. */
    method OnLiveScroll(pagesToLoad: seq<int>)
      modifies this`calls
      ensures calls == old(calls) + [ChangePages(pagesToLoad, sortField, sortDsc, selected)]
    {
      calls := calls + [ChangePages(pagesToLoad, sortField, sortDsc, selected)];
    }

    /** The scroll subscription fires (after debouncing, which is not
        modelled): the visible page indexes are read from the markers. */
    method Scrolled(markers: seq<Option<string>>)
      modifies this`calls
      ensures calls == old(calls) +
        if Subscribed(ScrollChannel)
        then [ChangePages(VisiblePageIndexes(markers), sortField, sortDsc, selected)]
        else []
    {
      if Subscribed(ScrollChannel) {
        OnLiveScroll(VisiblePageIndexes(markers));
      }
    }
  }

  /** A client of the model: two refreshes arm two handlers; the first
      notification runs each once, the second runs none again; after
      destruction nothing is forwarded any more. */
  method OneShotScenario()
  {
    var g := new AwGridModel([], None, false, false, false);
    g.Refresh();
    g.Refresh();
    assert !g.initialized;
    g.InitialRequestDone();
    assert g.initialized && g.runs == [1, 1];
    g.InitialRequestDone();
    assert g.initialized && g.runs == [1, 1];
    g.NgOnDestroy();
    g.Forward(Clicked(Row("r1", map[])));
    assert g.emitted == [];
  }
}
