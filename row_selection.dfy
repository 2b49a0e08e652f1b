/**
 * The rows `select` hands to `selectMany`: every resident page's `rowsState`,
 * concatenated in `pageServices` order by a `reduce` without an initial
 * value, then filtered to the rows whose id is selected.
 */
module RowSelection {
  import opened Wrappers

  /** A grid row; only its id matters to selection, the rest is carried along. */
  datatype Row = Row(id: string, data: map<string, string>)

  /** A resident page as the data service exposes it. */
  datatype PageService = PageService(rowsState: seq<Row>)

  /** `pageServices.map(s => s.rowsState)` */
  function RowsStates(pages: seq<PageService>): seq<seq<Row>> {
    seq(|pages|, i requires 0 <= i < |pages| => pages[i].rowsState)
  }

  /** Reference definition: all rows, page after page. */
  function Flatten(xss: seq<seq<Row>>): seq<Row> {
    if xss == [] then [] else xss[0] + Flatten(xss[1..])
  }

  /** `acc` followed by the pages of `rest` appended one at a time, as
      `reduce` does: ((x0.concat(x1)).concat(x2))… */
  function ConcatLeft(acc: seq<Row>, rest: seq<seq<Row>>): seq<Row>
    decreases |rest|
  {
    if rest == [] then acc else ConcatLeft(acc + rest[0], rest[1..])
  }

  /** `reduce((x, y) => x.concat(y))` with no initial value: it starts from the
      first element, and throws on an empty array (callers never pass one). */
  function ReduceConcat(xss: seq<seq<Row>>): seq<Row>
    requires |xss| > 0
  {
    ConcatLeft(xss[0], xss[1..])
  }

  lemma {:induction false} ConcatLeftFlattens(acc: seq<Row>, rest: seq<seq<Row>>)
    ensures ConcatLeft(acc, rest) == acc + Flatten(rest)
    decreases |rest|
  {
    if rest != [] {
      ConcatLeftFlattens(acc + rest[0], rest[1..]);
      assert (acc + rest[0]) + Flatten(rest[1..]) == acc + (rest[0] + Flatten(rest[1..]));
    }
  }

  /** The left fold `reduce` performs gives the same rows, in the same order,
      as the page-by-page reference definition. */
  lemma ReduceConcatFlattens(xss: seq<seq<Row>>)
    requires |xss| > 0
    ensures ReduceConcat(xss) == Flatten(xss)
  {
    ConcatLeftFlattens(xss[0], xss[1..]);
  }

  lemma {:induction false} FlattenAppend(a: seq<seq<Row>>, b: seq<seq<Row>>)
    ensures Flatten(a + b) == Flatten(a) + Flatten(b)
  {
    if a == [] {
      assert a + b == b;
    } else {
      assert (a + b)[0] == a[0];
      assert (a + b)[1..] == a[1..] + b;
      FlattenAppend(a[1..], b);
    }
  }

  lemma {:induction false} FlattenMember(xss: seq<seq<Row>>, r: Row)
    ensures r in Flatten(xss) <==> exists i :: 0 <= i < |xss| && r in xss[i]
  {
    if xss != [] {
      FlattenMember(xss[1..], r);
      if r in Flatten(xss[1..]) {
        var i :| 0 <= i < |xss[1..]| && r in xss[1..][i];
        assert r in xss[i + 1];
      }
      if exists i :: 0 <= i < |xss| && r in xss[i] {
        var i :| 0 <= i < |xss| && r in xss[i];
        if i > 0 {
          assert r in xss[1..][i - 1];
        }
      }
    }
  }

  /** The `filter` keeping the rows whose id is in the selection. */
  function FilterSelected(rows: seq<Row>, selected: seq<string>): seq<Row> {
    if rows == [] then []
    else (if rows[0].id in selected then [rows[0]] else []) + FilterSelected(rows[1..], selected)
  }

  /** Every emitted row has a selected id, and every row with a selected id
      is emitted. */
  lemma {:induction false} FilterSelectedMember(rows: seq<Row>, selected: seq<string>, r: Row)
    ensures r in FilterSelected(rows, selected) <==> r in rows && r.id in selected
  {
    if rows != [] {
      FilterSelectedMember(rows[1..], selected, r);
      assert rows == [rows[0]] + rows[1..];
    }
  }

  /** Relative order is preserved: filtering works piece by piece. */
  lemma {:induction false} FilterSelectedAppend(a: seq<Row>, b: seq<Row>, selected: seq<string>)
    ensures FilterSelected(a + b, selected) == FilterSelected(a, selected) + FilterSelected(b, selected)
  {
    if a == [] {
      assert a + b == b;
    } else {
      assert (a + b)[0] == a[0];
      assert (a + b)[1..] == a[1..] + b;
      FilterSelectedAppend(a[1..], b, selected);
    }
  }

  /** A selected row occurs in the output as often as it is resident. */
  lemma {:induction false} FilterSelectedCount(rows: seq<Row>, selected: seq<string>, r: Row)
    requires r.id in selected
    ensures multiset(FilterSelected(rows, selected))[r] == multiset(rows)[r]
  {
    if rows != [] {
      FilterSelectedCount(rows[1..], selected, r);
      assert rows == [rows[0]] + rows[1..];
    }
  }

  /** The argument of the one batched `selectMany` call. */
  function SelectedRows(pages: seq<PageService>, selected: seq<string>): seq<Row>
    requires |pages| > 0
  {
    FilterSelected(ReduceConcat(RowsStates(pages)), selected)
  }

  /** A row is passed to `selectMany` exactly when its id is selected and it
      is resident in some page. */
  lemma SelectedRowsMember(pages: seq<PageService>, selected: seq<string>, r: Row)
    requires |pages| > 0
    ensures r in SelectedRows(pages, selected) <==>
      r.id in selected && exists i :: 0 <= i < |pages| && r in pages[i].rowsState
  {
    var xss := RowsStates(pages);
    ReduceConcatFlattens(xss);
    FilterSelectedMember(Flatten(xss), selected, r);
    FlattenMember(xss, r);
    if exists i :: 0 <= i < |pages| && r in pages[i].rowsState {
      var i :| 0 <= i < |pages| && r in pages[i].rowsState;
      assert r in xss[i];
    }
  }

  /** Rows of earlier pages come first: the selection of a page list is the
      selection of its first part followed by that of the rest. */
  lemma SelectedRowsAppend(p: seq<PageService>, q: seq<PageService>, selected: seq<string>)
    requires |p| > 0 && |q| > 0
    ensures SelectedRows(p + q, selected) == SelectedRows(p, selected) + SelectedRows(q, selected)
  {
    assert RowsStates(p + q) == RowsStates(p) + RowsStates(q);
    ReduceConcatFlattens(RowsStates(p + q));
    ReduceConcatFlattens(RowsStates(p));
    ReduceConcatFlattens(RowsStates(q));
    FlattenAppend(RowsStates(p), RowsStates(q));
    FilterSelectedAppend(Flatten(RowsStates(p)), Flatten(RowsStates(q)), selected);
  }

  // ---- The filter callback as written: `this.selected.find(id => id == r.id)` ----

  /** `Array.prototype.find`: the first element equal to `id`, or undefined. */
  function Find(xs: seq<string>, id: string): Option<string> {
    if xs == [] then None else if xs[0] == id then Some(xs[0]) else Find(xs[1..], id)
  }

  /** JavaScript truthiness of `find`'s result: undefined and "" are falsy. */
  predicate Truthy(v: Option<string>) {
    v.Some? && v.value != ""
  }

  /** The filter as written: it keeps a row when `find` returns a truthy value. */
  function FilterSelectedAsWritten(rows: seq<Row>, selected: seq<string>): seq<Row> {
    if rows == [] then []
    else (if Truthy(Find(selected, rows[0].id)) then [rows[0]] else [])
         + FilterSelectedAsWritten(rows[1..], selected)
  }

  lemma {:induction false} FindIsMembership(xs: seq<string>, id: string)
    ensures Find(xs, id) == if id in xs then Some(id) else None
  {
    if xs != [] {
      FindIsMembership(xs[1..], id);
      assert xs == [xs[0]] + xs[1..];
    }
  }

  /** As written, a row is kept exactly when its id is selected and is not
      the empty string. */
  lemma {:induction false} FilterAsWrittenMember(rows: seq<Row>, selected: seq<string>, r: Row)
    ensures r in FilterSelectedAsWritten(rows, selected) <==> r in rows && r.id in selected && r.id != ""
  {
    if rows != [] {
      FindIsMembership(selected, rows[0].id);
      FilterAsWrittenMember(rows[1..], selected, r);
      assert rows == [rows[0]] + rows[1..];
    }
  }

  /** When no selected id is empty, the filter as written and the membership
      filter give the same rows. */
  lemma {:induction false} FilterAsWrittenAgrees(rows: seq<Row>, selected: seq<string>)
    requires "" !in selected
    ensures FilterSelectedAsWritten(rows, selected) == FilterSelected(rows, selected)
  {
    if rows != [] {
      FindIsMembership(selected, rows[0].id);
      FilterAsWrittenAgrees(rows[1..], selected);
    }
  }

  /** The input that shows the difference: a resident row with id "" whose id
      is selected is emitted by the membership filter and dropped as written. */
  lemma EmptyIdDroppedAsWritten()
    ensures var row := Row("", map[]);
      FilterSelectedAsWritten([row], [""]) == [] && FilterSelected([row], [""]) == [row]
  {
  }
}
