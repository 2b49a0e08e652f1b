/**
 * Which pages the viewport shows after a scroll: every rendered page element
 * carries a `page-index` attribute; each is read with `parseInt(…, 10)` and
 * the markers that gave NaN are dropped. Order and duplicates are kept.
 */
module VisiblePages {
  import opened Wrappers
  import opened JsParseInt

  /** One marker's attribute read as a page index. A missing attribute is
      `null`, which `parseInt` first turns into the string "null". */
  function ParseMarker(attr: Option<string>): Option<int> {
    ParseInt(if attr.Some? then attr.value else "null")
  }

  /** The `map` step: one parse result per marker, in document order. */
  function ParseMarkers(markers: seq<Option<string>>): seq<Option<int>> {
    seq(|markers|, i requires 0 <= i < |markers| => ParseMarker(markers[i]))
  }

  /** The `filter(i => !isNaN(i))` step. */
  function KeepParsed(parsed: seq<Option<int>>): (indexes: seq<int>)
    ensures |indexes| <= |parsed|
    ensures (forall i :: 0 <= i < |parsed| ==> parsed[i].None?) ==> indexes == []
  {
    if parsed == [] then []
    else (if parsed[0].Some? then [parsed[0].value] else []) + KeepParsed(parsed[1..])
  }

  /** The page indexes handed to the live-scroll handler. */
  function VisiblePageIndexes(markers: seq<Option<string>>): seq<int> {
    KeepParsed(ParseMarkers(markers))
  }

  /** A missing attribute is NaN, and so dropped. */
  lemma MissingMarkerIsNaN()
    ensures ParseMarker(None) == None
  {
  }

  /** The filter works element by element, so it keeps the order of the
      markers: filtering a concatenation concatenates the filtered parts. */
  lemma {:induction false} KeepParsedAppend(a: seq<Option<int>>, b: seq<Option<int>>)
    ensures KeepParsed(a + b) == KeepParsed(a) + KeepParsed(b)
  {
    if a == [] {
      assert a + b == b;
    } else {
      assert (a + b)[0] == a[0];
      assert (a + b)[1..] == a[1..] + b;
      KeepParsedAppend(a[1..], b);
    }
  }

  /** An index is in the output exactly when some marker parsed to it. */
  lemma {:induction false} KeepParsedMember(parsed: seq<Option<int>>, x: int)
    ensures x in KeepParsed(parsed) <==> Some(x) in parsed
  {
    if parsed != [] {
      KeepParsedMember(parsed[1..], x);
      assert parsed == [parsed[0]] + parsed[1..];
    }
  }

  /** No de-duplication: each index occurs as often as markers parsed to it. */
  lemma {:induction false} KeepParsedCount(parsed: seq<Option<int>>, x: int)
    ensures multiset(KeepParsed(parsed))[x] == multiset(parsed)[Some(x)]
  {
    if parsed != [] {
      KeepParsedCount(parsed[1..], x);
      assert parsed == [parsed[0]] + parsed[1..];
    }
  }

  /** When every marker parses, nothing is dropped and nothing moves. */
  lemma {:induction false} KeepParsedAllValid(parsed: seq<Option<int>>)
    requires forall i :: 0 <= i < |parsed| ==> parsed[i].Some?
    ensures KeepParsed(parsed) == seq(|parsed|, i requires 0 <= i < |parsed| => parsed[i].value)
  {
    if parsed != [] {
      KeepParsedAllValid(parsed[1..]);
    }
  }

  /** The markers of pages rendered with their decimal index as attribute. */
  function RenderedMarkers(pages: seq<int>): seq<Option<string>> {
    seq(|pages|, i requires 0 <= i < |pages| => Some(ToDecimal(pages[i])))
  }

  /** Pages rendered with their decimal index are read back as exactly those
      indexes, in the same order, duplicates included. */
  lemma VisiblePageIndexesRoundTrip(pages: seq<int>)
    ensures VisiblePageIndexes(RenderedMarkers(pages)) == pages
  {
    var parsed := ParseMarkers(RenderedMarkers(pages));
    forall i | 0 <= i < |pages|
      ensures parsed[i] == Some(pages[i])
    {
      ParseIntRoundTrip(pages[i]);
    }
    KeepParsedAllValid(parsed);
  }
}
