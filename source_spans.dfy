/** Picking the innermost source item under the editor's cursor, and turning
    spans into editor markers. Spans are 0-based in columns; the editor's
    columns are 1-based. */
module SourceSpans {
  import opened Wrappers

  datatype SourceSpan = SourceSpan(ssRowStart: int, ssRowEnd: int, ssColStart: int, ssColEnd: int)

  /** An item of the backend's source map; only its span is read here. */
  datatype SourceItem = SourceItem(siLabel: string, siSourceSpan: SourceSpan)

  /** A cursor position of the editor. */
  datatype Position = Position(lineNumber: int, column: int)

  datatype TypedHoleResponse = TypedHoleResponse(thMonoType: string, thSourceSpan: SourceSpan)

  datatype ErrorLocation = ErrorLocation(elSourceSpan: SourceSpan)

  /** The editor's marker; severity 1 is a hint and 8 an error. */
  datatype MarkerData = MarkerData(
    severity: int, message: string,
    startLineNumber: int, endLineNumber: int, startColumn: int, endColumn: int)

  function Max(a: int, b: int): (m: int)
    ensures m >= a && m >= b && (m == a || m == b)
  {
    if a >= b then a else b
  }

  /** `sourceSize`: rows spanned times columns spanned, each counted as at least one. */
  function SourceSize(span: SourceSpan): (n: int)
    ensures n >= 1
    ensures n >= span.ssRowEnd - span.ssRowStart && n >= span.ssColEnd - span.ssColStart
    ensures span.ssRowStart < span.ssRowEnd && span.ssColStart < span.ssColEnd ==>
      n == (span.ssRowEnd - span.ssRowStart) * (span.ssColEnd - span.ssColStart)
    // a span within one row counts its columns, and one within one column its rows
    ensures span.ssRowEnd - span.ssRowStart <= 1 ==> n == Max(span.ssColEnd - span.ssColStart, 1)
    ensures span.ssColEnd - span.ssColStart <= 1 ==> n == Max(span.ssRowEnd - span.ssRowStart, 1)
  {
    var width := Max(span.ssRowEnd - span.ssRowStart, 1);
    var height := Max(span.ssColEnd - span.ssColStart, 1);
    assert width * height >= width * 1 && width * height >= 1 * height;
    width * height
  }

  /** Multiplying larger positive factors gives a larger product. */
  lemma ProductMonotone(a: int, b: int, c: int, d: int)
    requires 1 <= a <= b && 1 <= c <= d
    ensures a * c <= b * d
  {
    assert a * c <= b * c by {
      assert b * c - a * c == (b - a) * c;
    }
    assert b * c <= b * d by {
      assert b * d - b * c == b * (d - c);
    }
  }

  /** A span nested in another is no larger than it, so the smallest span around
      the cursor is an innermost one. */
  lemma NestedSpanIsNoLarger(inner: SourceSpan, outer: SourceSpan)
    requires outer.ssRowStart <= inner.ssRowStart && inner.ssRowEnd <= outer.ssRowEnd
    requires outer.ssColStart <= inner.ssColStart && inner.ssColEnd <= outer.ssColEnd
    ensures SourceSize(inner) <= SourceSize(outer)
  {
    ProductMonotone(
      Max(inner.ssRowEnd - inner.ssRowStart, 1), Max(outer.ssRowEnd - outer.ssRowStart, 1),
      Max(inner.ssColEnd - inner.ssColStart, 1), Max(outer.ssColEnd - outer.ssColStart, 1));
  }

  /** The span contains the position, bounds included on both ends. */
  predicate Contains(span: SourceSpan, position: Position) {
    && span.ssRowStart <= position.lineNumber <= span.ssRowEnd
    && span.ssColStart <= position.column <= span.ssColEnd
  }

  /** The `filter` step: the items around the position, in their original order. */
  function Containing(items: seq<SourceItem>, position: Position): (r: seq<SourceItem>) {
    if items == [] then []
    else if Contains(items[0].siSourceSpan, position) then [items[0]] + Containing(items[1..], position)
    else Containing(items[1..], position)
  }

  /** The filter keeps exactly the items whose span contains the position. */
  lemma {:induction false} ContainingMembers(items: seq<SourceItem>, position: Position)
    ensures forall x :: x in Containing(items, position) <==> x in items && Contains(x.siSourceSpan, position)
    ensures Containing(items, position) == [] <==> forall x :: x in items ==> !Contains(x.siSourceSpan, position)
  {
    if items != [] {
      ContainingMembers(items[1..], position);
      assert forall x :: x in items <==> x == items[0] || x in items[1..];
    }
  }

  /** `Arr.head` of the stable `sort` by size: the first item of least size. */
  function Smallest(items: seq<SourceItem>): (r: Option<SourceItem>) {
    if items == [] then None
    else match Smallest(items[1..])
      case None => Some(items[0])
      case Some(m) =>
        if SourceSize(m.siSourceSpan) < SourceSize(items[0].siSourceSpan) then Some(m) else Some(items[0])
  }

  /** The head of the sorted items: none for no items, else an item of least size. */
  lemma {:induction false} SmallestIsLeast(items: seq<SourceItem>)
    ensures Smallest(items).None? <==> items == []
    ensures Smallest(items).Some? ==> Smallest(items).value in items
    ensures Smallest(items).Some? ==> forall x :: x in items ==>
      SourceSize(Smallest(items).value.siSourceSpan) <= SourceSize(x.siSourceSpan)
  {
    if items != [] {
      SmallestIsLeast(items[1..]);
      assert forall x :: x in items <==> x == items[0] || x in items[1..];
    }
  }

  /** `chooseSourceSpan(sourceItems, position)` */
  function ChooseSourceSpan(sourceItems: seq<SourceItem>, position: Position): (o: Option<SourceItem>)
    ensures o.None? <==> forall x :: x in sourceItems ==> !Contains(x.siSourceSpan, position)
    ensures o.Some? ==> o.value in sourceItems && Contains(o.value.siSourceSpan, position)
    ensures o.Some? ==> forall x :: x in sourceItems && Contains(x.siSourceSpan, position) ==>
      SourceSize(o.value.siSourceSpan) <= SourceSize(x.siSourceSpan)
  {
    ContainingMembers(sourceItems, position);
    SmallestIsLeast(Containing(sourceItems, position));
    Smallest(Containing(sourceItems, position))
  }

  /** The sort is stable, so among items of least size the earliest one wins. */
  lemma {:induction false} SmallestIsFirstOfLeastSize(items: seq<SourceItem>) returns (i: nat)
    requires items != []
    ensures i < |items| && Smallest(items) == Some(items[i])
    ensures forall j :: 0 <= j < i ==> SourceSize(items[j].siSourceSpan) > SourceSize(items[i].siSourceSpan)
  {
    if |items| == 1 {
      assert Smallest(items[1..]) == None;
      i := 0;
    } else {
      var k := SmallestIsFirstOfLeastSize(items[1..]);
      if SourceSize(items[k + 1].siSourceSpan) < SourceSize(items[0].siSourceSpan) {
        i := k + 1;
        forall j | 0 <= j < i
          ensures SourceSize(items[j].siSourceSpan) > SourceSize(items[i].siSourceSpan)
        {
          if j > 0 { assert items[j] == items[1..][j - 1]; }
        }
      } else {
        i := 0;
      }
    }
  }

  /** Filtering distributes over concatenation. */
  lemma {:induction false} ContainingAppend(a: seq<SourceItem>, b: seq<SourceItem>, position: Position)
    ensures Containing(a + b, position) == Containing(a, position) + Containing(b, position)
  {
    if a == [] {
      assert a + b == b;
    } else {
      assert (a + b)[0] == a[0] && (a + b)[1..] == a[1..] + b;
      ContainingAppend(a[1..], b, position);
    }
  }

  lemma ContainingSkipsOthers(
    before: seq<SourceItem>, others: seq<SourceItem>, after: seq<SourceItem>, position: Position)
    requires forall x :: x in others ==> !Contains(x.siSourceSpan, position)
    ensures Containing(before + others + after, position) == Containing(before + after, position)
  {
    var b := Containing(before, position);
    ContainingAppend(before + others, after, position);
    ContainingAppend(before, others, position);
    ContainingAppend(before, after, position);
    ContainingMembers(others, position);
    assert b + [] == b;
  }

  /** Items that do not contain the position, wherever they are inserted, change
      nothing about the choice. */
  lemma NonContainingItemsAreIgnored(
    before: seq<SourceItem>, others: seq<SourceItem>, after: seq<SourceItem>, position: Position)
    requires forall x :: x in others ==> !Contains(x.siSourceSpan, position)
    ensures ChooseSourceSpan(before + others + after, position) == ChooseSourceSpan(before + after, position)
  {
    ContainingSkipsOthers(before, others, after, position);
  }

  /** `createMarkerForTypedHole`: a hint showing the inferred type. */
  function CreateMarkerForTypedHole(hole: TypedHoleResponse): (m: MarkerData)
    ensures m.severity == 1 && m.message == "Inferred type: " + hole.thMonoType
    ensures m.startLineNumber == hole.thSourceSpan.ssRowStart && m.endLineNumber == hole.thSourceSpan.ssRowEnd
    ensures m.startColumn == hole.thSourceSpan.ssColStart + 1 && m.endColumn == hole.thSourceSpan.ssColEnd + 1
  {
    MarkerData(
      1, "Inferred type: " + hole.thMonoType,
      hole.thSourceSpan.ssRowStart, hole.thSourceSpan.ssRowEnd,
      hole.thSourceSpan.ssColStart + 1, hole.thSourceSpan.ssColEnd + 1)
  }

  /** `createMarkerForError`: an error marker over the failing span. */
  function CreateMarkerForError(location: ErrorLocation): (m: MarkerData)
    ensures m.severity == 8 && m.message == "Error!"
    ensures m.startLineNumber == location.elSourceSpan.ssRowStart && m.endLineNumber == location.elSourceSpan.ssRowEnd
    ensures m.startColumn == location.elSourceSpan.ssColStart + 1 && m.endColumn == location.elSourceSpan.ssColEnd + 1
  {
    MarkerData(
      8, "Error!",
      location.elSourceSpan.ssRowStart, location.elSourceSpan.ssRowEnd,
      location.elSourceSpan.ssColStart + 1, location.elSourceSpan.ssColEnd + 1)
  }

  /** The span a marker covers, back in 0-based columns. */
  function MarkerSpan(m: MarkerData): (span: SourceSpan) {
    SourceSpan(m.startLineNumber, m.endLineNumber, m.startColumn - 1, m.endColumn - 1)
  }

  /** A marker covers exactly the span it was built from. */
  lemma MarkersCoverTheirSpan(hole: TypedHoleResponse, location: ErrorLocation)
    ensures MarkerSpan(CreateMarkerForTypedHole(hole)) == hole.thSourceSpan
    ensures MarkerSpan(CreateMarkerForError(location)) == location.elSourceSpan
  {
  }
}
