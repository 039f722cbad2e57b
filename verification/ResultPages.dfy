/** Query results held as batches of rows, and the pages a client fetches from them. */
module ResultPages {
  import opened Wrappers

  const DEFAULT_FETCH_ROWS := 1000
  const MAX_FETCH_ROWS := 10000

  function Flatten<Row>(batches: seq<seq<Row>>): seq<Row> {
    if batches == [] then [] else batches[0] + Flatten(batches[1..])
  }

  lemma {:induction false} FlattenAppend<Row>(batches: seq<seq<Row>>, b: seq<Row>)
    ensures Flatten(batches + [b]) == Flatten(batches) + b
  {
    if batches == [] {
      assert batches + [b] == [b];
    } else {
      assert (batches + [b])[1..] == batches[1..] + [b];
      FlattenAppend(batches[1..], b);
    }
  }

  /** The rows of the batches from the i-th on. */
  ghost function RowsFrom<Row>(batches: seq<seq<Row>>, i: nat): seq<Row>
    requires i <= |batches|
  {
    Flatten(batches[i..])
  }

  lemma RowsFromEnds<Row>(batches: seq<seq<Row>>)
    ensures RowsFrom(batches, 0) == Flatten(batches) && RowsFrom(batches, |batches|) == []
  {
    assert batches[0..] == batches && batches[|batches|..] == [];
  }

  lemma RowsFromNext<Row>(batches: seq<seq<Row>>, i: nat)
    requires i < |batches|
    ensures RowsFrom(batches, i) == batches[i] + RowsFrom(batches, i + 1)
  {
    assert batches[i..][1..] == batches[i + 1..];
  }

  datatype QueryResultPage<Row> =
    QueryResultPage(batches: seq<seq<Row>>, startRowOffset: nat, rowCount: nat, hasMoreRows: bool)

  function Min(a: int, b: int): int { if a < b then a else b }

  /** How many rows one fetch may return. */
  function RequestedRowLimit(maxRows: Option<int>): (limit: nat)
    ensures limit <= MAX_FETCH_ROWS
    ensures limit == 0 <==> maxRows.Some? && maxRows.value <= 0
  {
    match maxRows
    case Some(value) => if value <= 0 then 0 else Min(value, MAX_FETCH_ROWS)
    case None => DEFAULT_FETCH_ROWS
  }

  function PageStart(total: nat, offset: int): nat { Min(if offset < 0 then 0 else offset, total) }

  function PageEnd(total: nat, offset: int, limit: nat): (end: nat)
    ensures PageStart(total, offset) <= end <= total
  {
    Min(PageStart(total, offset) + limit, total)
  }

  function Window<Row>(rows: seq<Row>, skip: nat, take: nat): (window: seq<Row>)
    requires skip + take <= |rows|
    ensures |window| == take
  {
    rows[skip..skip + take]
  }

  lemma WindowPast<Row>(front: seq<Row>, rest: seq<Row>, skip: nat, take: nat)
    requires |front| <= skip && skip + take <= |front| + |rest|
    ensures Window(front + rest, skip, take) == Window(rest, skip - |front|, take)
  {
  }

  lemma WindowAcross<Row>(kept: seq<Row>, front: seq<Row>, rest: seq<Row>, skip: nat, take: nat, part: nat)
    requires skip + part <= |front| && part <= take && skip + take <= |front| + |rest|
    requires part == take || skip + part == |front|
    ensures kept + Window(front + rest, skip, take)
      == kept + front[skip..skip + part] + Window(rest, 0, take - part)
  {
  }

  /** A page of these rows: exactly the rows between its bounds, and whether any follow. */
  ghost predicate IsPage<Row>(page: QueryResultPage<Row>, rows: seq<Row>, offset: int, limit: nat) {
    var start, end := PageStart(|rows|, offset), PageEnd(|rows|, offset, limit);
    && Flatten(page.batches) == rows[start..end]
    && page.startRowOffset == start
    && page.rowCount == end - start
    && (page.hasMoreRows <==> end < |rows|)
  }

  class InlineResultStore<Row> {
    const batches: seq<seq<Row>>
    const rowCount: nat

    ghost predicate Valid() { rowCount == |Flatten(batches)| }

    constructor (batches: seq<seq<Row>>)
      ensures this.batches == batches && Valid()
    {
      this.batches := batches;
      var total := 0;
      for i := 0 to |batches|
        invariant total + |Flatten(batches[i..])| == |Flatten(batches)|
      {
        assert batches[i..][1..] == batches[i + 1..];
        total := total + |batches[i]|;
      }
      this.rowCount := total;
    }

    /** Skip to the start, then take rows batch by batch; empty batches never reach the page. */
    method Page(startRowOffset: int, limit: nat) returns (page: QueryResultPage<Row>)
      requires Valid()
      ensures IsPage(page, Flatten(batches), startRowOffset, limit)
      ensures forall i | 0 <= i < |page.batches| :: page.batches[i] != []
    {
      var start := PageStart(rowCount, startRowOffset);
      var end := PageEnd(rowCount, startRowOffset, limit);
      var remainingSkip: nat, remainingTake: nat := start, end - start;
      var pageBatches: seq<seq<Row>> := [];
      ghost var wanted := Window(Flatten(batches), start, end - start);
      assert wanted == Flatten(batches)[start..end];
      assert Flatten(pageBatches) == [];
      RowsFromEnds(batches);
      hide Window, Flatten, RowsFrom;
      assert [] + wanted == wanted;
      var i := 0;
      while i < |batches| && remainingTake != 0
        invariant 0 <= i <= |batches|
        invariant remainingSkip + remainingTake <= |RowsFrom(batches, i)|
        invariant Flatten(pageBatches) + Window(RowsFrom(batches, i), remainingSkip, remainingTake) == wanted
        invariant forall j | 0 <= j < |pageBatches| :: pageBatches[j] != []
      {
        var batch := batches[i];
        ghost var rest := RowsFrom(batches, i + 1);
        RowsFromNext(batches, i);
        if remainingSkip >= |batch| {
          WindowPast(batch, rest, remainingSkip, remainingTake);
          remainingSkip := remainingSkip - |batch|;
        } else {
          var localTake := Min(|batch| - remainingSkip, remainingTake);
          var slice := batch[remainingSkip..remainingSkip + localTake];
          WindowAcross(Flatten(pageBatches), batch, rest, remainingSkip, remainingTake, localTake);
          FlattenAppend(pageBatches, slice);
          pageBatches := pageBatches + [slice];
          remainingTake := remainingTake - localTake;
          remainingSkip := 0;
        }
        i := i + 1;
      }
      assert Flatten(pageBatches) + [] == Flatten(pageBatches);
      page := QueryResultPage(pageBatches, start, end - start, end < rowCount);
    }
  }

  // ----- a client that pages through a result -----

  /** The rows of one page, and the rows a client collects that asks for `ask(offset)` rows at each
      offset, advancing by what it got for as long as it is told there are more. */
  function Collect<Row>(rows: seq<Row>, offset: nat, ask: nat -> Option<int>): seq<Row>
    requires forall o :: RequestedRowLimit(ask(o)) > 0
    decreases |rows| - offset
  {
    var start, end := PageStart(|rows|, offset), PageEnd(|rows|, offset, RequestedRowLimit(ask(offset)));
    rows[start..end] + if end < |rows| then Collect(rows, end, ask) else []
  }

  /** Whatever positive limits it asks for, the client ends with every row, once each and in order. */
  lemma {:induction false} CollectsEverything<Row>(rows: seq<Row>, offset: nat, ask: nat -> Option<int>)
    requires forall o :: RequestedRowLimit(ask(o)) > 0
    requires offset <= |rows|
    ensures Collect(rows, offset, ask) == rows[offset..]
    decreases |rows| - offset
  {
    var end := PageEnd(|rows|, offset, RequestedRowLimit(ask(offset)));
    if end < |rows| {
      CollectsEverything(rows, end, ask);
      assert rows[offset..] == rows[offset..end] + rows[end..];
    }
  }

  /** A page that promises more moves the client on exactly when the request asked for any rows. */
  lemma ProgressNeedsPositiveLimit<Row>(page: QueryResultPage<Row>, rows: seq<Row>, offset: int, maxRows: Option<int>)
    requires IsPage(page, rows, offset, RequestedRowLimit(maxRows)) && page.hasMoreRows
    ensures page.startRowOffset + page.rowCount > page.startRowOffset
      <==> (maxRows.Some? ==> maxRows.value > 0)
  {
  }
}
