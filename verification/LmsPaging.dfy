/** Walking a whole LMS collection page by page (src/adapters/lms.rs): a page maps the server's rows and
    drops those it cannot map, and tells where the next page starts. */
module LmsPaging {
  import opened Zones

  /** The rows of the answer to a query, and the total if the server reports it. */
  datatype Answer<Row> = Answer(rows: seq<Row>, count: Option<nat>)

  datatype Page<Item> = Page(items: seq<Item>, nextOffset: Option<nat>)

  function Min(a: int, b: int): int {
    if a < b then a else b
  }

  /** How many rows a request asks for. */
  function PageLimit(requested: Option<nat>): (limit: nat)
    ensures 1 <= limit <= 50
    ensures requested.None? ==> limit == 20
    ensures requested.Some? && 1 <= requested.value <= 50 ==> limit == requested.value
    ensures requested.Some? && requested.value > 50 ==> limit == 50
  {
    var wanted := requested.GetOr(20);
    if wanted < 1 then 1 else Min(wanted, 50)
  }

  function Mapped<Row, Item>(rows: seq<Row>, shape: Row -> Option<Item>): (items: seq<Item>)
    ensures |items| <= |rows|
  {
    if rows == [] then []
    else
      match shape(rows[0])
      case Some(item) => [item] + Mapped(rows[1..], shape)
      case None => Mapped(rows[1..], shape)
  }

  function NextOffset(count: Option<nat>, offset: nat, limit: nat, pageLength: nat): Option<nat> {
    match count
    case Some(total) => if total > offset + limit then Some(offset + limit) else None
    case None => if pageLength == limit then Some(offset + limit) else None
  }

  /** What the server answers out of the rows it has. */
  function Answered<Row>(rows: seq<Row>, reportsTotal: bool, offset: nat, limit: nat): Answer<Row> {
    var from := Min(offset, |rows|);
    Answer(rows[from..Min(from + limit, |rows|)], if reportsTotal then Some(|rows|) else None)
  }

  /** One page, as the queries make it: the length that decides about a next page is the number of mapped
      items, not of rows. */
  function QueryPage<Row, Item>(answer: Answer<Row>, shape: Row -> Option<Item>, offset: nat, limit: nat): Page<Item> {
    var items := Mapped(answer.rows, shape);
    Page(items, NextOffset(answer.count, offset, limit, |items|))
  }

  // ---------------------------------------------------------------------------
  // Following the offsets
  // ---------------------------------------------------------------------------

  lemma {:induction false} MappedEmpty<Row, Item>(shape: Row -> Option<Item>)
    ensures Mapped([], shape) == []
  {
  }

  lemma {:induction false} MappedFirst<Row, Item>(rows: seq<Row>, shape: Row -> Option<Item>)
    requires rows != []
    ensures Mapped(rows, shape)
            == match shape(rows[0])
               case Some(item) => [item] + Mapped(rows[1..], shape)
               case None => Mapped(rows[1..], shape)
  {
  }

  lemma {:induction false} MappedAppend<Row, Item>(s: seq<Row>, t: seq<Row>, shape: Row -> Option<Item>)
    ensures Mapped(s + t, shape) == Mapped(s, shape) + Mapped(t, shape)
  {
    hide Mapped;
    if s == [] {
      assert s + t == t;
      MappedEmpty<Row, Item>(shape);
    } else {
      MappedAppend(s[1..], t, shape);
      assert (s + t)[1..] == s[1..] + t;
      MappedFirst(s + t, shape);
      MappedFirst(s, shape);
    }
  }

  ghost predicate MapsAll<Row(!new), Item>(rows: seq<Row>, shape: Row -> Option<Item>) {
    forall row :: row in rows ==> shape(row).Some?
  }

  /** A page has as many items as rows exactly when no row is dropped. */
  lemma {:induction false} MappedLength<Row(!new), Item>(rows: seq<Row>, shape: Row -> Option<Item>)
    ensures |Mapped(rows, shape)| <= |rows|
    ensures |Mapped(rows, shape)| == |rows| <==> MapsAll(rows, shape)
  {
    if rows != [] {
      MappedLength(rows[1..], shape);
      assert rows == [rows[0]] + rows[1..];
      if MapsAll(rows, shape) {
        assert rows[0] in rows;
      }
    }
  }

  /** Everything a client receives that starts at this offset and follows the offsets to the end. Every
      further page starts at a later row, so the walk ends. */
  function Walk<Row, Item>(rows: seq<Row>, shape: Row -> Option<Item>, reportsTotal: bool, offset: nat,
                           limit: nat): seq<Item>
    requires limit >= 1 && offset <= |rows|
    decreases |rows| - offset
  {
    var page := QueryPage(Answered(rows, reportsTotal, offset, limit), shape, offset, limit);
    match page.nextOffset
    case None => page.items
    case Some(next) => page.items + Walk(rows, shape, reportsTotal, next, limit)
  }

  /** The end of the first page that is not full of items: where a walk without totals stops. */
  ghost function FirstShort<Row(!new), Item>(rows: seq<Row>, shape: Row -> Option<Item>, offset: nat,
                                limit: nat): (end: nat)
    requires limit >= 1 && offset <= |rows|
    ensures offset <= end <= |rows|
    decreases |rows| - offset
  {
    if offset + limit > |rows| then |rows|
    else if MapsAll(rows[offset..offset + limit], shape) then FirstShort(rows, shape, offset + limit, limit)
    else offset + limit
  }

  /** Whether some full page drops a row although a row after that page would have been shown. */
  ghost predicate LosesRows<Row(!new), Item>(rows: seq<Row>, shape: Row -> Option<Item>, offset: nat, limit: nat)
    requires limit >= 1
    decreases |rows| - offset
  {
    && offset + limit <= |rows|
    && (|| (!MapsAll(rows[offset..offset + limit], shape)
            && exists row :: row in rows[offset + limit..] && shape(row).Some?)
        || LosesRows(rows, shape, offset + limit, limit))
  }

  lemma {:induction false} MappedToNothing<Row(!new), Item>(rows: seq<Row>, shape: Row -> Option<Item>)
    ensures Mapped(rows, shape) == [] <==> forall row :: row in rows ==> shape(row).None?
  {
    if rows != [] {
      MappedToNothing(rows[1..], shape);
      assert rows == [rows[0]] + rows[1..];
      assert rows[0] in rows;
    }
  }

  lemma {:induction false} NothingAfterLosesNothing<Row(!new), Item>(rows: seq<Row>, shape: Row -> Option<Item>,
                                                                     offset: nat, limit: nat)
    requires limit >= 1 && offset <= |rows|
    requires forall row :: row in rows[offset..] ==> shape(row).None?
    ensures !LosesRows(rows, shape, offset, limit)
    decreases |rows| - offset
  {
    if offset + limit <= |rows| {
      forall row | row in rows[offset + limit..] ensures shape(row).None? {
        assert rows[offset + limit..] == rows[offset..][limit..];
        assert row in rows[offset..];
      }
      NothingAfterLosesNothing(rows, shape, offset + limit, limit);
    }
  }

  lemma {:induction false} PageJoins<Row(!new), Item>(rows: seq<Row>, shape: Row -> Option<Item>, from: nat,
                                         next: nat, end: nat)
    requires from <= next <= end <= |rows|
    ensures Mapped(rows[from..next], shape) + Mapped(rows[next..end], shape) == Mapped(rows[from..end], shape)
  {
    MappedAppend(rows[from..next], rows[next..end], shape);
    assert rows[from..end] == rows[from..next] + rows[next..end];
  }

  /** With totals the walk goes on to the last row: every row is seen once and in order. */
  lemma {:induction false} WalkWithTotals<Row(!new), Item>(rows: seq<Row>, shape: Row -> Option<Item>, offset: nat,
                                              limit: nat)
    requires limit >= 1 && offset <= |rows|
    ensures Walk(rows, shape, true, offset, limit) == Mapped(rows[offset..|rows|], shape)
    decreases |rows| - offset
  {
    hide Mapped;
    if offset + limit < |rows| {
      WalkWithTotals(rows, shape, offset + limit, limit);
      PageJoins(rows, shape, offset, offset + limit, |rows|);
    }
  }

  /** Without totals it stops after the first page that is not full of items. */
  lemma {:induction false} WalkWithoutTotals<Row(!new), Item>(rows: seq<Row>, shape: Row -> Option<Item>,
                                                 offset: nat, limit: nat)
    requires limit >= 1 && offset <= |rows|
    ensures Walk(rows, shape, false, offset, limit) == Mapped(rows[offset..FirstShort(rows, shape, offset, limit)], shape)
    decreases |rows| - offset
  {
    hide Mapped, MapsAll;
    var end := FirstShort(rows, shape, offset, limit);
    var answer := Answered(rows, false, offset, limit);
    MappedLength(answer.rows, shape);
    if offset + limit <= |rows| && MapsAll(answer.rows, shape) {
      WalkWithoutTotals(rows, shape, offset + limit, limit);
      PageJoins(rows, shape, offset, offset + limit, end);
    }
  }

  /** A walk from the start delivers the whole collection, each row once and in order, exactly when the
      server reports totals or no full page drops a row ahead of one that would be shown. */
  lemma {:induction false} WalkIsCompleteExactly<Row(!new), Item>(rows: seq<Row>, shape: Row -> Option<Item>,
                                                                 reportsTotal: bool, limit: nat)
    requires limit >= 1
    ensures Walk(rows, shape, reportsTotal, 0, limit) == Mapped(rows, shape)
            <==> reportsTotal || !LosesRows(rows, shape, 0, limit)
  {
    WalkWithTotals(rows, shape, 0, limit);
    WalkWithoutTotals(rows, shape, 0, limit);
    assert rows[0..|rows|] == rows;
    var end := FirstShort(rows, shape, 0, limit);
    assert rows[0..end] == rows[..end];
    CompleteExactlyWhen(rows, shape, 0, limit);
  }

  lemma {:induction false} CompleteExactlyWhen<Row(!new), Item>(rows: seq<Row>, shape: Row -> Option<Item>,
                                                               offset: nat, limit: nat)
    requires limit >= 1 && offset <= |rows|
    ensures Mapped(rows[..FirstShort(rows, shape, offset, limit)], shape) == Mapped(rows, shape)
            <==> !LosesRows(rows, shape, offset, limit)
    decreases |rows| - offset
  {
    hide Mapped, MapsAll;
    var end := FirstShort(rows, shape, offset, limit);
    assert rows == rows[..end] + rows[end..];
    MappedAppend(rows[..end], rows[end..], shape);
    MappedToNothing(rows[end..], shape);
    if offset + limit <= |rows| {
      if MapsAll(rows[offset..offset + limit], shape) {
        CompleteExactlyWhen(rows, shape, offset + limit, limit);
      } else if forall row :: row in rows[end..] ==> shape(row).None? {
        NothingAfterLosesNothing(rows, shape, offset + limit, limit);
      }
    }
  }

  /** When no row is dropped, the walk is complete with or without totals. */
  lemma {:induction false} NothingDroppedNothingLost<Row(!new), Item>(rows: seq<Row>, shape: Row -> Option<Item>,
                                                                     offset: nat, limit: nat)
    requires limit >= 1 && MapsAll(rows, shape)
    ensures !LosesRows(rows, shape, offset, limit)
    decreases |rows| - offset
  {
    if offset + limit <= |rows| {
      forall row | row in rows[offset..offset + limit] ensures shape(row).Some? {
        assert row in rows;
      }
      NothingDroppedNothingLost(rows, shape, offset + limit, limit);
    }
  }

  /** A walk that does lose a row: one row a page, the first of which cannot be mapped. */
  lemma {:induction false} ADroppedRowEndsTheWalk<Row(!new), Item>(bad: Row, good: Row, shape: Row -> Option<Item>)
    requires shape(bad).None? && shape(good).Some?
    ensures Walk([bad, good], shape, false, 0, 1) == []
    ensures Walk([bad, good], shape, true, 0, 1) == [shape(good).value]
    ensures Mapped([bad, good], shape) == [shape(good).value]
  {
    var rows := [bad, good];
    assert rows[0..1] == [bad] && rows[1..2] == [good];
    assert [good][1..] == [] && [bad][1..] == [] && rows[1..] == [good];
  }
}
