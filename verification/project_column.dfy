/** `getProjectColumnFromContext`: the card's board column, looked up in a static two-entry table. */
module ProjectColumn {
  import opened Wrappers
  import opened Context

  datatype Column = Column(id: int, name: string)

  /** The board columns the script knows about. */
  const Columns: seq<Column> := [Column(15338077, "qa"), Column(15335031, "open")]

  /** The string returned in place of a column when the payload carries no usable card. */
  const MissingCardMessage: string := "Cannot Find project_card or column_id in context"

  /** `cols.filter(c => c.id == id)`, for a numeric `column_id`. */
  function Filter(cols: seq<Column>, id: int): (r: seq<Column>)
    ensures forall c :: c in r <==> c in cols && c.id == id
    ensures |r| <= |cols|
    decreases |cols|
  {
    if |cols| == 0 then []
    else (if cols[0].id == id then [cols[0]] else []) + Filter(cols[1..], id)
  }

  /** The filter keeps the first matching entry in front. */
  lemma {:induction false} FilterFirst(before: seq<Column>, c: Column, after: seq<Column>, id: int)
    requires forall i :: 0 <= i < |before| ==> before[i].id != id
    requires c.id == id
    ensures |Filter(before + [c] + after, id)| > 0
    ensures Filter(before + [c] + after, id)[0] == c
    decreases |before|
  {
    var cols := before + [c] + after;
    if |before| == 0 {
      assert cols[0] == c;
    } else {
      assert cols[0] == before[0];
      assert cols[1..] == before[1..] + [c] + after;
      FilterFirst(before[1..], c, after, id);
    }
  }

  /**
    `Failure` is the message string, `Success(None)` is `undefined` (no table
    entry has the id), `Success(Some(c))` is the first entry with that id.
    A `column_id` of 0 is falsy and counts as missing.
   */
  function GetProjectColumn(payload: Payload): (r: Result<Option<Column>, string>)
    ensures r.Failure? <==>
      payload.projectCard.None? || payload.projectCard.value.columnId.None? || payload.projectCard.value.columnId.value == 0
    ensures r.Failure? ==> r.error == MissingCardMessage
    ensures r.Success? && r.value.Some? ==>
      r.value.value in Columns && r.value.value.id == payload.projectCard.value.columnId.value
    ensures r == Success(None) ==>
      forall c :: c in Columns ==> c.id != payload.projectCard.value.columnId.value
  {
    match payload.projectCard
    case None => Failure(MissingCardMessage)
    case Some(card) =>
      match card.columnId
      case None => Failure(MissingCardMessage)
      case Some(id) =>
        if id == 0 then Failure(MissingCardMessage)
        else
          var matches := Filter(Columns, id);
          if |matches| > 0 then
            assert matches[0] in matches;
            Success(Some(matches[0]))
          else Success(None)
  }

  /** The table read off: the `qa` id, the `open` id, and every other non-zero id. */
  lemma ColumnTable(payload: Payload, id: int)
    requires payload.projectCard.Some? && payload.projectCard.value.columnId == Some(id)
    requires id != 0
    ensures id == 15338077 ==> GetProjectColumn(payload) == Success(Some(Column(15338077, "qa")))
    ensures id == 15335031 ==> GetProjectColumn(payload) == Success(Some(Column(15335031, "open")))
    ensures id != 15338077 && id != 15335031 ==> GetProjectColumn(payload) == Success(None)
  {
    if id == 15338077 {
      FilterFirst([], Columns[0], Columns[1..], id);
      assert [] + [Columns[0]] + Columns[1..] == Columns;
    } else if id == 15335031 {
      FilterFirst(Columns[..1], Columns[1], [], id);
      assert Columns[..1] + [Columns[1]] + [] == Columns;
    }
  }
}
