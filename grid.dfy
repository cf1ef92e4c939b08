/** The column definitions the client's data grids are given, reduced to
    what the pages decide about them: the field, its header, and whether the
    delete action of an "actions" column is wired to the page's handler. */
module Grid {

  const ACTIONS := "actions"

  datatype Column = Column(field: string, headerName: string, deleteWired: bool)

  /** The field names of a column list, in order. */
  function Fields(cols: seq<Column>): seq<string> {
    seq(|cols|, i requires 0 <= i < |cols| => cols[i].field)
  }

  /** `columns.map(col => col.field === "actions" ? { ...col, getActions: <delete> } : col)`. */
  function WireDelete(cols: seq<Column>): (r: seq<Column>)
    ensures |r| == |cols| && Fields(r) == Fields(cols)
    ensures forall i :: 0 <= i < |cols| ==>
              && r[i].field == cols[i].field && r[i].headerName == cols[i].headerName
              && r[i].deleteWired == (cols[i].deleteWired || cols[i].field == ACTIONS)
  {
    seq(|cols|, i requires 0 <= i < |cols| =>
      if cols[i].field == ACTIONS then cols[i].(deleteWired := true) else cols[i])
  }

  /** `columns.filter(col => col.field !== "actions")`. */
  function WithoutActions(cols: seq<Column>): (r: seq<Column>)
    ensures forall c :: c in r <==> c in cols && c.field != ACTIONS
    ensures |r| <= |cols|
  {
    if cols == [] then []
    else (if cols[0].field == ACTIONS then [] else [cols[0]]) + WithoutActions(cols[1..])
  }

  /** The filter keeps the order of the columns it keeps. */
  lemma {:induction false} WithoutActionsAppend(xs: seq<Column>, ys: seq<Column>)
    ensures WithoutActions(xs + ys) == WithoutActions(xs) + WithoutActions(ys)
  {
    if xs == [] {
      assert xs + ys == ys;
    } else {
      assert (xs + ys)[0] == xs[0] && (xs + ys)[1..] == xs[1..] + ys;
      WithoutActionsAppend(xs[1..], ys);
    }
  }
}
