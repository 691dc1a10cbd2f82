/**
  The editor's controller (dbviewer.py, class `DBViewer`) as a state machine, with the
  widgets removed. The state is whether a database is open, the selected table and the
  unsaved-changes flag `db_modified`. Every dialog answer, the chosen file name, the grid
  contents and each engine call's success or failure are inputs of the event that uses them.

  An open connection is modelled by the statements the editor sent through its cursor:
  those run since the last commit and those committed. The read-only catalogue and data
  queries the editor makes to fill the tree and the grid are not recorded.
 */
module Editor {
  import opened Wrappers
  import opened PyStr
  import opened SqlTemplates
  import opened RowTargeting

  /** An open database file, with the statements run on it since the last commit and those committed. */
  datatype Connection = Connection(path: string, uncommitted: seq<Statement>, committed: seq<Statement>)

  /** `DBConnector(file_name)`: a fresh connection with nothing pending. */
  function Connect(path: string): Connection {
    Connection(path, [], [])
  }

  /** Statements executed on the cursor, not committed. */
  function Execute(c: Connection, sts: seq<Statement>): (r: Connection)
    ensures r.path == c.path && r.committed == c.committed && r.uncommitted == c.uncommitted + sts
  {
    c.(uncommitted := c.uncommitted + sts)
  }

  /** `db.commit()`: everything pending becomes committed, in the order it ran. */
  function Commit(c: Connection): (r: Connection)
    ensures r.path == c.path && r.uncommitted == [] && r.committed == c.committed + c.uncommitted
  {
    Connection(c.path, [], c.committed + c.uncommitted)
  }

  /** The fields `db`, `current_table` and `db_modified`. */
  datatype ViewerState = ViewerState(db: Option<Connection>, currentTable: Option<string>, modified: bool)

  /** `__init__`: no database, no table, nothing modified. */
  const INITIAL := ViewerState(None, None, false)

  /** Python's truth test on `current_table`: set and not the empty string. */
  predicate TableSelected(s: ViewerState) {
    s.currentTable.Some? && s.currentTable.value != ""
  }

  /** The guard of the three editing operations: a database is open and a table is selected. */
  predicate CanWrite(s: ViewerState) {
    s.db.Some? && TableSelected(s)
  }

  /** The answers of the Save / Discard / Cancel question; closing the box answers Cancel. */
  datatype Reply = Save | Discard | Cancel

  /** The unsaved-changes question is asked exactly when a database is open and the flag is up. */
  predicate Prompts(s: ViewerState) {
    s.db.Some? && s.modified
  }

  /** Some statement of `sts` is a write: its text starts with INSERT, UPDATE or DELETE. */
  predicate HasWrite(sts: seq<Statement>) {
    exists i | 0 <= i < |sts| :: IsDml(sts[i].sql)
  }

  /** A write stays a write when more statements run before or after it. */
  lemma {:induction false} HasWriteAppend(a: seq<Statement>, b: seq<Statement>)
    ensures HasWrite(a) || HasWrite(b) ==> HasWrite(a + b)
  {
    if HasWrite(a) {
      var i :| 0 <= i < |a| && IsDml(a[i].sql);
      assert (a + b)[i] == a[i];
    } else if HasWrite(b) {
      var i :| 0 <= i < |b| && IsDml(b[i].sql);
      assert (a + b)[|a| + i] == b[i];
    }
  }

  /**
    The flag is sound: when it is up, a database is open and a write (an INSERT, UPDATE or
    DELETE) has run on it since the last `save_changes` or connect. The statements pending
    are those sent since then; a COMMIT or ROLLBACK typed into the query box is logged
    like any other statement.
   */
  predicate FlagSound(s: ViewerState) {
    s.modified ==> s.db.Some? && HasWrite(s.db.value.uncommitted)
  }

  /** `save_changes`. */
  function SaveStep(s: ViewerState, commitOk: bool): (r: ViewerState)
    ensures r.currentTable == s.currentTable
    ensures s.db.None? ==> r == s
    ensures !s.modified ==> r == s
    ensures r.modified <==> s.modified && !(s.db.Some? && commitOk)
    ensures Prompts(s) && commitOk ==> r.db == Some(Commit(s.db.value)) && r.db.value.uncommitted == []
    ensures Prompts(s) && !commitOk ==> r == s
    ensures FlagSound(s) ==> FlagSound(r)
  {
    if s.db.None? then s
    else if !s.modified then s
    else if commitOk then s.(db := Some(Commit(s.db.value)), modified := false)
    else s
  }

  /** The state after the unsaved-changes question of `open_database`, unless it was cancelled. */
  function AfterPrompt(s: ViewerState, reply: Reply, commitOk: bool): (r: ViewerState)
    ensures !Prompts(s) || reply == Discard ==> r == s
    ensures Prompts(s) && reply == Save ==> r == SaveStep(s, commitOk)
  {
    if Prompts(s) && reply == Save then SaveStep(s, commitOk) else s
  }

  /**
    `open_database`: ask about unsaved changes, then ask for a file and connect to it.
    `connectOk` says whether the `DBConnector` constructor returned; `sqlite3.connect`
    accepts any file, so a file that is not a database still counts as connected even
    though the following `refresh_tree` raises and the error box appears.
   */
  function OpenStep(s: ViewerState, reply: Reply, commitOk: bool, fileName: string, connectOk: bool): (r: ViewerState)
    ensures Prompts(s) && reply == Cancel ==> r == s
    ensures !(Prompts(s) && reply == Cancel) && fileName != "" && connectOk ==>
      r.db == Some(Connect(fileName)) && !r.modified
    ensures !(Prompts(s) && reply == Cancel) && (fileName == "" || !connectOk) ==>
      r == AfterPrompt(s, reply, commitOk)
    ensures r.currentTable == s.currentTable
    ensures FlagSound(s) ==> FlagSound(r)
  {
    if Prompts(s) && reply == Cancel then s
    else
      var t := AfterPrompt(s, reply, commitOk);
      if fileName != "" && connectOk then t.(db := Some(Connect(fileName)), modified := false) else t
  }

  /** `on_tree_item_clicked`: only table items carry a name; clicking one selects that table. */
  function SelectTableStep(s: ViewerState, tableItem: Option<string>): (r: ViewerState)
    ensures r.db == s.db && r.modified == s.modified
    ensures r.currentTable == if tableItem.Some? then tableItem else s.currentTable
  {
    if tableItem.Some? then s.(currentTable := tableItem) else s
  }

  /** The grid as shown: its header texts and the text of each cell, row by row. */
  datatype Grid = Grid(headers: seq<string>, cells: seq<seq<string>>)

  /** Every row of the grid has one cell per header. */
  predicate Rectangular(g: Grid) {
    forall r | 0 <= r < |g.cells| :: |g.cells[r]| == |g.headers|
  }

  /** The cell at `row`, `col` exists. */
  predicate HasCell(g: Grid, row: nat, col: nat) {
    row < |g.cells| && col < |g.headers|
  }

  /**
    The UPDATE of `on_cell_changed`: set the edited column to the cell's new text, keyed on
    the first column's header and on the text of the first cell of the same row, read after
    the edit.
   */
  function EditStatement(table: string, g: Grid, row: nat, col: nat): (st: Statement)
    requires Rectangular(g) && HasCell(g, row, col)
    ensures st.sql == UpdateSql(table, g.headers[col], g.headers[0])
    ensures st.params == [g.cells[row][col], g.cells[row][0]]
    ensures col == 0 ==> st.params[0] == st.params[1]
    ensures IsDml(st.sql)
  {
    UpdateStatement(table, g.headers[col], g.headers[0], g.cells[row][col], g.cells[row][0])
  }

  /** `on_cell_changed`: the flag goes up only when the UPDATE ran. */
  function CellChangedStep(s: ViewerState, g: Grid, row: nat, col: nat, executeOk: bool): (r: ViewerState)
    requires Rectangular(g) && HasCell(g, row, col)
    ensures !CanWrite(s) || !executeOk ==> r == s
    ensures CanWrite(s) && executeOk ==>
      r.modified && r.currentTable == s.currentTable &&
      r.db == Some(Execute(s.db.value, [EditStatement(s.currentTable.value, g, row, col)]))
    ensures FlagSound(s) ==> FlagSound(r)
  {
    if !CanWrite(s) || !executeOk then s
    else
      var st := EditStatement(s.currentTable.value, g, row, col);
      assert [st][0] == st;
      HasWriteAppend(s.db.value.uncommitted, [st]);
      s.(db := Some(Execute(s.db.value, [st])), modified := true)
  }

  /** Every prompt of the add-row dialog was answered with OK. */
  predicate Answered(answers: seq<Option<string>>) {
    forall i | 0 <= i < |answers| :: answers[i].Some?
  }

  /** The values typed in, in prompt order. */
  function Values(answers: seq<Option<string>>): (vs: seq<string>)
    requires Answered(answers)
    ensures |vs| == |answers| && forall i | 0 <= i < |answers| :: vs[i] == answers[i].value
  {
    if |answers| == 0 then [] else [answers[0].value] + Values(answers[1..])
  }

  /**
    `add_row_dialog`: `columns` is what `get_columns` returned (`None` if it raised) and
    `answers` the replies to the prompts, one per column in schema order (`None` for Cancel).
   */
  function AddRowStep(s: ViewerState, columns: Option<seq<string>>, answers: seq<Option<string>>,
                      executeOk: bool): (r: ViewerState)
    requires columns.Some? ==> |answers| == |columns.value|
    ensures !CanWrite(s) || columns.None? || !Answered(answers) || !executeOk ==> r == s
    ensures CanWrite(s) && columns.Some? && Answered(answers) && executeOk ==>
      r.modified && r.currentTable == s.currentTable &&
      r.db == Some(Execute(s.db.value, [InsertStatement(s.currentTable.value, columns.value, Values(answers))]))
    ensures FlagSound(s) ==> FlagSound(r)
  {
    if !CanWrite(s) || columns.None? || !Answered(answers) || !executeOk then s
    else
      var st := InsertStatement(s.currentTable.value, columns.value, Values(answers));
      assert IsDml(st.sql) && [st][0] == st;
      HasWriteAppend(s.db.value.uncommitted, [st]);
      s.(db := Some(Execute(s.db.value, [st])), modified := true)
  }

  /** Every selected cell lies in the grid. */
  predicate SelectionInGrid(g: Grid, selected: seq<Cell>) {
    forall k | 0 <= k < |selected| :: HasCell(g, selected[k].row, selected[k].column)
  }

  /** The rows a delete visits: each selected row once, from the last to the first. */
  function DeleteOrder(selected: seq<Cell>): (order: seq<nat>)
    ensures StrictlyDescending(order)
    ensures forall y :: y in order <==> exists k | 0 <= k < |selected| :: selected[k].row == y
    ensures |selected| > 0 ==> |order| > 0
  {
    var order := DistinctDescending(RowsOf(selected));
    assert |selected| > 0 ==> RowsOf(selected)[0] in order;
    order
  }

  /** One keyed DELETE per row, in the order given, keyed on the row's first cell. */
  function DeleteStatements(table: string, g: Grid, rows: seq<nat>): (sts: seq<Statement>)
    requires Rectangular(g) && |g.headers| > 0
    requires forall i | 0 <= i < |rows| :: rows[i] < |g.cells|
    ensures |sts| == |rows|
    ensures forall i | 0 <= i < |rows| :: sts[i] == DeleteStatement(table, g.headers[0], g.cells[rows[i]][0])
  {
    if |rows| == 0 then []
    else DeleteStatements(table, g, rows[..|rows| - 1]) + [DeleteStatement(table, g.headers[0], g.cells[rows[|rows| - 1]][0])]
  }

  /** Running the DELETE for one more row extends the statements run by that one DELETE. */
  lemma {:induction false} DeleteStatementsExtend(c: Connection, table: string, g: Grid, rows: seq<nat>, k: nat)
    requires Rectangular(g) && |g.headers| > 0
    requires forall i | 0 <= i < |rows| :: rows[i] < |g.cells|
    requires k < |rows|
    ensures Execute(c, DeleteStatements(table, g, rows[..k + 1]))
      == Execute(Execute(c, DeleteStatements(table, g, rows[..k])), [DeleteStatement(table, g.headers[0], g.cells[rows[k]][0])])
  {
    var done := DeleteStatements(table, g, rows[..k]);
    var st := DeleteStatement(table, g.headers[0], g.cells[rows[k]][0]);
    assert rows[..k + 1][..k] == rows[..k];
    assert DeleteStatements(table, g, rows[..k + 1]) == done + [st];
    assert c.uncommitted + done + [st] == c.uncommitted + (done + [st]);
  }

  /** The selected rows of a selection that lies in the grid are rows of the grid. */
  lemma {:induction false} DeleteOrderInGrid(g: Grid, selected: seq<Cell>)
    requires SelectionInGrid(g, selected)
    ensures forall i | 0 <= i < |DeleteOrder(selected)| :: DeleteOrder(selected)[i] < |g.cells|
    ensures |selected| > 0 ==> |g.headers| > 0
  {
    var order := DeleteOrder(selected);
    forall i | 0 <= i < |order|
      ensures order[i] < |g.cells|
    {
      assert order[i] in order;
    }
    if |selected| > 0 {
      assert HasCell(g, selected[0].row, selected[0].column);
    }
  }

  /** The rows whose DELETE ran: the visiting order up to the statement at `failAt` that raised. */
  function DeletedRows(g: Grid, selected: seq<Cell>, failAt: nat): (rows: seq<nat>)
    requires SelectionInGrid(g, selected)
    ensures rows == DeleteOrder(selected)[..if failAt < |DeleteOrder(selected)| then failAt else |DeleteOrder(selected)|]
    ensures forall i | 0 <= i < |rows| :: rows[i] < |g.cells|
    ensures |selected| > 0 ==> |g.headers| > 0
  {
    var order := DeleteOrder(selected);
    DeleteOrderInGrid(g, selected);
    order[..if failAt < |order| then failAt else |order|]
  }

  /**
    `delete_selected_rows`: `confirm` is the Yes/No answer; the DELETE at position `failAt`
    of the visiting order raises (none does when `failAt` is past the end). The DELETEs
    before it stay executed; the flag goes up only when the whole loop finished.
   */
  function DeleteStep(s: ViewerState, g: Grid, selected: seq<Cell>, confirm: bool, failAt: nat): (r: ViewerState)
    requires Rectangular(g) && SelectionInGrid(g, selected)
    ensures !CanWrite(s) || |selected| == 0 || !confirm ==> r == s
    ensures CanWrite(s) && |selected| > 0 && confirm ==>
      && r.currentTable == s.currentTable
      && r.db == Some(Execute(s.db.value, DeleteStatements(s.currentTable.value, g, DeletedRows(g, selected, failAt))))
      && (r.modified <==> s.modified || failAt >= |DeleteOrder(selected)|)
    ensures FlagSound(s) ==> FlagSound(r)
  {
    if !CanWrite(s) || |selected| == 0 || !confirm then s
    else
      var sts := DeleteStatements(s.currentTable.value, g, DeletedRows(g, selected, failAt));
      var t := s.(db := Some(Execute(s.db.value, sts)));
      if failAt < |DeleteOrder(selected)| then
        HasWriteAppend(s.db.value.uncommitted, sts);
        t
      else
        assert IsDml(sts[0].sql);
        HasWriteAppend(s.db.value.uncommitted, sts);
        t.(modified := true)
  }

  /** What the engine made of a typed query: it raised, or it ran and reported rows and headers. */
  datatype QueryOutcome = QueryFailed | QueryRan(rows: seq<seq<string>>, headers: seq<string>)

  /** `query.upper().startswith(("INSERT", "UPDATE", "DELETE"))`, with ASCII upper-casing. */
  predicate IsDml(query: string) {
    StartsWith(AsciiUpper(query), "INSERT") || StartsWith(AsciiUpper(query), "UPDATE")
    || StartsWith(AsciiUpper(query), "DELETE")
  }

  /**
    `execute_query`: the typed text, stripped, is run as it is. The flag goes up only for a
    statement without result headers, with a table selected, whose text starts with
    INSERT, UPDATE or DELETE.
   */
  function QueryStep(s: ViewerState, text: string, outcome: QueryOutcome): (r: ViewerState)
    ensures s.db.None? || Strip(text) == "" || outcome.QueryFailed? ==> r == s
    ensures s.db.Some? && Strip(text) != "" && outcome.QueryRan? ==>
      && r.currentTable == s.currentTable
      && r.db == Some(Execute(s.db.value, [Statement(Strip(text), [])]))
      && (r.modified <==> s.modified || (outcome.headers == [] && TableSelected(s) && IsDml(Strip(text))))
    ensures FlagSound(s) ==> FlagSound(r)
  {
    var query := Strip(text);
    if s.db.None? || query == "" then s
    else match outcome
      case QueryFailed => s
      case QueryRan(rows, headers) =>
        var st := Statement(query, []);
        var t := s.(db := Some(Execute(s.db.value, [st])));
        if headers == [] && TableSelected(s) && IsDml(query) then
          assert [st][0] == st;
          HasWriteAppend(s.db.value.uncommitted, [st]);
          t.(modified := true)
        else
          HasWriteAppend(s.db.value.uncommitted, [st]);
          t
  }

  /** Whether the window closes, and the state it leaves. */
  datatype CloseResult = CloseResult(accepted: bool, state: ViewerState)

  /** `closeEvent`: the window stays open only after Cancel on the unsaved-changes question. */
  function CloseStep(s: ViewerState, reply: Reply, commitOk: bool): (r: CloseResult)
    ensures r.accepted <==> !(Prompts(s) && reply == Cancel)
    ensures Prompts(s) && reply == Save ==> r.accepted && r.state == SaveStep(s, commitOk)
    ensures !(Prompts(s) && reply == Save) ==> r.state == s
    ensures FlagSound(s) ==> FlagSound(r.state)
  {
    if Prompts(s) then
      match reply
      case Save => CloseResult(true, SaveStep(s, commitOk))
      case Discard => CloseResult(true, s)
      case Cancel => CloseResult(false, s)
    else CloseResult(true, s)
  }

  /** A user action with the inputs it consumes. */
  datatype Event =
    | OpenFile(reply: Reply, commitOk: bool, fileName: string, connectOk: bool)
    | SaveChanges(commitOk: bool)
    | ClickTreeItem(tableItem: Option<string>)
    | EditCell(grid: Grid, row: nat, col: nat, executeOk: bool)
    | AddRow(columns: Option<seq<string>>, answers: seq<Option<string>>, executeOk: bool)
    | DeleteRows(grid: Grid, selected: seq<Cell>, confirm: bool, failAt: nat)
    | RunQuery(text: string, outcome: QueryOutcome)
    | CloseWindow(reply: Reply, commitOk: bool)

  /** The inputs an event gets from the widgets fit together (the edited cell is in the grid, ...). */
  predicate WellFormed(e: Event) {
    match e
    case EditCell(g, row, col, _) => Rectangular(g) && HasCell(g, row, col)
    case AddRow(columns, answers, _) => columns.Some? ==> |answers| == |columns.value|
    case DeleteRows(g, selected, _, _) => Rectangular(g) && SelectionInGrid(g, selected)
    case _ => true
  }

  /** The effect of one event on the state (a refused close leaves the window open). */
  function Step(s: ViewerState, e: Event): ViewerState
    requires WellFormed(e)
  {
    match e
    case OpenFile(reply, commitOk, fileName, connectOk) => OpenStep(s, reply, commitOk, fileName, connectOk)
    case SaveChanges(commitOk) => SaveStep(s, commitOk)
    case ClickTreeItem(item) => SelectTableStep(s, item)
    case EditCell(g, row, col, ok) => CellChangedStep(s, g, row, col, ok)
    case AddRow(columns, answers, ok) => AddRowStep(s, columns, answers, ok)
    case DeleteRows(g, selected, confirm, failAt) => DeleteStep(s, g, selected, confirm, failAt)
    case RunQuery(text, outcome) => QueryStep(s, text, outcome)
    case CloseWindow(reply, commitOk) => CloseStep(s, reply, commitOk).state
  }

  /** The state after a sequence of events. */
  function Replay(s: ViewerState, events: seq<Event>): ViewerState
    requires forall i | 0 <= i < |events| :: WellFormed(events[i])
    decreases |events|
  {
    if |events| == 0 then s else Replay(Step(s, events[0]), events[1..])
  }

  /** Every event keeps the flag sound. */
  lemma {:induction false} StepKeepsFlagSound(s: ViewerState, e: Event)
    requires WellFormed(e) && FlagSound(s)
    ensures FlagSound(Step(s, e))
  {
  }

  /**
    From the start, and after any sequence of events, the flag is up only when an INSERT,
    UPDATE or DELETE has run on the open connection since the last save or connect.
   */
  lemma {:induction false} ReplayKeepsFlagSound(s: ViewerState, events: seq<Event>)
    requires forall i | 0 <= i < |events| :: WellFormed(events[i])
    requires FlagSound(s)
    ensures FlagSound(Replay(s, events))
    decreases |events|
  {
    if |events| > 0 {
      StepKeepsFlagSound(s, events[0]);
      ReplayKeepsFlagSound(Step(s, events[0]), events[1..]);
    }
  }

  /** The flag goes down only by a successful commit or by connecting to a file. */
  lemma {:induction false} FlagFallsOnlyOnCommitOrConnect(s: ViewerState, e: Event)
    requires WellFormed(e) && FlagSound(s) && s.modified && !Step(s, e).modified
    ensures s.db.Some?
    ensures Step(s, e).db == Some(Commit(s.db.value)) || (e.OpenFile? && Step(s, e).db == Some(Connect(e.fileName)))
  {
  }

  /** The flag goes up only when an editing event ran at least one statement. */
  lemma {:induction false} FlagRisesOnlyOnExecute(s: ViewerState, e: Event)
    requires WellFormed(e) && !s.modified && Step(s, e).modified
    ensures e.EditCell? || e.AddRow? || e.DeleteRows? || e.RunQuery?
    ensures s.db.Some? && Step(s, e).db.Some?
    ensures Step(s, e).db.value.committed == s.db.value.committed
    ensures |Step(s, e).db.value.uncommitted| > |s.db.value.uncommitted|
  {
    if e.DeleteRows? {
      assert |DeleteOrder(e.selected)| > 0;
    }
  }

  /** Every event except opening a file keeps the connection and only adds to what it committed. */
  lemma {:induction false} CommittedOnlyGrows(s: ViewerState, e: Event)
    requires WellFormed(e) && !e.OpenFile? && s.db.Some?
    ensures Step(s, e).db.Some? && Step(s, e).db.value.path == s.db.value.path
    ensures s.db.value.committed <= Step(s, e).db.value.committed
  {
  }

  /** Text that starts with a DDL keyword never counts as a modification. */
  lemma {:induction false} DdlIsNotDml(query: string)
    requires StartsWith(AsciiUpper(query), "CREATE") || StartsWith(AsciiUpper(query), "DROP")
          || StartsWith(AsciiUpper(query), "ALTER")
    ensures !IsDml(query)
  {
    var u := AsciiUpper(query);
    assert u[0] == 'C' || u[0] == 'D' || u[0] == 'A';
    if u[0] == 'D' {
      assert u[1] == 'R';
    }
  }

  /**
    A DML statement typed before any table is selected runs but leaves the flag down: a
    save then commits nothing and the window closes without asking.
   */
  lemma {:induction false} DmlWithoutTableIsNotFlagged(s: ViewerState, text: string, reply: Reply, commitOk: bool)
    requires s.db.Some? && !s.modified && !TableSelected(s)
    requires Strip(text) != "" && IsDml(Strip(text))
    ensures var r := QueryStep(s, text, QueryRan([], []));
      && !r.modified && r.db.value.uncommitted != []
      && SaveStep(r, commitOk) == r
      && CloseStep(r, reply, commitOk).accepted
  {
  }
}
