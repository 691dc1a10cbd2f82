/**
  The main window's controller (dbviewer.py, class `DBViewer`) with its three fields and
  the handlers that change them. Each handler is proved to take the state where the
  matching step of module `Editor` says; the properties of the editor are proved there.
 */
module Viewer {
  import opened Wrappers
  import opened PyStr
  import opened SqlTemplates
  import opened RowTargeting
  import opened ColumnWidths
  import opened Editor

  class DBViewer {
    /** The open connection, `None` before the first successful open. */
    var db: Option<Connection>
    /** The table last clicked in the tree. */
    var currentTable: Option<string>
    /** The unsaved-changes flag `db_modified`. */
    var dbModified: bool

    /** The fields as a value. */
    function State(): ViewerState
      reads this
    {
      ViewerState(db, currentTable, dbModified)
    }

    /** `__init__`: nothing open, nothing selected, nothing modified. */
    constructor ()
      ensures State() == INITIAL
    {
      db := None;
      currentTable := None;
      dbModified := false;
    }

    /** `save_changes`: commit when something is pending; the flag falls only if the commit succeeds. */
    method SaveChanges(commitOk: bool)
      modifies this
      ensures State() == SaveStep(old(State()), commitOk)
    {
      if db.None? {
        return;
      }
      if !dbModified {
        return;
      }
      if commitOk {
        db := Some(Commit(db.value));
        dbModified := false;
      }
    }

    /**
      `open_database`: settle unsaved changes, then connect to the chosen file if there is
      one. `connectOk` is whether the `DBConnector` constructor returned; a later failure of
      `refresh_tree` leaves the new connection in place.
     */
    method OpenDatabase(reply: Reply, commitOk: bool, fileName: string, connectOk: bool)
      modifies this
      ensures State() == OpenStep(old(State()), reply, commitOk, fileName, connectOk)
    {
      if db.Some? && dbModified {
        if reply == Save {
          SaveChanges(commitOk);
        } else if reply == Cancel {
          return;
        }
      }
      if fileName != "" {
        if connectOk {
          db := Some(Connect(fileName));
          dbModified := false;
        }
      }
    }

    /** `on_tree_item_clicked`: `tableItem` is the name carried by a table item, `None` for other items. */
    method OnTreeItemClicked(tableItem: Option<string>)
      modifies this
      ensures State() == SelectTableStep(old(State()), tableItem)
    {
      if tableItem.Some? {
        currentTable := tableItem;
      }
    }

    /** `on_cell_changed`: run the keyed UPDATE for the edited cell of the grid `g`. */
    method OnCellChanged(g: Grid, row: nat, col: nat, executeOk: bool)
      requires Rectangular(g) && HasCell(g, row, col)
      modifies this
      ensures State() == CellChangedStep(old(State()), g, row, col, executeOk)
    {
      if db.None? || currentTable.None? || currentTable.value == "" {
        return;
      }
      var query := EditStatement(currentTable.value, g, row, col);
      if executeOk {
        db := Some(Execute(db.value, [query]));
        dbModified := true;
      }
    }

    /**
      `add_row_dialog`: ask for one value per column in schema order, stop at the first
      Cancel, and otherwise run the INSERT with the values in the order they were typed.
     */
    method AddRowDialog(columns: Option<seq<string>>, answers: seq<Option<string>>, executeOk: bool)
      requires columns.Some? ==> |answers| == |columns.value|
      modifies this
      ensures State() == AddRowStep(old(State()), columns, answers, executeOk)
    {
      if currentTable.None? || currentTable.value == "" || db.None? {
        return;
      }
      if columns.None? {
        return;
      }
      var columnNames := columns.value;
      var values: seq<string> := [];
      var i := 0;
      while i < |columnNames|
        invariant 0 <= i <= |columnNames| && |values| == i
        invariant forall k | 0 <= k < i :: answers[k].Some? && values[k] == answers[k].value
      {
        if answers[i].None? {
          return;
        }
        values := values + [answers[i].value];
        i := i + 1;
      }
      assert values == Values(answers);
      var query := InsertStatement(currentTable.value, columnNames, values);
      if executeOk {
        db := Some(Execute(db.value, [query]));
        dbModified := true;
      }
    }

    /**
      `delete_selected_rows`: after a Yes, run one keyed DELETE per selected row, from the
      last row to the first. The DELETE at position `failAt` raises and ends the loop; the
      flag goes up only when the loop ran to its end.
     */
    method DeleteSelectedRows(g: Grid, selected: seq<Cell>, confirm: bool, failAt: nat)
      requires Rectangular(g) && SelectionInGrid(g, selected)
      modifies this
      ensures State() == DeleteStep(old(State()), g, selected, confirm, failAt)
    {
      if currentTable.None? || currentTable.value == "" || db.None? {
        return;
      }
      if |selected| == 0 {
        return;
      }
      if !confirm {
        return;
      }
      var order := DeleteOrder(selected);
      DeleteOrderInGrid(g, selected);
      var deletedCount := RunDeletes(currentTable.value, g, order, failAt);
      assert DeletedRows(g, selected, failAt) == order[..deletedCount];
      if deletedCount == |order| {
        dbModified := true;
      }
    }

    /**
      The loop of `delete_selected_rows`: the DELETE of each row of `order` in turn, until
      the one at position `failAt` raises. Returns how many ran.
     */
    method RunDeletes(table: string, g: Grid, order: seq<nat>, failAt: nat) returns (deletedCount: nat)
      requires db.Some? && Rectangular(g) && |g.headers| > 0
      requires forall i | 0 <= i < |order| :: order[i] < |g.cells|
      modifies this
      ensures deletedCount == if failAt < |order| then failAt else |order|
      ensures db == Some(Execute(old(db).value, DeleteStatements(table, g, order[..deletedCount])))
      ensures currentTable == old(currentTable) && dbModified == old(dbModified)
    {
      var start := db.value;
      deletedCount := 0;
      assert start.uncommitted + DeleteStatements(table, g, order[..0]) == start.uncommitted;
      while deletedCount < |order| && deletedCount != failAt
        invariant deletedCount <= |order| && deletedCount <= failAt
        invariant db == Some(Execute(start, DeleteStatements(table, g, order[..deletedCount])))
        invariant currentTable == old(currentTable) && dbModified == old(dbModified)
      {
        var primaryKeyVal := g.cells[order[deletedCount]][0];
        DeleteStatementsExtend(start, table, g, order, deletedCount);
        db := Some(Execute(db.value, [DeleteStatement(table, g.headers[0], primaryKeyVal)]));
        deletedCount := deletedCount + 1;
      }
    }

    /**
      `execute_query`: run the stripped text as typed. A result with headers is shown, and
      `widths` are the column widths set for it; otherwise the flag goes up for a DML
      statement on a selected table.
     */
    method ExecuteQuery(text: string, outcome: QueryOutcome) returns (widths: seq<int>)
      modifies this
      ensures State() == QueryStep(old(State()), text, outcome)
      ensures widths == if old(db).Some? && Strip(text) != "" && outcome.QueryRan? && outcome.headers != []
                        then Widths(outcome.rows, outcome.headers) else []
    {
      widths := [];
      if db.None? {
        return;
      }
      var query := Strip(text);
      if query == "" {
        return;
      }
      match outcome
      case QueryFailed =>
        return;
      case QueryRan(data, headers) =>
        db := Some(Execute(db.value, [Statement(query, [])]));
        if headers != [] {
          widths := AutoAdjustColumnWidths(data, headers);
        } else if currentTable.Some? && currentTable.value != "" && IsDml(query) {
          dbModified := true;
        }
    }

    /** `closeEvent`: whether the window may close; Save closes it even when the commit fails. */
    method CloseEvent(reply: Reply, commitOk: bool) returns (accepted: bool)
      modifies this
      ensures accepted == CloseStep(old(State()), reply, commitOk).accepted
      ensures State() == CloseStep(old(State()), reply, commitOk).state
    {
      if db.Some? && dbModified {
        if reply == Save {
          SaveChanges(commitOk);
          accepted := true;
        } else if reply == Discard {
          accepted := true;
        } else {
          accepted := false;
        }
      } else {
        accepted := true;
      }
    }
  }
}
