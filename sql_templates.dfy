/**
  The SQL text the editor derives for a cell edit, an added row and a deleted row
  (dbviewer.py, `on_cell_changed`, `add_row_dialog`, `delete_selected_rows`).
  Table and column names are pasted into the text as they are; values travel as bound
  parameters, one `?` each.
 */
module SqlTemplates {
  import opened PyStr

  /** A statement handed to the cursor: its text and the values bound to its `?` markers. */
  datatype Statement = Statement(sql: string, params: seq<string>)

  /** `", ".join(["?"] * n)`: the VALUES list of an INSERT with `n` columns. */
  function Placeholders(n: nat): string {
    Join(Repeat("?", n), ", ")
  }

  /** `"?, ?, ..., ?"` written out character by character: `?` every third position, `", "` between. */
  ghost predicate IsPlaceholderList(r: string, n: nat) {
    && |r| == (if n == 0 then 0 else 3 * n - 2)
    && forall i | 0 <= i < |r| :: r[i] == (if i % 3 == 0 then '?' else if i % 3 == 1 then ',' else ' ')
  }

  /** One `?` per column. */
  lemma {:induction false} PlaceholdersCount(n: nat)
    ensures Occurrences(Placeholders(n), '?') == n
  {
    if n > 1 {
      PlaceholdersCount(n - 1);
      assert Repeat("?", n)[..n - 1] == Repeat("?", n - 1);
      assert Placeholders(n) == Placeholders(n - 1) + ", " + "?";
      OccurrencesConcat(Placeholders(n - 1), ", ", '?');
      OccurrencesConcat(Placeholders(n - 1) + ", ", "?", '?');
    } else if n == 1 {
      assert Placeholders(1) == "?";
    }
  }

  /** The placeholder list has exactly the `"?, ?, ..., ?"` shape. */
  lemma {:induction false} PlaceholdersShape(n: nat)
    ensures IsPlaceholderList(Placeholders(n), n)
  {
    if n > 1 {
      PlaceholdersShape(n - 1);
      assert Repeat("?", n)[..n - 1] == Repeat("?", n - 1);
      assert Placeholders(n) == Placeholders(n - 1) + ", " + "?";
    } else if n == 1 {
      assert Placeholders(1) == "?";
    }
  }

  /** Column names without `?` contribute no marker to the column list. */
  lemma {:induction false} NoMarkerInColumns(columns: seq<string>)
    requires forall i | 0 <= i < |columns| :: '?' !in columns[i]
    ensures SumOccurrences(columns, '?') == 0
  {
    if |columns| > 0 {
      NoMarkerInColumns(columns[..|columns| - 1]);
      OccurrencesAbsent(columns[|columns| - 1], '?');
    }
  }

  /** `f"UPDATE {table} SET {column} = ? WHERE {key} = ?"`. */
  function UpdateSql(table: string, column: string, key: string): string {
    "UPDATE " + table + " SET " + column + " = ? WHERE " + key + " = ?"
  }

  /** The column list of the INSERT: `", ".join(column_names)`. */
  function ColumnList(columns: seq<string>): string {
    Join(columns, ", ")
  }

  /** The text of the INSERT before its column list. */
  function InsertHead(table: string): string {
    "INSERT INTO " + table + " ("
  }

  /** `f"INSERT INTO {table} ({columns_str}) VALUES ({placeholders})"`. */
  function InsertSql(table: string, columns: seq<string>): string {
    InsertHead(table) + ColumnList(columns) + ") VALUES (" + Placeholders(|columns|) + ")"
  }

  /** `f"DELETE FROM {table} WHERE {key} = ?"`. */
  function DeleteSql(table: string, key: string): string {
    "DELETE FROM " + table + " WHERE " + key + " = ?"
  }

  /** No `?` inside an identifier, so every marker in the text is one of the template's. */
  predicate NoMarker(name: string) {
    '?' !in name
  }

  /** A statement binds as many values as its text has `?` markers. */
  predicate WellBound(st: Statement) {
    Occurrences(st.sql, '?') == |st.params|
  }

  /** The cell-edit statement: set `column` to the new text, keyed on the given key text. */
  function UpdateStatement(table: string, column: string, key: string, newValue: string, keyValue: string): (st: Statement)
    ensures st.params == [newValue, keyValue]
    ensures StartsWith(AsciiUpper(st.sql), "UPDATE")
  {
    var st := Statement(UpdateSql(table, column, key), [newValue, keyValue]);
    assert st.sql[..6] == "UPDATE";
    assert AsciiUpper(st.sql)[..6] == "UPDATE";
    st
  }

  /** The add-row statement: the values are bound in column order. */
  function InsertStatement(table: string, columns: seq<string>, values: seq<string>): (st: Statement)
    requires |values| == |columns|
    ensures st.params == values
    ensures StartsWith(AsciiUpper(st.sql), "INSERT")
  {
    var st := Statement(InsertSql(table, columns), values);
    assert st.sql[..6] == "INSERT";
    assert AsciiUpper(st.sql)[..6] == "INSERT";
    st
  }

  /** The delete statement for one row, keyed on that row's key text. */
  function DeleteStatement(table: string, key: string, keyValue: string): (st: Statement)
    ensures st.params == [keyValue]
    ensures StartsWith(AsciiUpper(st.sql), "DELETE")
  {
    var st := Statement(DeleteSql(table, key), [keyValue]);
    assert st.sql[..6] == "DELETE";
    assert AsciiUpper(st.sql)[..6] == "DELETE";
    st
  }

  /** With `?`-free names, the UPDATE has two markers: the new value and the key value. */
  lemma {:induction false} UpdateIsWellBound(table: string, column: string, key: string, newValue: string, keyValue: string)
    requires NoMarker(table) && NoMarker(column) && NoMarker(key)
    ensures WellBound(UpdateStatement(table, column, key, newValue, keyValue))
  {
    OccurrencesAbsent(table, '?');
    OccurrencesAbsent(column, '?');
    OccurrencesAbsent(key, '?');
    OccurrencesOfSeven("UPDATE ", table, " SET ", column, " = ? WHERE ", key, " = ?", '?');
    assert UpdateStatement(table, column, key, newValue, keyValue).sql == UpdateSql(table, column, key);
  }

  /** With `?`-free names, the INSERT has exactly one marker per column, each bound to one value. */
  lemma {:induction false} InsertIsWellBound(table: string, columns: seq<string>, values: seq<string>)
    requires |values| == |columns|
    requires NoMarker(table) && forall i | 0 <= i < |columns| :: NoMarker(columns[i])
    ensures WellBound(InsertStatement(table, columns, values))
    ensures Occurrences(InsertStatement(table, columns, values).sql, '?') == |columns|
  {
    InsertHeadHasNoMarker(table);
    NoMarkerInColumns(columns);
    JoinOccurrences(columns, ", ", '?');
    PlaceholdersCount(|columns|);
    InsertMarkers(InsertHead(table), ColumnList(columns), |columns|);
  }

  /** The head of the INSERT contributes no marker. */
  lemma {:induction false} InsertHeadHasNoMarker(table: string)
    requires NoMarker(table)
    ensures Occurrences(InsertHead(table), '?') == 0
  {
    OccurrencesAbsent(table, '?');
    OccurrencesConcat("INSERT INTO ", table, '?');
    OccurrencesConcat("INSERT INTO " + table, " (", '?');
  }

  /** The markers of an INSERT are those of its head, its column list and its VALUES list. */
  lemma {:induction false} InsertMarkers(head: string, list: string, n: nat)
    ensures Occurrences(head + list + ") VALUES (" + Placeholders(n) + ")", '?')
      == Occurrences(head, '?') + Occurrences(list, '?') + Occurrences(Placeholders(n), '?')
  {
    OccurrencesOfFive(head, list, ") VALUES (", Placeholders(n), ")", '?');
  }

  /** With `?`-free names, the DELETE has one marker: the key value. */
  lemma {:induction false} DeleteIsWellBound(table: string, key: string, keyValue: string)
    requires NoMarker(table) && NoMarker(key)
    ensures WellBound(DeleteStatement(table, key, keyValue))
  {
    OccurrencesAbsent(table, '?');
    OccurrencesAbsent(key, '?');
    OccurrencesOfFive("DELETE FROM ", table, " WHERE ", key, " = ?", '?');
    assert DeleteStatement(table, key, keyValue).sql == DeleteSql(table, key);
  }

  /**
    The INSERT names the columns in schema order: column `i` stands at its join offset
    after the head of the statement.
   */
  lemma {:induction false} InsertListsColumnsInOrder(table: string, columns: seq<string>, i: nat)
    requires i < |columns|
    ensures var at := |InsertHead(table)| + Offset(columns, ", ", i);
      at + |columns[i]| <= |InsertSql(table, columns)| &&
      InsertSql(table, columns)[at..at + |columns[i]|] == columns[i]
  {
    var head, list, marks := InsertHead(table), ColumnList(columns), Placeholders(|columns|);
    var off := Offset(columns, ", ", i);
    assert off + |columns[i]| <= |list| && list[off..off + |columns[i]|] == columns[i] by {
      JoinPlacesParts(columns, ", ", i);
    }
    PartOfInsert(head, list, marks, columns[i], off);
  }

  /** A slice inside the column list of an INSERT's text is a slice of that list. */
  lemma {:induction false} PartOfInsert(head: string, list: string, marks: string, part: string, off: nat)
    requires off + |part| <= |list| && list[off..off + |part|] == part
    ensures |head| + off + |part| <= |head + list + ") VALUES (" + marks + ")"|
    ensures (head + list + ") VALUES (" + marks + ")")[|head| + off..|head| + off + |part|] == part
  {
    SliceOfSecond(head, list, ") VALUES (", marks, ")", off, off + |part|);
  }

  /** A slice inside the second piece of a five-piece concatenation is a slice of that piece. */
  lemma {:induction false} SliceOfSecond(a: string, b: string, c: string, d: string, e: string, lo: nat, hi: nat)
    requires lo <= hi <= |b|
    ensures |a| + hi <= |a + b + c + d + e|
    ensures (a + b + c + d + e)[|a| + lo..|a| + hi] == b[lo..hi]
  {
    assert (a + b + c + d + e) == a + b + (c + d + e);
  }
}
