# DB viewer/editor — a verified model of its controller and test-data generator

The repository is a desktop viewer and editor for SQLite files. A PyQt window shows the
tables of the open file in a tree and one table in an editable grid, and it has a box for
typing SQL. Edits are sent to the engine at once but are not committed. A flag,
`db_modified`, records that there are unsaved changes. The flag drives the
Save / Discard / Cancel question asked before another file is opened and before the
window closes. A separate script, `generate_test_data.py`, fills a sample shop database.

This project models:

- **The controller state machine.** `DBViewer`'s three fields (`db`, `current_table`,
  `db_modified`) and the handlers that change them. Every dialog answer, the chosen file
  name, the grid contents and each engine call's success or failure are inputs of the
  handler. Module `Editor` states each handler as a pure step on `ViewerState`. Class
  `Viewer.DBViewer` holds the fields and implements the handlers as methods, each proved
  to reach the state its step gives. An open connection is modelled by the statements the
  editor sent through its cursor: those pending since the last commit and those committed.
- **The SQL text** the editor derives for a cell edit, an added row and a deleted row
  (module `SqlTemplates`). Also the rows a delete visits and their order (module
  `RowTargeting`).
- **The column-width rule** of the grid (module `ColumnWidths`).
- **The row lists the generator inserts** (module `TestData`). They are built by the
  source's append loops. Every random draw and date string is a parameter. Prices are
  values of an opaque type.

Python's `sep.join`, `str.strip`, `str.upper` (ASCII only), `str.startswith` and `str(n)`
are modelled in module `PyStr`.

A DML statement typed in the query box raises the flag only when a table is selected in
the tree (`Editor.DmlWithoutTableIsNotFlagged`). A save then commits nothing, and the
window closes without asking.

## Model

| member | source | states |
|---|---|---|
| PyStr.Strip | dbviewer.py:335 | the result is empty exactly when the text is all whitespace; otherwise it is the text between the leading and trailing whitespace runs, and both of its ends are non-space |
| PyStr.AsciiUpper | dbviewer.py:360 | same length; each character is upper-cased if it is an ASCII letter and kept otherwise |
| PyStr.JoinPlacesParts | dbviewer.py:271-272 | `sep.join` keeps every part, in order, at its offset, with the separator between consecutive parts |
| PyStr.JoinOccurrences | dbviewer.py:271-272 | a separator without the character adds no occurrence of it to the join |
| PyStr.DecimalString | generate_test_data.py:86-88 | `str(n)` is a non-empty run of digits without a leading zero |
| PyStr.DecimalStringInjective | generate_test_data.py:86-88 | different numbers print differently |
| SqlTemplates.PlaceholdersCount | dbviewer.py:271 | the VALUES list for n columns has exactly n `?` markers |
| SqlTemplates.PlaceholdersShape | dbviewer.py:271 | the VALUES list is `?, ?, ..., ?`, character by character |
| SqlTemplates.Placeholders | dbviewer.py:271 | `", ".join(["?"] * n)`; its count and shape are stated by `PlaceholdersCount` and `PlaceholdersShape` |
| SqlTemplates.ColumnList | dbviewer.py:272 | `", ".join(column_names)`; the placement of each column is stated by `InsertListsColumnsInOrder` |
| SqlTemplates.UpdateSql | dbviewer.py:249 | the UPDATE template with the table, the edited column and the key column pasted in; its two markers are counted by `UpdateIsWellBound` |
| SqlTemplates.InsertSql | dbviewer.py:282 | the INSERT template: head, column list, `) VALUES (`, placeholders; its markers are counted by `InsertIsWellBound` |
| SqlTemplates.DeleteSql | dbviewer.py:317 | the DELETE template keyed on the first column; its one marker is counted by `DeleteIsWellBound` |
| SqlTemplates.UpdateStatement | dbviewer.py:249-252 | the UPDATE binds the new value then the key value, and its text starts with UPDATE |
| SqlTemplates.InsertStatement | dbviewer.py:282-283 | the INSERT binds the typed values in column order, and its text starts with INSERT |
| SqlTemplates.DeleteStatement | dbviewer.py:317-318 | the DELETE binds only the key value, and its text starts with DELETE |
| SqlTemplates.UpdateIsWellBound | dbviewer.py:249-252 | with `?`-free names, the UPDATE has exactly as many markers as bound values (two) |
| SqlTemplates.InsertIsWellBound | dbviewer.py:271-283 | with `?`-free names, the INSERT has exactly one marker per column and binds one value per marker |
| SqlTemplates.DeleteIsWellBound | dbviewer.py:317-318 | with `?`-free names, the DELETE has exactly one marker and one bound value |
| SqlTemplates.InsertListsColumnsInOrder | dbviewer.py:272-282 | column i of the schema stands at its join offset in the INSERT's column list, so the columns appear in schema order |
| RowTargeting.RowsOf | dbviewer.py:297 | one row index per selected cell, in selection order |
| RowTargeting.InsertDescending | dbviewer.py:297-315 | adding a row to a descending run of distinct rows keeps it strictly descending and adds exactly that row |
| RowTargeting.DistinctDescending | dbviewer.py:297-315 | `sorted(set(rows), reverse=True)`: strictly descending, so no duplicates, and holding exactly the given rows |
| RowTargeting.DescendingCardinality | dbviewer.py:297 | a strictly descending sequence has as many elements as its set |
| RowTargeting.DistinctRowCount | dbviewer.py:297-320 | a delete visits as many rows as there are distinct rows among the selected cells |
| ColumnWidths.SampleCount | dbviewer.py:376 | at most ten rows are sampled, and fewer only when the data has fewer rows |
| ColumnWidths.HeaderWidth | dbviewer.py:372 | `len(header) * 10 + 30` |
| ColumnWidths.ContentWidth | dbviewer.py:379 | `len(cell_content) * 8 + 20` |
| ColumnWidths.SampleWidth | dbviewer.py:375-380 | the sample width of a column over the first `min(10, len(data))` rows, as `SampleUpTo` characterises it |
| ColumnWidths.SampleUpTo | dbviewer.py:374-380 | the running sample width is 0 or the width of one of the sampled cells, it is at least every sampled cell's width, and it is 0 exactly when no sampled row has that column |
| ColumnWidths.ColumnWidth | dbviewer.py:372-384 | the width lies in [100, 300], is at least the header and sample estimates unless capped, is at most the largest of them and 100, and is one of 100, 300, the header estimate or the sample: together, exactly min(max(header, sample, 100), 300) |
| ColumnWidths.Widths | dbviewer.py:369-384 | one width per header, each in [100, 300] |
| ColumnWidths.WidthsCoverSample | dbviewer.py:372-384 | every width covers the header estimate and every sampled cell's estimate, unless capped at 300 |
| ColumnWidths.WidthsIgnoreLaterRows | dbviewer.py:376 | rows after the tenth never change a width |
| ColumnWidths.SamplePrefix | dbviewer.py:376-380 | the running sample over the first n rows depends on those rows only |
| ColumnWidths.AutoAdjustColumnWidths | dbviewer.py:367-384 | the two nested loops compute exactly the widths `Widths` defines |
| Editor.Execute | dbviewer.py:252 | executing adds the statements to those pending and changes nothing else |
| Editor.Commit | dbviewer.py:162 | a commit moves everything pending, in order, behind what was committed before |
| Editor.SaveStep | dbviewer.py:152-166 | no-op without a database or without the flag; the flag falls exactly when a commit of a modified database succeeds; a failed commit changes nothing |
| Editor.AfterPrompt | dbviewer.py:124-134 | without the question, or on Discard, nothing changes; on Save, the state is that of a save |
| Editor.OpenStep | dbviewer.py:122-150 | Cancel on the question changes nothing; when the `DBConnector` constructor returns for a named file, a fresh connection is installed and the flag lowered, even if the tree refresh after it raises; an empty file name or a constructor that raises leaves what the question left; the selected table is kept |
| Editor.SelectTableStep | dbviewer.py:190-194 | a table item selects that table; any other item changes nothing; the connection and the flag are untouched |
| Editor.EditStatement | dbviewer.py:236-252 | the UPDATE sets the edited column's header to the cell's new text, keyed on the first header and the first cell of that row read after the edit, so editing column 0 keys on the new text |
| Editor.CellChangedStep | dbviewer.py:233-258 | without a database or a selected table, or when the UPDATE raises, nothing changes; otherwise only that UPDATE is added and the flag goes up |
| Editor.Values | dbviewer.py:276-280 | the typed values, one per prompt, in prompt order |
| Editor.AddRowStep | dbviewer.py:260-290 | without a table or database, when the columns cannot be read, on any Cancel, or when the INSERT raises, nothing runs and the flag is kept; otherwise only the INSERT of the typed values runs and the flag goes up |
| Editor.DeleteOrder | dbviewer.py:297-315 | the rows visited are strictly descending and are exactly the selected rows; a non-empty selection visits at least one row |
| Editor.DeleteStatements | dbviewer.py:315-320 | one DELETE per visited row, in visiting order, keyed on that row's first cell |
| Editor.DeleteOrderInGrid | dbviewer.py:297-317 | the visited rows are rows of the grid, and a selection is only possible when the grid has a first column |
| Editor.DeletedRows | dbviewer.py:315-320 | the rows whose DELETE ran are the visiting order up to the one that raised |
| Editor.DeleteStep | dbviewer.py:292-328 | without a table or database, with an empty selection or on No, nothing changes; otherwise the DELETEs before the first failing one stay executed, and the flag goes up exactly when none failed |
| Editor.QueryStep | dbviewer.py:330-365 | without a database, with blank text, or when the engine raises, nothing changes; otherwise the stripped text runs unbound, and the flag goes up when there are no result headers, a table is selected and the text starts with INSERT, UPDATE or DELETE in any ASCII case |
| Editor.IsDml | dbviewer.py:360 | `query.upper().startswith(("INSERT", "UPDATE", "DELETE"))` with ASCII upper-casing; `DdlIsNotDml` states what it rejects |
| Editor.CloseStep | dbviewer.py:386-402 | the window closes unless the question was asked and answered Cancel; Save closes it even when the commit fails; only Save changes the state, and only as a save does |
| Editor.Step | dbviewer.py:38-108 | the dispatch of each user action that can change the state to its handler, as the signal connections wire them; the refresh action (dbviewer.py:51-54, `refresh_current_table`) has no event because it changes no field of the state; its invariant is `StepKeepsFlagSound` |
| Editor.Replay | dbviewer.py:13-108 | a session: the handlers run one after another from a state; its invariant is `ReplayKeepsFlagSound` |
| Editor.StepKeepsFlagSound | dbviewer.py:122-402 | every handler keeps the invariant "the flag is up only when an INSERT, UPDATE or DELETE has run on the open connection since the last save or connect" |
| Editor.ReplayKeepsFlagSound | dbviewer.py:13-402 | from the initial state and after any sequence of user actions, that invariant holds |
| Editor.FlagFallsOnlyOnCommitOrConnect | dbviewer.py:146-163 | the flag goes down only through a successful commit or by connecting to a new file |
| Editor.FlagRisesOnlyOnExecute | dbviewer.py:253-361 | the flag goes up only from a cell edit, an add, a delete or a typed query that ran at least one statement and committed nothing |
| Editor.CommittedOnlyGrows | dbviewer.py:152-402 | apart from opening a file, no action changes the connection or takes back anything committed |
| Editor.DeleteStatementsExtend | dbviewer.py:315-320 | running the DELETE for one more row extends the executed statements by exactly that DELETE |
| Editor.DdlIsNotDml | dbviewer.py:360 | text starting with CREATE, DROP or ALTER never raises the flag |
| Editor.DmlWithoutTableIsNotFlagged | dbviewer.py:358-362 | DML typed before any table is selected runs but leaves the flag down, so a save commits nothing and the window closes without asking |
| Viewer.DBViewer.constructor | dbviewer.py:13-17 | the window starts with no database, no table and the flag down |
| Viewer.DBViewer.SaveChanges | dbviewer.py:152-166 | the fields change exactly as `Editor.SaveStep` says |
| Viewer.DBViewer.OpenDatabase | dbviewer.py:122-150 | the fields change exactly as `Editor.OpenStep` says |
| Viewer.DBViewer.OnTreeItemClicked | dbviewer.py:190-194 | the fields change exactly as `Editor.SelectTableStep` says |
| Viewer.DBViewer.OnCellChanged | dbviewer.py:233-258 | the fields change exactly as `Editor.CellChangedStep` says |
| Viewer.DBViewer.AddRowDialog | dbviewer.py:260-290 | the prompt loop stops at the first Cancel; the fields change exactly as `Editor.AddRowStep` says |
| Viewer.DBViewer.DeleteSelectedRows | dbviewer.py:292-328 | the delete loop runs the DELETEs in visiting order up to the first that raises; the fields change exactly as `Editor.DeleteStep` says |
| Viewer.DBViewer.RunDeletes | dbviewer.py:314-320 | the loop runs the DELETE of each visited row in turn, keyed on its first cell, until the one at `failAt` raises; it changes nothing but the connection |
| Viewer.DBViewer.ExecuteQuery | dbviewer.py:330-365 | the fields change exactly as `Editor.QueryStep` says, and the column widths set are `Widths` of the result when it has headers |
| Viewer.DBViewer.CloseEvent | dbviewer.py:386-402 | whether the window closes and the new fields are exactly as `Editor.CloseStep` says |
| TestData.ConsecutiveContains | generate_test_data.py:96-98 | in a table numbered 1, 2, 3, ..., exactly the ids 1..n exist |
| TestData.Username | generate_test_data.py:86 | `"user" + str(k)` |
| TestData.Email | generate_test_data.py:87 | `f"user{k}@example.com"` |
| TestData.Usernames | generate_test_data.py:86 | the fifty usernames, user i+1 at index i |
| TestData.Emails | generate_test_data.py:87 | the fifty e-mail addresses, user i+1 at index i |
| TestData.PasswordHashes | generate_test_data.py:88 | `"hash_" + str(draw)` for each draw, in order |
| TestData.UserRows | generate_test_data.py:95-105 | row i has id i+1 and the i-th entry of every list; its ids and names are stated by `UserIdentity` |
| TestData.BuildUsers | generate_test_data.py:95-105 | the append loop builds exactly the row-by-row user table |
| TestData.UsernameInjective | generate_test_data.py:86 | `"user" + str(a)` and `"user" + str(b)` are equal only when a and b are |
| TestData.UserIdentity | generate_test_data.py:86-105 | user ids run 1..50, and user k is `"user" + str(k)` with address `"user" + str(k) + "@example.com"` |
| TestData.UsernamesUnique | generate_test_data.py:24-86 | no two users share a username, as the UNIQUE constraint demands |
| TestData.Categories | generate_test_data.py:115-142 | `main_categories + sub_categories`, the 19 literal rows; their shape is stated by `CategoryTree` |
| TestData.CategoryTree | generate_test_data.py:115-143 | category ids run 1..19; categories 1..5 have no parent; categories 6..19 have a parent in 1..5 |
| TestData.ParentsExist | generate_test_data.py:115-143 | every parent_id names an existing category |
| TestData.MainCategoryKeys | generate_test_data.py:115-121 | the five main category names have the first five keys of the key table |
| TestData.SubCategoryKeys | generate_test_data.py:123-138 | the fourteen sub-category names have the remaining keys, in order |
| TestData.CategoryKeys | generate_test_data.py:115-142 | category row i has key i of the key table |
| TestData.CategoryKeysDistinct | generate_test_data.py:37 | no key occurs twice in the key table |
| TestData.CategoryNamesUnique | generate_test_data.py:37 | the 19 category names are distinct, as the UNIQUE constraint on `categories.name` demands |
| TestData.ProductDescriptions | generate_test_data.py:166 | one description per product name |
| TestData.CategoryFor | generate_test_data.py:171-200 | every product's category is one of the sub-categories 6..19 |
| TestData.AssignCategoryIds | generate_test_data.py:171-200 | the `if`/`elif` chain gives product i the category `6 + i/5` (19 from index 65 on) |
| TestData.CategoryBlock | generate_test_data.py:171-200 | product i is in sub-category c exactly when i lies in c's block of five |
| TestData.CategoryCountPrefix | generate_test_data.py:171-200 | among the first m products, sub-category c has as many as its block has below m |
| TestData.FivePerSubCategory | generate_test_data.py:171-200 | each sub-category 6..19 receives exactly five of the 70 products, and no main category receives any |
| TestData.CountAbsent | generate_test_data.py:171-200 | a category that is never assigned has no products |
| TestData.ProductRows | generate_test_data.py:205-214 | row i has id i+1, the i-th name, description, price, category and draws; its keys are stated by `ProductKeys` |
| TestData.BuildProducts | generate_test_data.py:205-214 | the append loop builds exactly the row-by-row product table |
| TestData.ProductKeys | generate_test_data.py:205-214 | product ids run 1..70 in list order, and every product's category exists and is a sub-category |
| TestData.OrderRows | generate_test_data.py:227-233 | order i+1 has the i-th user draw, date and status, and total 0; its keys are stated by `OrderKeys` |
| TestData.BuildOrders | generate_test_data.py:227-233 | the append loop builds exactly the row-by-row order table |
| TestData.OrderKeys | generate_test_data.py:227-233 | order ids run 1..100, every user_id names an existing user, and every status is one of the five |
| TestData.ItemsBeforeMonotone | generate_test_data.py:247-258 | the items of earlier orders come before those of later ones |
| TestData.ItemRow | generate_test_data.py:252-257 | the item row of draw j of order o: id after the earlier orders' items, order id o+1, the drawn product and quantity, and that product's price |
| TestData.OrderItemRows | generate_test_data.py:250-258 | one item row per draw of the order, in draw order |
| TestData.ItemRows | generate_test_data.py:243-258 | the rows of the first o orders number as many as those orders have draws |
| TestData.ItemRowsBlocks | generate_test_data.py:247-258 | the items of order o+1 are its draws, in draw order, placed right after the items of the orders before it |
| TestData.ItemRowKeyed | generate_test_data.py:244-258 | item k has id k+1, belongs to one of the orders so far, names a product of the list and copies that product's price |
| TestData.ItemRowsKeyed | generate_test_data.py:244-258 | every item of the first p orders is keyed as above |
| TestData.BuildOrderItems | generate_test_data.py:243-258 | the nested loops with the item_id counter build exactly the order-by-order item rows, and the counter ends one past the last id |
| TestData.ItemTotalBounds | generate_test_data.py:247-249 | with 1 to 5 items per order, n orders have between n and 5n items |
| TestData.ItemsReferToRows | generate_test_data.py:253-257 | every item's order_id and product_id name existing rows |
| TestData.CreateTestDatabase | generate_test_data.py:6-270 | the primary keys, the UNIQUE constraints on `users.username` and `categories.name`, and the foreign keys of the five tables hold; there are 50 users, 19 categories, 70 products, 100 orders and between 100 and 500 order items |

## Left out

- The Qt widgets. This covers the layout, the tree (`refresh_tree`), loading a table
  into the grid (`display_table_data`, `refresh_current_table`), the status bar and the
  message boxes. The grid's headers and cell texts are inputs, given as the text
  `str(value)` shows.
- Editor.QueryStep and Viewer.DBViewer.ExecuteQuery: the cell edits that `execute_query`
  may trigger while it fills the grid. `display_table_data` disconnects `itemChanged`
  before filling the grid, but `execute_query` does not, so under Qt's `setItem`
  behaviour a result shown while a table is selected can call `on_cell_changed` once per
  cell, each running an UPDATE of the selected table with the shown text (`None` for a
  NULL) and raising the flag when it succeeds. The model assumes that filling the grid
  never triggers a cell edit; in it, a query with result headers runs only itself and
  leaves the flag alone.
- `db_connector.py` and the engine. A connection is the log of the statements the editor
  executes through its cursor. What the statements do to the data is not modelled.
  Whether a call raises is an input.
- The catalogue and data reads (`get_tables`, `get_columns`, `get_table_data`). They are
  not recorded in the connection's log. The column list `get_columns` returns, or its
  failure, is an input of the add-row handler.
- Closing the replaced connection in `DBConnector.__del__`. That close drops its
  uncommitted statements; in the model, the old connection value is simply replaced.
- `main.py`, the application entry point.
- The engine's own transaction. The pending statements of a connection are those sent
  since the last `save_changes` or connect; a COMMIT or ROLLBACK typed into the query box
  is logged as an ordinary pending statement. After a typed COMMIT the flag stays up
  although the engine has nothing left to commit, as in the source.
- Safety of identifiers. Table and column names are pasted into the SQL text as they
  are. The marker counts are proved only for names without `?`.
- Unicode case mapping. `str.upper` is modelled for ASCII letters only, which is enough
  for the INSERT/UPDATE/DELETE prefix test on ASCII keywords.
- In the generator:
  - the file handling (`os.remove`, `sqlite3.connect`, commit, close);
  - the CREATE TABLE text and the `executemany` INSERT text;
  - the `print` calls;
  - the dates, which are given as strings;
  - the random draws, which are parameters.
- Floating point in the generator. `random.uniform` prices and `round` are not modelled:
  prices are values of an opaque type, so only their copying is modelled. The
  accumulation of `order_total` and its `UPDATE orders SET total_amount` are left out,
  and order rows carry the placeholder total 0 they are inserted with.
- TestData.UserRows: the password-hash draws are not required to lie in 10000..99999,
  and `is_active` is not required to be 0 or 1, because no proved property depends on
  either.
