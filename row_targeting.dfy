/**
  Which rows a delete touches and in what order (dbviewer.py, `delete_selected_rows`):
  the selected cells are reduced to the set of their row indices, and the rows are
  visited from the last to the first, `sorted(set(...), reverse=True)`.
 */
module RowTargeting {

  /** A selected grid cell: its row and its column. */
  datatype Cell = Cell(row: nat, column: nat)

  /** Every element is larger than the next one: descending and without repeats. */
  predicate StrictlyDescending(s: seq<nat>) {
    forall i, j | 0 <= i < j < |s| :: s[i] > s[j]
  }

  /** `item.row() for item in selected`. */
  function RowsOf(cells: seq<Cell>): (rows: seq<nat>)
    ensures |rows| == |cells| && forall k | 0 <= k < |cells| :: rows[k] == cells[k].row
  {
    if |cells| == 0 then [] else [cells[0].row] + RowsOf(cells[1..])
  }

  /** Puts `x` into a strictly descending sequence, unless it is already there. */
  function InsertDescending(x: nat, s: seq<nat>): (r: seq<nat>)
    requires StrictlyDescending(s)
    ensures StrictlyDescending(r)
    ensures forall y :: y in r <==> y == x || y in s
    ensures |r| == if x in s then |s| else |s| + 1
  {
    if |s| == 0 then [x]
    else if x > s[0] then
      assert forall j | 0 <= j < |s| :: x > s[j];
      [x] + s
    else if x == s[0] then s
    else
      var rest := InsertDescending(x, s[1..]);
      BelowHead(x, s, rest);
      assert x in s <==> x in s[1..];
      [s[0]] + rest
  }

  /** A sequence made of `x` and elements of the tail of `s`, with `x` below the head of `s`, lies below that head. */
  lemma {:induction false} BelowHead(x: nat, s: seq<nat>, rest: seq<nat>)
    requires StrictlyDescending(s) && |s| > 0 && x < s[0]
    requires forall y :: y in rest <==> y == x || y in s[1..]
    ensures forall j | 0 <= j < |rest| :: rest[j] < s[0]
  {
    forall j | 0 <= j < |rest|
      ensures rest[j] < s[0]
    {
      assert rest[j] in rest;
      if rest[j] != x {
        var k :| 0 <= k < |s[1..]| && s[1..][k] == rest[j];
        assert s[k + 1] == rest[j];
      }
    }
  }

  /** `sorted(set(rows), reverse=True)`: each selected row once, from the last to the first. */
  function DistinctDescending(rows: seq<nat>): (r: seq<nat>)
    ensures StrictlyDescending(r)
    ensures forall y :: y in r <==> y in rows
  {
    if |rows| == 0 then [] else InsertDescending(rows[0], DistinctDescending(rows[1..]))
  }

  /** The set of the elements of `s`, Python's `set(s)`. */
  function Elements(s: seq<nat>): set<nat> {
    set y | y in s
  }

  /** A sequence without repeats has as many elements as the set of its elements. */
  lemma {:induction false} DescendingCardinality(s: seq<nat>)
    requires StrictlyDescending(s)
    ensures |Elements(s)| == |s|
  {
    if |s| > 0 {
      DescendingCardinality(s[1..]);
      var tail := Elements(s[1..]);
      assert s[0] !in tail;
      assert Elements(s) == tail + {s[0]};
    }
  }

  /** The number of rows deleted is the number of distinct rows among the selected cells. */
  lemma {:induction false} DistinctRowCount(cells: seq<Cell>)
    ensures |DistinctDescending(RowsOf(cells))| == |set c | c in cells :: c.row|
  {
    var order := DistinctDescending(RowsOf(cells));
    DescendingCardinality(order);
    assert Elements(order) == (set c | c in cells :: c.row) by {
      forall y
        ensures y in order <==> y in (set c | c in cells :: c.row)
      {
        if y in order {
          var k :| 0 <= k < |cells| && RowsOf(cells)[k] == y;
          assert cells[k] in cells;
        }
      }
    }
  }
}
