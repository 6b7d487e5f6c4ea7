/** Quarterly financial-statement tables and the two accessors the pipeline reads them
    through: ordered-alias row lookup (`safe_get`) and the trailing-twelve-month sum
    (`get_ttm_value`). */
module Statements {
  import opened Optional

  /** One period's value of a line item; `None` is a pandas NaN. */
  type Cell = Option<real>

  /** What pandas' `Series.sum` adds for a cell: NaN is skipped, i.e. counts as 0. */
  function CellValue(c: Cell): real
  {
    match c
    case None => 0.0
    case Some(v) => v
  }

  /** A quarterly statement as the provider returns it: line-item name -> values per
      period, newest period first. */
  datatype Frame = Frame(rows: map<string, seq<Cell>>, periods: nat)
  {
    /** pandas' `DataFrame.empty`: no rows or no period columns. */
    predicate Empty()
    {
      |rows| == 0 || periods == 0
    }
  }

  /** A DataFrame is rectangular: every row holds one value per period. */
  type Table = f: Frame | forall k :: k in f.rows ==> |f.rows[k]| == f.periods
    witness Frame(map[], 0)

  /** `keys[i]` is the first of the aliases that names a row of the table. */
  ghost predicate IsFirstPresent(rows: map<string, seq<Cell>>, keys: seq<string>, i: int)
  {
    && 0 <= i < |keys|
    && keys[i] in rows
    && forall j :: 0 <= j < i ==> keys[j] !in rows
  }

  /** `safe_get`: the row of the earliest alias present in the table, or the empty
      row when no alias is present. Rows of different aliases are never merged. */
  function SafeGet(t: Table, keys: seq<string>): (row: seq<Cell>)
    ensures (forall i :: 0 <= i < |keys| ==> keys[i] !in t.rows) ==> row == []
    ensures forall i :: IsFirstPresent(t.rows, keys, i) ==> row == t.rows[keys[i]]
  {
    if keys == [] then []
    else if keys[0] in t.rows then t.rows[keys[0]]
    else
      assert forall i :: IsFirstPresent(t.rows, keys, i) ==> i > 0 && IsFirstPresent(t.rows, keys[1..], i - 1);
      SafeGet(t, keys[1..])
  }

  /** When some alias is present, one of them is the first present: the two
      postconditions of SafeGet between them cover every table. */
  lemma {:induction false} FirstPresentExists(rows: map<string, seq<Cell>>, keys: seq<string>, i: int)
    requires 0 <= i < |keys| && keys[i] in rows
    ensures exists j :: 0 <= j <= i && IsFirstPresent(rows, keys, j)
    decreases i
  {
    if IsFirstPresent(rows, keys, i) {
    } else {
      var j :| 0 <= j < i && keys[j] in rows;
      FirstPresentExists(rows, keys, j);
    }
  }

  /** With two aliases A and B: A's row if A is present, else B's row if B is present,
      else nothing. */
  lemma SafeGetTwoAliases(t: Table, a: string, b: string)
    ensures SafeGet(t, [a, b]) ==
      if a in t.rows then t.rows[a] else if b in t.rows then t.rows[b] else []
  {
    if a in t.rows {
      assert IsFirstPresent(t.rows, [a, b], 0);
    } else if b in t.rows {
      assert IsFirstPresent(t.rows, [a, b], 1);
    }
  }

  /** The sum `Series.sum` computes over a run of cells. */
  function SumCells(s: seq<Cell>): real
  {
    if s == [] then 0.0 else CellValue(s[0]) + SumCells(s[1..])
  }

  /** The value quarter `i` contributes: 0 for a NaN cell and for a quarter the row
      does not reach. */
  function Quarter(row: seq<Cell>, i: nat): real
  {
    if i < |row| then CellValue(row[i]) else 0.0
  }

  /** `row.iloc[:4].sum()`: the four newest quarters, each NaN or missing quarter
      counting as zero, and nothing later. */
  function RowTtm(row: seq<Cell>): (r: real)
    ensures r == Quarter(row, 0) + Quarter(row, 1) + Quarter(row, 2) + Quarter(row, 3)
  {
    var w := row[..if |row| < 4 then |row| else 4];
    SumWindow(row, w);
    SumCells(w)
  }

  lemma SumWindow(row: seq<Cell>, w: seq<Cell>)
    requires w == row[..if |row| < 4 then |row| else 4]
    ensures SumCells(w) == Quarter(row, 0) + Quarter(row, 1) + Quarter(row, 2) + Quarter(row, 3)
  {
    var k := |w|;
    if k == 0 { return; }
    assert SumCells(w) == CellValue(row[0]) + SumCells(w[1..]);
    if k == 1 { return; }
    assert SumCells(w[1..]) == CellValue(row[1]) + SumCells(w[2..]) by { assert w[1..][1..] == w[2..]; }
    if k == 2 { return; }
    assert SumCells(w[2..]) == CellValue(row[2]) + SumCells(w[3..]) by { assert w[2..][1..] == w[3..]; }
    if k == 3 { return; }
    assert SumCells(w[3..]) == CellValue(row[3]) + SumCells(w[4..]) by { assert w[3..][1..] == w[4..]; }
    assert w[4..] == [];
  }

  /** `get_ttm_value`: 0 for an empty table or when no alias names a row; otherwise the
      TTM sum of the first present alias's row. */
  function Ttm(t: Table, keys: seq<string>): (r: real)
    ensures t.Empty() ==> r == 0.0
    ensures (forall i :: 0 <= i < |keys| ==> keys[i] !in t.rows) ==> r == 0.0
    ensures forall i :: IsFirstPresent(t.rows, keys, i) ==> r == RowTtm(t.rows[keys[i]])
  {
    if t.Empty() then 0.0
    else
      var row := SafeGet(t, keys);
      if row == [] then 0.0 else RowTtm(row)
  }

  /** Quarters after the fourth never change the TTM value. */
  lemma RowTtmIgnoresOlderQuarters(row: seq<Cell>, older: seq<Cell>)
    requires |row| >= 4
    ensures RowTtm(row + older) == RowTtm(row)
  {
  }

  /** A NaN cell contributes exactly what a zero does. */
  lemma RowTtmNaNIsZero(row: seq<Cell>, i: nat)
    requires i < |row|
    ensures RowTtm(row[i := None]) == RowTtm(row[i := Some(0.0)])
  {
  }

  /** The values `ttm([]) = 0`, `ttm([10]) = 10` and `ttm([10, 20, 30, 40, 999]) = 100`. */
  lemma RowTtmExamples()
    ensures RowTtm([]) == 0.0
    ensures RowTtm([Some(10.0)]) == 10.0
    ensures RowTtm([Some(10.0), Some(20.0), Some(30.0), Some(40.0), Some(999.0)]) == 100.0
    ensures RowTtm([Some(10.0), None, Some(30.0)]) == 40.0
  {
  }
}
