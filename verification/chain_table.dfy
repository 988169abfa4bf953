/** The chain menu (`displayAvailableChains`): the chain names of a network
    are laid out column by column in a grid of four columns and as many rows
    as needed, each name padded with spaces to the longest name's length. */
module ChainTable {
  import Arith

  const Columns: nat := 4

  /** `Math.ceil(n / columns)`. */
  function Rows(n: nat): (rows: nat)
    ensures rows * Columns >= n
    ensures rows >= 1 ==> (rows - 1) * Columns < n
  {
    (n + Columns - 1) / Columns
  }

  /** The length of the longest name (0 for no names). */
  function MaxLength(names: seq<string>): (width: nat)
    ensures forall k :: 0 <= k < |names| ==> |names[k]| <= width
    ensures |names| >= 1 ==> exists k :: 0 <= k < |names| && |names[k]| == width
  {
    if |names| == 0 then 0
    else
      var rest := MaxLength(names[1..]);
      if |names[0]| >= rest then |names[0]| else rest
  }

  function Spaces(count: nat): (s: string)
    ensures |s| == count && forall k :: 0 <= k < count ==> s[k] == ' '
  {
    seq(count, _ => ' ')
  }

  /** `s.padEnd(width, ' ')`: spaces appended until the string is `width`
      long; a string already that long is left as it is. */
  function PadEnd(s: string, width: nat): (r: string)
    ensures |r| == if |s| >= width then |s| else width
    ensures r[..|s|] == s
    ensures forall k :: |s| <= k < |r| ==> r[k] == ' '
  {
    if |s| >= width then s else s + Spaces(width - |s|)
  }

  /** What the grid holds at `(row, col)`: the padded name whose index the
      column-major order assigns to that cell, or the empty string. */
  function CellAt(names: seq<string>, row: nat, col: nat): string
  {
    var k := col * Rows(|names|) + row;
    if k < |names| then PadEnd(names[k], MaxLength(names)) else ""
  }

  /** The grid has its final shape, and the cells the column-major fill has
      reached before `(row, col)` hold their final contents; the rest are empty. */
  ghost predicate FilledBefore(names: seq<string>, table: seq<seq<string>>, col: nat, row: nat)
  {
    && |table| == Rows(|names|)
    && (forall r :: 0 <= r < |table| ==> |table[r]| == Columns)
    && forall r, c :: 0 <= r < |table| && 0 <= c < Columns ==>
         table[r][c] == if c < col || (c == col && r < row) then CellAt(names, r, c) else ""
  }

  /** Builds the grid exactly as the source's two nested loops fill it:
      columns outer, rows inner, one name per cell while names remain. */
  method Layout(names: seq<string>) returns (table: seq<seq<string>>)
    ensures |table| == Rows(|names|)
    ensures forall r :: 0 <= r < |table| ==> |table[r]| == Columns
    ensures forall r, c :: 0 <= r < |table| && 0 <= c < Columns ==> table[r][c] == CellAt(names, r, c)
  {
    var rows := Rows(|names|);
    table := seq(rows, _ => seq(Columns, _ => ""));
    var index := 0;
    var col := 0;
    while col < Columns
      invariant 0 <= col <= Columns
      invariant index == if col * rows < |names| then col * rows else |names|
      invariant FilledBefore(names, table, col, 0)
    {
      table, index := FillColumn(names, table, col, index);
      assert (col + 1) * rows == col * rows + rows;
      col := col + 1;
    }
  }

  /** The inner loop of the fill: walks down column `col`, placing the next
      name in each row until the names run out. */
  method FillColumn(names: seq<string>, table: seq<seq<string>>, col: nat, index: nat)
    returns (table': seq<seq<string>>, index': nat)
    requires col < Columns
    requires index == if col * Rows(|names|) < |names| then col * Rows(|names|) else |names|
    requires FilledBefore(names, table, col, 0)
    ensures index' == if col * Rows(|names|) + Rows(|names|) < |names|
                      then col * Rows(|names|) + Rows(|names|) else |names|
    ensures FilledBefore(names, table', col + 1, 0)
  {
    var n, rows, width := |names|, Rows(|names|), MaxLength(names);
    table', index' := table, index;
    var row := 0;
    while row < rows
      invariant 0 <= row <= rows
      invariant index' == if col * rows + row < n then col * rows + row else n
      invariant FilledBefore(names, table', col, row)
    {
      if index' < n {
        table' := table'[row := table'[row][col := PadEnd(names[index'], width)]];
        index' := index' + 1;
      }
      row := row + 1;
    }
  }

  /** Name `k` sits at row `k mod rows`, column `k div rows`, inside the grid,
      padded to the common width. */
  lemma NamePlacement(names: seq<string>, k: nat)
    requires k < |names|
    ensures Rows(|names|) >= 1
    ensures k % Rows(|names|) < Rows(|names|) && k / Rows(|names|) < Columns
    ensures CellAt(names, k % Rows(|names|), k / Rows(|names|)) == PadEnd(names[k], MaxLength(names))
  {
    var rows := Rows(|names|);
    var r, c := k % rows, k / rows;
    assert k == c * rows + r;
    Arith.MulMonotone(c, Columns, rows);
  }

  /** Each cell holds at most one name: a cell showing a name is the cell that
      name's placement chooses, so no name appears twice and no two names share a cell. */
  lemma CellNameIsPlaced(names: seq<string>, row: nat, col: nat)
    requires row < Rows(|names|) && col < Columns
    requires col * Rows(|names|) + row < |names|
    ensures var k := col * Rows(|names|) + row; k % Rows(|names|) == row && k / Rows(|names|) == col
  {
    var rows := Rows(|names|);
    Arith.DivModUnique(col * rows + row, rows, col, row);
  }

  /** All padded names have the common width, so the columns line up. */
  lemma NamesShareWidth(names: seq<string>, row: nat, col: nat)
    requires col * Rows(|names|) + row < |names|
    ensures |CellAt(names, row, col)| == MaxLength(names)
  {
  }
}
