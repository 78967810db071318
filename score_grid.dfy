/**
 * The score grid of the main screen: 72 cells edited in place, whose total
 * cells are recomputed from the scores of their column after every score edit.
 */
module ScoreGrid {
  import opened Wrappers
  import opened Decimal
  import opened Cells
  import opened UserStore

  /** What a cell adds to its column's total: a missing score counts as 0. */
  function ScoreOf(m: CellModel): int {
    m.score.GetOr(0)
  }

  /** The sum of the scores of all cells of column `c`; it cannot be negative when no score in the column is. */
  function ColumnSum(cells: seq<CellModel>, c: int): (r: int)
    ensures (forall i :: 0 <= i < |cells| && cells[i].column == c ==> ScoreOf(cells[i]) >= 0) ==> r >= 0
  {
    if cells == [] then 0
    else
      var last := cells[|cells| - 1];
      ColumnSum(cells[..|cells| - 1], c) + (if last.column == c then ScoreOf(last) else 0)
  }

  /** A column's sum depends only on which cells sit in that column and on their scores. */
  lemma {:induction false} ColumnSumDependsOnColumnScores(s: seq<CellModel>, t: seq<CellModel>, c: int)
    requires |s| == |t|
    requires forall i :: 0 <= i < |s| ==> (s[i].column == c <==> t[i].column == c)
    requires forall i :: 0 <= i < |s| && s[i].column == c ==> s[i].score == t[i].score
    ensures ColumnSum(s, c) == ColumnSum(t, c)
  {
    if s != [] {
      ColumnSumDependsOnColumnScores(s[..|s| - 1], t[..|t| - 1], c);
    }
  }

  /** Replacing one cell moves its column's sum by exactly the change in that cell's score. */
  lemma {:induction false} ColumnSumAfterUpdate(s: seq<CellModel>, k: int, m: CellModel)
    requires 0 <= k < |s| && m.column == s[k].column
    ensures ColumnSum(s[k := m], m.column) == ColumnSum(s, m.column) - ScoreOf(s[k]) + ScoreOf(m)
    ensures forall d :: d != m.column ==> ColumnSum(s[k := m], d) == ColumnSum(s, d)
  {
    var n := |s| - 1;
    if k == n {
      assert s[k := m][..n] == s[..n];
    } else {
      ColumnSumAfterUpdate(s[..n], k, m);
      assert s[k := m][..n] == s[..n][k := m];
    }
  }

  /** With no score entered anywhere, every column sums to 0. */
  lemma {:induction false} ColumnSumOfBlank(s: seq<CellModel>, c: int)
    requires forall i :: 0 <= i < |s| ==> s[i].score == None
    ensures ColumnSum(s, c) == 0
  {
    if s != [] {
      ColumnSumOfBlank(s[..|s| - 1], c);
    }
  }

  /** The text a total cell may show for column sum `sum`: that sum, or blank before the first edit. */
  predicate TotalShows(text: string, sum: int) {
    text == IntToDecimal(sum) || (text == "" && sum == 0)
  }

  predicate CellShaped(m: CellModel, i: int)
    requires 0 <= i < CELL_COUNT
  {
    && m.column == i % COLUMNS
    && m.row == ScoreTypeOf(i)
    && RoleOf(m.cellType) == RoleAt(i)
    && (m.cellType.Image? ==> m.cellType.image == ScoreTypeOf(i))
    && (RoleAt(i) != ScoreRole ==> m.score == None)
  }

  /** The layout fixed at construction: 72 cells, each in its band, column and role. */
  ghost predicate WellFormed(cells: seq<CellModel>) {
    |cells| == CELL_COUNT && forall i {:trigger CellShaped(cells[i], i)} :: 0 <= i < CELL_COUNT ==> CellShaped(cells[i], i)
  }

  /** Every total cell shows the sum of its column. */
  ghost predicate TotalsShown(cells: seq<CellModel>) {
    forall i :: 0 <= i < |cells| && cells[i].cellType.Total? ==>
      TotalShows(cells[i].cellType.text, ColumnSum(cells, cells[i].column))
  }

  ghost predicate ValidGrid(cells: seq<CellModel>) {
    WellFormed(cells) && TotalsShown(cells)
  }

  /** The grid after `calculateTotal(c)`: every total cell of column `c` rewritten with the column's sum. */
  function Recomputed(cells: seq<CellModel>, c: int): (r: seq<CellModel>)
    ensures |r| == |cells|
    ensures forall i :: 0 <= i < |cells| ==>
      r[i].column == cells[i].column && r[i].row == cells[i].row && r[i].score == cells[i].score &&
      RoleOf(r[i].cellType) == RoleOf(cells[i].cellType)
    ensures forall i :: 0 <= i < |cells| && r[i] != cells[i] ==> cells[i].column == c
  {
    seq(|cells|, i requires 0 <= i < |cells| =>
      if cells[i].column == c && cells[i].cellType.Total?
      then cells[i].(cellType := Total(IntToDecimal(ColumnSum(cells, c))))
      else cells[i])
  }

  /**
   * Recomputing column `c` changes only the total cells of column `c`, leaves
   * every score (hence every sum) as it was, and makes those cells show the sum.
   */
  lemma RecomputedShowsSum(s: seq<CellModel>, c: int)
    ensures |Recomputed(s, c)| == |s|
    ensures forall i :: 0 <= i < |s| && !(s[i].column == c && s[i].cellType.Total?) ==>
      Recomputed(s, c)[i] == s[i]
    ensures forall i :: 0 <= i < |s| && s[i].column == c && s[i].cellType.Total? ==>
      Recomputed(s, c)[i].column == c && Recomputed(s, c)[i].score == s[i].score &&
      Recomputed(s, c)[i].row == s[i].row &&
      Recomputed(s, c)[i].cellType == Total(IntToDecimal(ColumnSum(Recomputed(s, c), c)))
    ensures forall d :: ColumnSum(Recomputed(s, c), d) == ColumnSum(s, d)
  {
    var r := Recomputed(s, c);
    forall d ensures ColumnSum(r, d) == ColumnSum(s, d) {
      ColumnSumDependsOnColumnScores(r, s, d);
    }
  }

  /** `calculateTotal` is idempotent. */
  lemma RecomputedIdempotent(s: seq<CellModel>, c: int)
    ensures Recomputed(Recomputed(s, c), c) == Recomputed(s, c)
  {
    RecomputedShowsSum(s, c);
  }

  /** Column 0 is the icon column and has no total cell, so `calculateTotal(0)` changes nothing. */
  lemma RecomputedColumnZero(s: seq<CellModel>)
    requires WellFormed(s)
    ensures Recomputed(s, 0) == s
  {
    forall i | 0 <= i < |s| ensures Recomputed(s, 0)[i] == s[i] {
      assert CellShaped(s[i], i);
    }
  }

  /**
   * Writing a score cell and then recomputing its column keeps the layout and
   * leaves every total cell showing its column's sum.
   */
  lemma ScoreEditKeepsValid(s: seq<CellModel>, k: int, m: CellModel)
    requires ValidGrid(s) && 0 <= k < CELL_COUNT && RoleAt(k) == ScoreRole
    requires m.cellType.Score? && m.column == s[k].column && m.row == s[k].row
    ensures ValidGrid(Recomputed(s[k := m], m.column))
  {
    var c := m.column;
    var t := s[k := m];
    var r := Recomputed(t, c);
    assert CellShaped(s[k], k);
    RecomputedShowsSum(t, c);
    ColumnSumAfterUpdate(s, k, m);
    forall i | 0 <= i < CELL_COUNT ensures CellShaped(r[i], i) {
      assert CellShaped(s[i], i);
    }
    forall i | 0 <= i < |r| && r[i].cellType.Total?
      ensures TotalShows(r[i].cellType.text, ColumnSum(r, r[i].column))
    {
      assert CellShaped(s[i], i);
      if s[i].column != c {
        assert r[i] == t[i] == s[i];
      }
    }
  }

  /** Retyping a name cell keeps the layout and every total. */
  lemma NameEditKeepsValid(s: seq<CellModel>, k: int, name: string)
    requires ValidGrid(s) && 0 <= k < CELL_COUNT && RoleAt(k) == NameRole
    ensures ValidGrid(s[k := s[k].(cellType := Name(name))])
  {
    var m := s[k].(cellType := Name(name));
    var t := s[k := m];
    assert CellShaped(s[k], k);
    ColumnSumAfterUpdate(s, k, m);
    forall i | 0 <= i < CELL_COUNT ensures CellShaped(t[i], i) {
      assert CellShaped(s[i], i);
    }
  }

  /** The number of name cells in `cells`. */
  function NameCount(cells: seq<CellModel>): nat {
    if cells == [] then 0
    else NameCount(cells[..|cells| - 1]) + (if cells[|cells| - 1].cellType.Name? then 1 else 0)
  }

  /**
   * The grid after `didSelectUsers(users)`: the k-th name cell, counted in
   * index order, takes the k-th user's name while there are users left.
   */
  function AssignedNames(cells: seq<CellModel>, users: seq<User>): (r: seq<CellModel>)
    ensures |r| == |cells|
    ensures forall i :: 0 <= i < |cells| ==>
      r[i].column == cells[i].column && r[i].row == cells[i].row && r[i].score == cells[i].score &&
      RoleOf(r[i].cellType) == RoleOf(cells[i].cellType)
    ensures forall i :: 0 <= i < |cells| && r[i] != cells[i] ==> r[i].cellType.Name?
  {
    seq(|cells|, i requires 0 <= i < |cells| =>
      var k := NameCount(cells[..i]);
      if cells[i].cellType.Name? && k < |users|
      then cells[i].(cellType := Name(users[k].name))
      else cells[i])
  }

  /** In the grid the name cells are indices 1 to 7, so index `i` has `i - 1` name cells before it. */
  lemma {:induction false} NameCountOfGrid(s: seq<CellModel>, i: int)
    requires WellFormed(s) && 0 <= i <= CELL_COUNT
    ensures NameCount(s[..i]) == if i <= 1 then 0 else if i <= 8 then i - 1 else 7
  {
    if i > 0 {
      NameCountOfGrid(s, i - 1);
      assert s[..i][..i - 1] == s[..i - 1];
      assert CellShaped(s[i - 1], i - 1);
    }
  }

  /**
   * On the grid, `didSelectUsers` gives cell `i` (1 to 7) the name of user
   * `i - 1` when there is one, and leaves every other cell as it was.
   */
  lemma AssignedNamesOnGrid(s: seq<CellModel>, users: seq<User>)
    requires WellFormed(s)
    ensures |AssignedNames(s, users)| == CELL_COUNT
    ensures forall i :: 0 <= i < CELL_COUNT ==>
      AssignedNames(s, users)[i] ==
        if 1 <= i <= 7 && i - 1 < |users| then s[i].(cellType := Name(users[i - 1].name)) else s[i]
  {
    forall i | 0 <= i < CELL_COUNT
      ensures AssignedNames(s, users)[i] ==
        if 1 <= i <= 7 && i - 1 < |users| then s[i].(cellType := Name(users[i - 1].name)) else s[i]
    {
      NameCountOfGrid(s, i);
      assert CellShaped(s[i], i);
    }
  }

  /** An empty selection changes nothing. */
  lemma AssignedNamesOfNoUsers(s: seq<CellModel>)
    ensures AssignedNames(s, []) == s
  {
  }

  /** Users beyond the seventh are ignored: there are only seven name cells. */
  lemma AssignedNamesIgnoresExtraUsers(s: seq<CellModel>, users: seq<User>)
    requires WellFormed(s) && |users| > 7
    ensures AssignedNames(s, users) == AssignedNames(s, users[..7])
  {
    AssignedNamesOnGrid(s, users);
    AssignedNamesOnGrid(s, users[..7]);
  }

  /** Filling the name cells keeps the layout and every total. */
  lemma AssignedNamesKeepsValid(s: seq<CellModel>, users: seq<User>)
    requires ValidGrid(s)
    ensures ValidGrid(AssignedNames(s, users))
  {
    var r := AssignedNames(s, users);
    AssignedNamesOnGrid(s, users);
    forall i | 0 <= i < CELL_COUNT ensures CellShaped(r[i], i) {
      assert CellShaped(s[i], i);
    }
    forall d ensures ColumnSum(r, d) == ColumnSum(s, d) {
      ColumnSumDependsOnColumnScores(r, s, d);
    }
  }

  /** `ViewController`, reduced to its grid of cells. */
  class Grid {
    const fields: array<CellModel>

    ghost predicate Valid()
      reads this, fields
    {
      ValidGrid(fields[..])
    }

    /** The `fields` initializer: blank names, scores and totals, an icon at the head of every band. */
    constructor ()
      ensures Valid() && fresh(fields)
      ensures forall i :: 0 <= i < CELL_COUNT ==> fields[i].score == None
      ensures forall i :: 0 <= i < CELL_COUNT && !fields[i].cellType.Image? ==> fields[i].cellType.text == ""
    {
      var f: seq<CellModel> := [];
      for i := 0 to CELL_COUNT
        invariant |f| == i
        invariant forall j :: 0 <= j < i ==> CellShaped(f[j], j) && f[j].score == None
        invariant forall j :: 0 <= j < i && !f[j].cellType.Image? ==> f[j].cellType.text == ""
      {
        var model := CellModel(Score(""), ScoreTypeOf(i), i % COLUMNS, None);
        if i % COLUMNS == 0 {
          model := model.(cellType := Image(FromRawValue(i).GetOr(Army)));
        } else if i < 8 {
          model := model.(cellType := Name(""));
        } else if i > 64 {
          model := model.(cellType := Total(""));
        } else {
          model := model.(cellType := Score(""));
        }
        f := f + [model];
      }
      fields := new CellModel[CELL_COUNT](j requires 0 <= j < CELL_COUNT => f[j]);
      new;
      assert fields[..] == f;
      forall c ensures ColumnSum(f, c) == 0 {
        ColumnSumOfBlank(f, c);
      }
    }

    /** The first half of `calculateTotal`: add up the scores entered in `column`. */
    method SumColumn(column: int) returns (total: int)
      ensures total == ColumnSum(fields[..], column)
    {
      total := 0;
      for i := 0 to fields.Length
        invariant total == ColumnSum(fields[..i], column)
      {
        assert fields[..i + 1][..i] == fields[..i];
        if fields[i].column == column {
          match fields[i].score
          case Some(score) => total := total + score;
          case None =>
        }
      }
      assert fields[..fields.Length] == fields[..];
    }

    /** `calculateTotal(column)`: sum the column's scores, then write the sum into its total cells. */
    method CalculateTotal(column: int)
      modifies fields
      ensures fields[..] == Recomputed(old(fields[..]), column)
    {
      var total := SumColumn(column);
      ghost var before := fields[..];
      for index := 0 to fields.Length
        invariant forall j :: 0 <= j < index ==>
          fields[j] == if before[j].column == column && before[j].cellType.Total?
                       then before[j].(cellType := Total(IntToDecimal(total)))
                       else before[j]
        invariant forall j :: index <= j < fields.Length ==> fields[j] == before[j]
      {
        var field := fields[index];
        if field.column == column {
          match field.cellType
          case Total(_) =>
            fields[index] := field.(cellType := Total(IntToDecimal(total)));
          case _ =>
        }
      }
    }

    /**
     * `didAdd(score:indexPath:)`: store a validated score and its text in a
     * score cell, then recompute that cell's column.
     */
    method DidAdd(score: int, item: int)
      requires Valid() && 0 <= item < CELL_COUNT && RoleAt(item) == ScoreRole && InIntRange(score)
      modifies fields
      ensures Valid()
      ensures fields[..] == Recomputed(old(fields[..])[item :=
        old(fields[item]).(cellType := Score(IntToDecimal(score)), score := Some(score))], old(fields[item].column))
      ensures fields[item].cellType == Score(IntToDecimal(score)) && fields[item].score == Some(score)
      ensures ColumnSum(fields[..], fields[item].column)
        == ColumnSum(old(fields[..]), fields[item].column) - ScoreOf(old(fields[item])) + score
      ensures forall i :: 0 <= i < CELL_COUNT && fields[i].column == fields[item].column && fields[i].cellType.Total? ==>
        fields[i].cellType.text == IntToDecimal(ColumnSum(fields[..], fields[item].column))
      ensures forall d :: d != fields[item].column ==> ColumnSum(fields[..], d) == ColumnSum(old(fields[..]), d)
    {
      ghost var s := fields[..];
      fields[item] := fields[item].(cellType := Score(IntToDecimal(score)));
      fields[item] := fields[item].(score := Some(score));
      assert fields[..] == s[item := fields[item]];
      ScoreEditKeepsValid(s, item, fields[item]);
      ColumnSumAfterUpdate(s, item, fields[item]);
      RecomputedShowsSum(fields[..], fields[item].column);
      CalculateTotal(fields[item].column);
    }

    /**
     * `textFieldDidEndEditing` for the cell at `tag`: a name cell takes the
     * text; a score cell takes the text and `Int(text)` as its score (a
     * missing text reads as "0") and its column is recomputed; icon and total
     * cells ignore the edit. The user-cache side of a name edit is
     * `Store.CommitName`.
     */
    method EndEditing(tag: int, text: Option<string>)
      requires Valid() && 0 <= tag < CELL_COUNT
      modifies fields
      ensures Valid()
      ensures old(fields[tag].cellType).Image? || old(fields[tag].cellType).Total? ==>
        fields[..] == old(fields[..])
      ensures old(fields[tag].cellType).Name? ==>
        fields[..] == old(fields[..])[tag := old(fields[tag]).(cellType := Name(text.GetOr("")))]
      ensures old(fields[tag].cellType).Score? ==>
        fields[..] == Recomputed(old(fields[..])[tag :=
          old(fields[tag]).(cellType := Score(text.GetOr("")), score := ParseInt(text.GetOr("0")))],
          old(fields[tag].column))
      ensures old(fields[tag].cellType).Score? ==>
        ColumnSum(fields[..], fields[tag].column)
          == ColumnSum(old(fields[..]), fields[tag].column) - ScoreOf(old(fields[tag]))
             + ParseInt(text.GetOr("0")).GetOr(0)
      ensures old(fields[tag].cellType).Score? ==>
        forall i :: 0 <= i < CELL_COUNT && fields[i].column == fields[tag].column && fields[i].cellType.Total? ==>
          fields[i].cellType.text == IntToDecimal(ColumnSum(fields[..], fields[tag].column))
      ensures forall d :: d != fields[tag].column ==> ColumnSum(fields[..], d) == ColumnSum(old(fields[..]), d)
    {
      ghost var s := fields[..];
      assert CellShaped(s[tag], tag);
      match fields[tag].cellType
      case Image(_) =>
      case Name(_) =>
        NameEditKeepsValid(s, tag, text.GetOr(""));
        ColumnSumAfterUpdate(s, tag, s[tag].(cellType := Name(text.GetOr(""))));
        fields[tag] := fields[tag].(cellType := Name(text.GetOr("")));
      case Score(_) =>
        fields[tag] := fields[tag].(cellType := Score(text.GetOr("")));
        fields[tag] := fields[tag].(score := ParseInt(text.GetOr("0")));
        assert fields[..] == s[tag := fields[tag]];
        ScoreEditKeepsValid(s, tag, fields[tag]);
        ColumnSumAfterUpdate(s, tag, fields[tag]);
        RecomputedShowsSum(fields[..], fields[tag].column);
        CalculateTotal(fields[tag].column);
      case Total(_) =>
    }

    /** `didSelectUsers`: fill the name cells in index order from the selected users. */
    method DidSelectUsers(users: seq<User>)
      requires Valid()
      modifies fields
      ensures Valid()
      ensures fields[..] == AssignedNames(old(fields[..]), users)
    {
      ghost var before := fields[..];
      var counter := 0;
      for i := 0 to fields.Length
        invariant counter == if NameCount(before[..i]) < |users| then NameCount(before[..i]) else |users|
        invariant forall j :: 0 <= j < i ==> fields[j] == AssignedNames(before, users)[j]
        invariant forall j :: i <= j < fields.Length ==> fields[j] == before[j]
      {
        assert before[..i + 1][..i] == before[..i];
        if |users| > counter {
          match fields[i].cellType
          case Name(_) =>
            fields[i] := fields[i].(cellType := Name(users[counter].name));
            counter := counter + 1;
          case _ =>
        }
      }
      assert fields[..] == AssignedNames(before, users);
      AssignedNamesKeepsValid(before, users);
    }
  }

  /**
   * Two edits as a player makes them on a fresh grid: "5" and "3" in the army
   * and coins cells of column 1 make that column's total read "8".
   */
  method ScoreEntryScenario() {
    assert ParseInt("5") == Some(5) && ParseInt("3") == Some(3) by {
      assert AllDigits("5") && DigitsValue("5") == 5;
      assert AllDigits("3") && DigitsValue("3") == 3;
    }
    assert IntToDecimal(8) == "8";
    var grid := new Grid();
    ColumnSumOfBlank(grid.fields[..], 1);
    assert CellShaped(grid.fields[9], 9);
    grid.EndEditing(9, Some("5"));
    assert ColumnSum(grid.fields[..], 1) == 5;
    assert CellShaped(grid.fields[17], 17);
    grid.EndEditing(17, Some("3"));
    assert ColumnSum(grid.fields[..], 1) == 8;
    assert CellShaped(grid.fields[65], 65);
    assert grid.fields[65].cellType == Total("8");
  }

  /**
   * Text that is not a number, "abc" in the army cell of column 2 of a fresh
   * grid, is kept as the cell's text, gives no score, and the column's total
   * reads "0".
   */
  method NonNumericEntryScenario() {
    assert ParseInt("abc") == None by {
      assert !IsDigit("abc"[0]);
    }
    assert IntToDecimal(0) == "0";
    var grid := new Grid();
    ColumnSumOfBlank(grid.fields[..], 2);
    assert CellShaped(grid.fields[10], 10);
    grid.EndEditing(10, Some("abc"));
    assert grid.fields[10].cellType == Score("abc") && grid.fields[10].score == None;
    assert CellShaped(grid.fields[66], 66);
    assert grid.fields[66].cellType == Total("0");
  }
}
