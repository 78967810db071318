/**
 * The cell data of the score grid: the scoring categories, the four roles a
 * cell can play, and the arithmetic that maps a grid index to its category.
 * The grid is 9 category bands of 8 columns, laid out row by row.
 */
module Cells {
  import opened Wrappers

  const COLUMNS: int := 8
  const CELL_COUNT: int := 72

  /** Scoring categories; each one's raw value is the index of its band's first cell. */
  datatype ScoreType = People | Army | Coins | Wonders | Blue | Yellow | Purple | Green | Sum

  function RawValue(t: ScoreType): (raw: int)
    ensures 0 <= raw < CELL_COUNT && raw % COLUMNS == 0
  {
    match t
    case People => 0
    case Army => 8
    case Coins => 16
    case Wonders => 24
    case Blue => 32
    case Yellow => 40
    case Purple => 48
    case Green => 56
    case Sum => 64
  }

  /** `ScoreType(rawValue:)`: the category whose raw value is `raw`, if any. */
  function FromRawValue(raw: int): (r: Option<ScoreType>)
    ensures r.Some? <==> (0 <= raw < CELL_COUNT && raw % COLUMNS == 0)
    ensures r.Some? ==> RawValue(r.value) == raw
  {
    if raw == 0 then Some(People)
    else if raw == 8 then Some(Army)
    else if raw == 16 then Some(Coins)
    else if raw == 24 then Some(Wonders)
    else if raw == 32 then Some(Blue)
    else if raw == 40 then Some(Yellow)
    else if raw == 48 then Some(Purple)
    else if raw == 56 then Some(Green)
    else if raw == 64 then Some(Sum)
    else None
  }

  lemma FromRawValueOfRawValue(t: ScoreType)
    ensures FromRawValue(RawValue(t)) == Some(t)
  {
  }

  /** `index / 8` with Swift's `/` on `Int`, which rounds toward zero. */
  function BandOf(index: int): (q: int)
    ensures 0 <= index ==> 0 <= q * 8 <= index < q * 8 + 8
    ensures index < 0 ==> q * 8 - 8 < index <= q * 8 <= 0
  {
    if index >= 0 then index / 8 else -((-index) / 8)
  }

  /**
   * `ScoreType.scoreType(index:)`: the category of the band that `index` falls
   * in, with `Army` as the fallback when the rounded index names no category.
   */
  function ScoreTypeOf(index: int): (t: ScoreType)
    ensures 0 <= index < CELL_COUNT ==> RawValue(t) <= index < RawValue(t) + COLUMNS
    ensures -COLUMNS < index < 0 ==> t == People
    ensures t == Army <==> (index <= -COLUMNS || index >= CELL_COUNT || 8 <= index < 16)
  {
    FromRawValue(BandOf(index) * COLUMNS).GetOr(Army)
  }

  /** The fallback is taken exactly when the index lies outside -7..71. */
  lemma ScoreTypeOfFallback(index: int)
    ensures FromRawValue(BandOf(index) * COLUMNS).None?
        <==> (index <= -COLUMNS || index >= CELL_COUNT)
  {
  }

  /** `CellType`: what a cell shows and how it reacts to a tap. */
  datatype CellType =
    | Score(text: string)
    | Name(text: string)
    | Total(text: string)
    | Image(image: ScoreType)

  /** `CellModel`; `cellType` is the field the source calls `type`. */
  datatype CellModel = CellModel(cellType: CellType, row: ScoreType, column: int, score: Option<int>)

  /** The role a grid position plays, independent of its text. */
  datatype Role = ImageRole | NameRole | ScoreRole | TotalRole

  function RoleOf(t: CellType): Role {
    match t
    case Score(_) => ScoreRole
    case Name(_) => NameRole
    case Total(_) => TotalRole
    case Image(_) => ImageRole
  }

  /**
   * The layout of the grid by bands: column 0 holds the category icons, the
   * people band the player names, the sum band the totals, and every other
   * band scores.
   */
  function RoleAt(i: int): (r: Role)
    requires 0 <= i < CELL_COUNT
    ensures r == ImageRole <==> i % COLUMNS == 0
    ensures r == NameRole <==> 1 <= i <= 7
    ensures r == TotalRole <==> 65 <= i <= 71
    ensures r == ScoreRole <==> (8 < i < 64 && i % COLUMNS != 0)
  {
    if i % COLUMNS == 0 then ImageRole
    else if ScoreTypeOf(i) == People then NameRole
    else if ScoreTypeOf(i) == Sum then TotalRole
    else ScoreRole
  }
}
