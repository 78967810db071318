# 7 Wonders stat tracker: score grid and user cache

This project models the two pieces of domain logic in the 7 Wonders score
tracker app.

The **score grid** is the main screen's `fields`. It is a flat list of 72
cells: 9 category bands (people, army, coins, wonders, blue, yellow, purple,
green, sum) of 8 columns each.
- Column 0 holds one category icon per band.
- The people band holds the player names (cells 1-7).
- The sum band holds the column totals (cells 65-71).
- Every other cell is a score cell.

Three edits change the grid in place:
- `didAdd(score:indexPath:)` stores a validated number.
- Ending a text edit stores raw text, and for a score cell `Int(text)`.
- `didSelectUsers` fills the name cells from a chosen list of players.

Every score edit calls `calculateTotal(column)`. It sums the column's scores,
counting a missing score as 0, and writes that sum as decimal text into the
column's total cell.

The **user cache** is the `users` list of `DatabaseManager`.
- `loadUsers` merges the names read from the remote `users` key into the
  cache. It appends only names that no cached user has, and hands the whole
  cache to its completion. An error, a value of the wrong type, or missing
  data hands over `[]` and leaves the cache alone.
- `addUser` appends with no check and writes back the names of the whole cache.

Modules:
- `Wrappers`: `Option`, Swift's `T?`.
- `Decimal`: `"\(n)"` as `IntToDecimal` and Swift's `Int(String)` as
  `ParseInt`, with 64-bit range checking. The two round-trip.
- `Cells`: `ScoreType` with its raw values, `scoreType(index:)`, `CellType`,
  `CellModel`, and the layout of roles by band.
- `ScoreGrid`: the specification functions on `seq<CellModel>`, their
  lemmas, and class `Grid`. `Grid` holds `fields` as an `array<CellModel>` and
  its methods edit it in place. Each method is proved against a
  specification function: `CalculateTotal` against `Recomputed`, and
  `DidSelectUsers` against `AssignedNames`.
- `UserStore`: `User`, the merge specification `Merged` and its lemmas, and
  class `Store`. `Store` holds `users: seq<User>` and its methods reassign it.

The grid invariant `Valid()` says two things. First, every cell keeps the
column, band, role and icon it was built with. Second, every total cell shows
its column's sum. A total cell may still be blank, but only while its column
sums to 0: before the first score edit in a column, its total is the `""` it
was built with.

Behaviour of the code that the model keeps:
- `addUser` (DatabaseManager.swift:52) appends with no duplicate check
  (`UserStore.AppendCanDuplicate`).
- Ending a name edit (ViewController.swift:272-277) looks for the name in the
  list `loadUsers` delivers, and that list is `[]` when the read fails. On a
  failed read the name is therefore appended even if it is cached
  (`UserStore.Store.CommitName`, `RepeatedNameOfflineScenario`).
- A total reads `""` until the first score edit in its column
  (ViewController.swift:161).
- The scenario methods `ScoreEntryScenario` and `NonNumericEntryScenario` use
  columns 1 and 2, because column 0 holds the icons.
- When a score cell's text is nil, the code stores the text `""` and the
  score `Int("0")`, which is 0 (ViewController.swift:280-281).

## Model

| member | source | states |
|---|---|---|
| `Decimal.IntToDecimal` | SevenWondersStatTracker/SevenWondersStatTracker/ViewController.swift:257 | The text written into a total cell is non-empty, starts with `-` exactly when the number is negative, and is all digits after the sign |
| `Decimal.ParseInt` | SevenWondersStatTracker/SevenWondersStatTracker/ViewController.swift:281 | `Int(text)` gives a number only for an optional sign followed by ASCII digits. The number is within 64-bit range and is negative only after a `-` |
| `Decimal.ParseIntOfIntToDecimal` | SevenWondersStatTracker/SevenWondersStatTracker/ViewController.swift:307-308 | The text `didAdd` shows in a cell reads back as exactly the score it stores, for every 64-bit score |
| `Decimal.IntToDecimalInjective` | SevenWondersStatTracker/SevenWondersStatTracker/ViewController.swift:257 | Different sums never show the same total text |
| `Cells.RawValue` | SevenWondersStatTracker/SevenWondersStatTracker/ViewController.swift:43-52 | Every category's raw value is the first index of a band: a multiple of 8 within 0-71 |
| `Cells.FromRawValue` | SevenWondersStatTracker/SevenWondersStatTracker/ViewController.swift:43-52 | `ScoreType(rawValue:)` succeeds exactly on the multiples of 8 from 0 to 64, and returns the category with that raw value |
| `Cells.FromRawValueOfRawValue` | SevenWondersStatTracker/SevenWondersStatTracker/ViewController.swift:43-52 | Looking up a category by its own raw value gives that category back |
| `Cells.BandOf` | SevenWondersStatTracker/SevenWondersStatTracker/ViewController.swift:55 | `index / 8` rounds toward zero, as Swift's integer division does, including for negative indices |
| `Cells.ScoreTypeOf` | SevenWondersStatTracker/SevenWondersStatTracker/ViewController.swift:54-56 | For 0 ≤ index < 72 the category's band contains the index. Indices -7..-1 give people. The result is army exactly for indices in 8-15 or outside -7..71 |
| `Cells.ScoreTypeOfFallback` | SevenWondersStatTracker/SevenWondersStatTracker/ViewController.swift:55 | The `?? .army` fallback is taken exactly when the index is outside -7..71, so never for a grid index |
| `Cells.RoleAt` | SevenWondersStatTracker/SevenWondersStatTracker/ViewController.swift:159-162 | In the band layout the icons sit at the multiples of 8, the names at 1-7 and the totals at 65-71. Everything else is a score cell |
| `ScoreGrid.ColumnSum` | SevenWondersStatTracker/SevenWondersStatTracker/ViewController.swift:247-250 | The sum of the scores of a column's cells, nil counting 0. It is never negative when no score in the column is |
| `ScoreGrid.Recomputed` | SevenWondersStatTracker/SevenWondersStatTracker/ViewController.swift:246-263 | The grid after `calculateTotal(c)`. Every cell keeps its column, band, score and role, and only cells of column c can differ |
| `ScoreGrid.AssignedNames` | SevenWondersStatTracker/SevenWondersStatTracker/ViewController.swift:290-299 | The grid after `didSelectUsers`. Every cell keeps its column, band, score and role, and only name cells can differ |
| `ScoreGrid.ColumnSumDependsOnColumnScores` | SevenWondersStatTracker/SevenWondersStatTracker/ViewController.swift:247-250 | A column's sum depends only on which cells are in that column and on their scores |
| `ScoreGrid.ColumnSumAfterUpdate` | SevenWondersStatTracker/SevenWondersStatTracker/ViewController.swift:247-250 | Replacing one cell changes its column's sum by exactly the change in that cell's score (a nil score counts 0). No other column's sum changes |
| `ScoreGrid.ColumnSumOfBlank` | SevenWondersStatTracker/SevenWondersStatTracker/ViewController.swift:158 | While no cell has a score, every column sums to 0 |
| `ScoreGrid.RecomputedShowsSum` | SevenWondersStatTracker/SevenWondersStatTracker/ViewController.swift:246-263 | After `calculateTotal(c)`, every total cell of column c reads the decimal sum of the column's scores. No other cell changes, and no score or sum changes |
| `ScoreGrid.RecomputedIdempotent` | SevenWondersStatTracker/SevenWondersStatTracker/ViewController.swift:246-263 | Calling `calculateTotal(c)` twice gives the same grid as calling it once |
| `ScoreGrid.RecomputedColumnZero` | SevenWondersStatTracker/SevenWondersStatTracker/ViewController.swift:252-261 | Column 0 has no total cell (cell 64 is an icon), so `calculateTotal(0)` changes nothing |
| `ScoreGrid.ScoreEditKeepsValid` | SevenWondersStatTracker/SevenWondersStatTracker/ViewController.swift:279-282 | Writing a score cell and then recomputing its column keeps the layout, and every total still shows its column's sum |
| `ScoreGrid.NameEditKeepsValid` | SevenWondersStatTracker/SevenWondersStatTracker/ViewController.swift:278 | Retyping a name cell keeps the layout and every total |
| `ScoreGrid.NameCountOfGrid` | SevenWondersStatTracker/SevenWondersStatTracker/ViewController.swift:160 | The name cells are exactly 1-7, so cell i (1 ≤ i ≤ 8) has i-1 name cells before it |
| `ScoreGrid.AssignedNamesOnGrid` | SevenWondersStatTracker/SevenWondersStatTracker/ViewController.swift:291-299 | `didSelectUsers` gives cell i (1-7) the name of user i-1 when there is one, and leaves every other cell as it was |
| `ScoreGrid.AssignedNamesOfNoUsers` | SevenWondersStatTracker/SevenWondersStatTracker/ViewController.swift:292 | An empty selection changes no cell |
| `ScoreGrid.AssignedNamesIgnoresExtraUsers` | SevenWondersStatTracker/SevenWondersStatTracker/ViewController.swift:292-296 | Users after the seventh have no effect |
| `ScoreGrid.AssignedNamesKeepsValid` | SevenWondersStatTracker/SevenWondersStatTracker/ViewController.swift:291-299 | Filling the name cells keeps the layout and every total |
| `ScoreGrid.Grid.constructor` | SevenWondersStatTracker/SevenWondersStatTracker/ViewController.swift:155-166 | Builds 72 cells. Cell i is in column i % 8 and band `scoreType(i)`, has the role of its band and no score, and its text is blank. So every total shows its column's sum of 0 |
| `ScoreGrid.Grid.SumColumn` | SevenWondersStatTracker/SevenWondersStatTracker/ViewController.swift:247-250 | The accumulator loop returns the column's sum of scores, with nil counted as 0 |
| `ScoreGrid.Grid.CalculateTotal` | SevenWondersStatTracker/SevenWondersStatTracker/ViewController.swift:246-263 | The new grid is `Recomputed(old grid, column)`. The lemmas on `Recomputed` say what that means |
| `ScoreGrid.Grid.DidAdd` | SevenWondersStatTracker/SevenWondersStatTracker/ViewController.swift:306-311 | The cell gets the score and its decimal text. Its column's sum changes by the difference in score, and the column's total shows the new sum. Other columns' sums stay the same, and the grid stays valid |
| `ScoreGrid.Grid.EndEditing` | SevenWondersStatTracker/SevenWondersStatTracker/ViewController.swift:268-286 | Icon and total cells ignore the edit, and a name cell takes the text. A score cell keeps the raw text and takes `Int(text)` as its score, so non-numeric text adds 0; its column's total then shows the new sum. Other columns' sums stay the same |
| `ScoreGrid.Grid.DidSelectUsers` | SevenWondersStatTracker/SevenWondersStatTracker/ViewController.swift:290-299 | The counter loop gives the same grid as `AssignedNames`, the k-th name cell taking the k-th user's name, and keeps the grid valid |
| `UserStore.Merged` | SevenWondersStatTracker/SevenWondersStatTracker/DatabaseManager.swift:37-41 | The merge loop as a function of the cache and the fetched names. It keeps every cached user in place and in order, and adds at most one user per fetched name |
| `UserStore.MergedNames` | SevenWondersStatTracker/SevenWondersStatTracker/DatabaseManager.swift:37-41 | After the merge, a name is cached if and only if it was cached before or was fetched |
| `UserStore.MergedAppendsOnlyNew` | SevenWondersStatTracker/SevenWondersStatTracker/DatabaseManager.swift:38-39 | Every appended user has a fetched name that no user had before |
| `UserStore.MergedInFetchedOrder` | SevenWondersStatTracker/SevenWondersStatTracker/DatabaseManager.swift:37-40 | Appended users come in the order their names first occur in the fetched list, so no name is appended twice |
| `UserStore.MergedKeepsDistinct` | SevenWondersStatTracker/SevenWondersStatTracker/DatabaseManager.swift:38-39 | If no two cached users shared a name before the merge, none do after |
| `UserStore.MergedOfCachedNames` | SevenWondersStatTracker/SevenWondersStatTracker/DatabaseManager.swift:38 | Merging names that are all cached changes nothing |
| `UserStore.MergedIdempotent` | SevenWondersStatTracker/SevenWondersStatTracker/DatabaseManager.swift:37-41 | Merging the same fetched list a second time leaves the cache as the first merge left it |
| `UserStore.AppendCanDuplicate` | SevenWondersStatTracker/SevenWondersStatTracker/DatabaseManager.swift:52 | `addUser` has no duplicate check, so appending a cached name leaves two users with that name |
| `UserStore.AppendNewKeepsDistinct` | SevenWondersStatTracker/SevenWondersStatTracker/ViewController.swift:274-275 | Appending a name that is not cached keeps names distinct |
| `UserStore.Store.constructor` | SevenWondersStatTracker/SevenWondersStatTracker/DatabaseManager.swift:17 | The cache starts empty |
| `UserStore.Store.LoadUsers` | SevenWondersStatTracker/SevenWondersStatTracker/DatabaseManager.swift:23-49 | On a list of names the cache becomes `Merged(old cache, names)` and the whole cache is delivered. On an error, a wrong type or missing data, `[]` is delivered and the cache does not change |
| `UserStore.Store.AddUser` | SevenWondersStatTracker/SevenWondersStatTracker/DatabaseManager.swift:51-54 | The cache grows by exactly the given user. The list written back has the cache's names, in the same order and number |
| `UserStore.Store.CommitName` | SevenWondersStatTracker/SevenWondersStatTracker/ViewController.swift:272-277 | A typed name ends up cached. After a successful read no duplicate is created. After a failed read the name is appended even if it is already cached |

## Left out

- Rendering: `CustomCell`, colours, icons, `alertText`, `keyboardStyle`, the
  collection-view layout and its floating-point sizes, and every
  `reloadData()` call. These are presentation only.
- The modal screens that gather input (score entry, user selection, adding a
  user). Their only effect on the model is the arguments they pass. The score
  screen accepts only non-empty text that `Int` parses, so `DidAdd` takes a
  64-bit integer.
- `ScoreGrid.Grid.DidAdd` requires a score cell. Its only caller, the score
  dialog, is opened only from a `.score` cell (ViewController.swift:223). A
  call on any other cell would turn it into a score cell, and that is not
  modelled.
- `ScoreGrid.Grid.SumColumn` adds unbounded integers. Swift's `total += score`
  traps on 64-bit overflow, and that crash is not modelled.
- `UserStore.NameIn`: names are compared as sequences of Unicode scalars,
  not by Swift's `String` equality, which treats canonically equivalent
  strings (a precomposed `é` and `e` with a combining accent) as equal. So
  `Merged`, `LoadUsers` and `CommitName` may keep two names that Swift would
  call the same, and `MergedKeepsDistinct` promises distinctness only as
  scalar sequences.
- The remote store. The read under the `users` key is the input `Snapshot`:
  an error, no data, a list of strings, or a value of another type. The write
  is the name list `AddUser` returns. The logging `print` calls are dropped.
- Asynchrony. Completions run after the network answers, and a `[weak self]`
  guard drops them once the object is gone. `CommitName` is a separate call
  that the model makes right after the name cell is updated. The model does
  not capture other orderings, or completions that never run.
- `showNameDialog` loads users only to present the selection screen. The
  model covers that load through `LoadUsers`.
- `databaseManager.selectedUsers = users` (ViewController.swift:300).
  `selectedUsers` is not declared in DatabaseManager.swift, so it is not part
  of this model.
