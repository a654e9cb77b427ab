# Skyscrapers board checker, modelled in Dafny

`skyscrapers.py` decides whether a filled-in Skyscrapers board is a winning one.
A board is a list of n strings of n characters. Row 0, row n-1, column 0 and
column n-1 hold visibility hints, with `*` meaning "no hint"; the interior holds
height digits, or `?` for a cell not filled yet. The program runs four checks
and combines them:

- completeness (`check_not_finished_board`);
- no repeated height in an interior row (`check_uniqueness_in_rows`);
- every left-hand hint matches the count of `left_to_right_check`
  (`check_horizontal_visibility`);
- no repeated height in an interior column, found through an explicit
  transpose (`check_columns`).

`check_skyscrapers` returns True when all four pass. Otherwise it returns nothing.

The model keeps the program's imperative form. Each check is a method with the
same loops, early returns and working copies: slices rewritten row by row, and a
freshly allocated `array2` for the transpose. Each method is proved against a
predicate over the whole board that says when the check passes:

| program function | method | predicate |
|---|---|---|
| `left_to_right_check` | `LeftToRightCheck` | `LaggingCount(Inner(line)) == pivot` |
| `check_not_finished_board` | `CheckNotFinishedBoard` | `Finished` |
| `check_uniqueness_in_rows` | `CheckUniquenessInRows` | `RowsUnique` |
| `check_horizontal_visibility` | `CheckHorizontalVisibility` | `HorizontalHintsHold` |
| `check_columns` | `CheckColumns` | `ColumnsUnique` |
| `check_skyscrapers` | `CheckSkyscrapers` | the conjunction of the four |

Lemmas then state what those predicates mean.

The model reproduces the program as written, including these behaviours:

- **Lagging maximum.** `max_el` is updated only after a building has been
  compared, so building i (i >= 2) is compared with the maximum of buildings
  0..i-2 and not 0..i-1. `LaggingCount` is that count. `VisibleCount` counts
  truly visible buildings. `VisibleAtMostLagging` proves the first is never below
  the second, and `LaggingOvercounts` shows they differ on the row 1, 3, 2.
- **Right-hand hints are never checked.** `left_to_right_check` deletes the last
  character before comparing anything.
- **Vertical hints are never checked.** `check_columns` only looks for repeats.
- **Completeness works per row.** Each interior row has `*` stripped from both
  ends and must then parse as one integer. It is not checked cell by cell.
- **The hint rows are scanned.** `check_horizontal_visibility` also feeds rows 0
  and n-1 to `left_to_right_check` when they start with a digit.
- **There is no False result.** `Verdict` is `Valid | NoResult`: True or the
  implicit `None`.

Where the program's own docstrings promise more than the code does, the model
follows the code:

- The docstring of `check_horizontal_visibility` (skyscrapers.py:104-105) counts
  the buildings that can be seen, which means comparing each building with all
  earlier ones. The code compares with a maximum that lags one position behind.
- The docstring of `check_skyscrapers` (skyscrapers.py:152-153) promises False
  for a board that breaks the rules. The code has no False path: it returns True
  or falls off the end with `None`.
- The docstring of `check_not_finished_board` (skyscrapers.py:53) describes a
  search for `?` cells. The code tests whole rows: each must parse as one integer
  once `*` is stripped.

Files:

- `text.dfy` (module `Text`) holds the string helpers: digit strings, `int()`,
  `strip('*')`, `max()` over characters, and `set()` with the length comparison.
- `skyscrapers.dfy` (module `Skyscrapers`) holds the checks.
- `doctests.dfy` (module `Doctests`) holds the docstring examples, stated over the
  predicates. It also proves that `CheckSkyscrapers` gives Valid on the sample board.

## Model

| member | source | states |
|---|---|---|
| `Skyscrapers.LeftToRightCheck` | skyscrapers.py:22-48 | returns True exactly when the lagging-maximum count of the cells between the two ends of the line equals `pivot`; it needs at least one such cell |
| `Skyscrapers.LaggingCount` | skyscrapers.py:39-44 | the final `counter` is at least 1 and at most the number of interior cells |
| `Skyscrapers.LaggingCountStep` | skyscrapers.py:40-44 | position 1 counts when it exceeds position 0; position i >= 2 counts when it exceeds every building at positions 0..i-2 |
| `Skyscrapers.VisibleAtMostLagging` | skyscrapers.py:40-44 | every truly visible building is counted, so the count never falls below the true number of visible buildings |
| `Skyscrapers.LaggingOvercounts` | skyscrapers.py:40-44 | for the buildings 1, 3, 2 the count is 3, while only 2 buildings are visible |
| `Skyscrapers.LeftToRightIgnoresEnds` | skyscrapers.py:36-38 | replacing the first and the last character of a line (the right-hand hint included) leaves the count unchanged |
| `Skyscrapers.Inner` | skyscrapers.py:90 | `s[1:-1]` keeps exactly the elements between the first and the last, and is empty when there are fewer than two |
| `Text.MaxChar` | skyscrapers.py:44 | `max(...)` over characters is at least every character of the prefix |
| `Text.MaxCharAt` | skyscrapers.py:44 | the maximum is one of the characters of the prefix |
| `Skyscrapers.Lag` | skyscrapers.py:44 | the prefix `max_el` covers when position i is compared is never empty and never reaches position i; from position 2 on it also leaves out position i-1 |
| `Text.AboveMaxChar` | skyscrapers.py:42-44 | a character exceeds the maximum exactly when it exceeds every character |
| `Skyscrapers.CheckNotFinishedBoard` | skyscrapers.py:51-72 | returns True exactly when every row except the first and the last, with `*` stripped from both ends, is a non-empty string of digits; the caller's board is a value the method cannot change |
| `Text.StripStars` | skyscrapers.py:66 | `strip('*')` returns a slice of the row that neither starts nor ends with `*` and has only `*` around it |
| `Text.StripStarsUnique` | skyscrapers.py:66 | any slice with those properties is the result of `strip('*')` |
| `Text.ParseInt` | skyscrapers.py:68-116 | `int(...)` succeeds exactly on non-empty digit strings, and a single digit parses to its value; used for the rows at :68-71 and for the one-character hint at :116 |
| `Text.DigitValue` | skyscrapers.py:116 | the value `int(...)` gives a single digit character, between 0 and 9 |
| `Skyscrapers.FilledRowParses` | skyscrapers.py:64-72 | a row with digits between its ends, and a digit or `*` at each end, passes the strip-and-parse test |
| `Skyscrapers.FilledBoardIsFinished` | skyscrapers.py:64-72 | a board whose interior rows are all filled this way is finished |
| `Skyscrapers.UnfilledCellMeansUnfinished` | skyscrapers.py:53-55 | a `?` anywhere in a row other than the first and the last makes the board unfinished |
| `Skyscrapers.FinishedIgnoresHintRows` | skyscrapers.py:64 | the first and the last row never affect completeness |
| `Skyscrapers.InteriorRows` | skyscrapers.py:88-91 | `board[1:-1]` with every row cut to `row[1:-1]`: element k is the interior of board row k+1 |
| `Skyscrapers.CheckUniquenessInRows` | skyscrapers.py:75-96 | returns True exactly when, for every row index 1..n-2, the characters between the row's two ends are pairwise distinct |
| `Text.DistinctIffNoShrink` | skyscrapers.py:93-94 | `len(row) == len(set(row))` holds exactly when no character repeats |
| `Text.Elements` | skyscrapers.py:93 | `set(row)`, as used at :93 and :143, has at most as many elements as the row |
| `Text.ElementsAreMembers` | skyscrapers.py:93 | `set(row)` holds exactly the characters of the row |
| `Skyscrapers.RowsUniqueIgnoresHints` | skyscrapers.py:88-90 | boards that agree on the interior cells of rows 1..n-2 agree on row uniqueness, so hint rows and hint columns never matter |
| `Skyscrapers.CheckHorizontalVisibility` | skyscrapers.py:99-118 | returns True exactly when every row whose first character is not `*` passes `left_to_right_check` with that digit as pivot; rows 0 and n-1 included, `*` rows skipped |
| `Skyscrapers.InteriorColumn` | skyscrapers.py:138-141 | row j of the transposed grid holds the interior cells of column j+1, top to bottom, without the hint rows |
| `Skyscrapers.CheckColumns` | skyscrapers.py:121-146 | after filling `new_board[j][i] = interior[i][j]`, returns True exactly when every interior column's characters are pairwise distinct |
| `Skyscrapers.ColumnsIgnoreHintRows` | skyscrapers.py:134 | replacing the top and the bottom hint rows never changes the column check, so no vertical hint is ever compared |
| `Skyscrapers.CheckSkyscrapers` | skyscrapers.py:149-163 | gives Valid exactly when the board is finished, its rows are unique, its horizontal hints hold and its columns are unique; otherwise NoResult, never a False |
| `Doctests.LaggingCountFive` | skyscrapers.py:39-44 | the counting rule written out for five buildings |
| `Doctests.LeftToRightExamples` | skyscrapers.py:31-34 | the line `412453*` counts 4, so hint 4 passes; the line `452453*` counts 1, so hint 5 fails |
| `Doctests.SampleIsFinished` | skyscrapers.py:59-60 | the sample board is finished |
| `Doctests.UnfinishedExamples` | skyscrapers.py:57-62 | the boards with `?` cells are not finished |
| `Doctests.SampleRowsUnique` | skyscrapers.py:81-82 | the sample board's rows are unique |
| `Doctests.RepeatedInRowExamples` | skyscrapers.py:83-86 | the two boards with a repeated height in a row fail row uniqueness |
| `Doctests.SampleHintsHold` | skyscrapers.py:107-108 | the sample board's left-hand hints hold |
| `Doctests.WrongHintExample` | skyscrapers.py:109-110 | the row `452453*` fails its hint |
| `Doctests.WrongHintOtherExample` | skyscrapers.py:111-112 | the row `452413*` fails its hint |
| `Doctests.TopRowIsScanned` | skyscrapers.py:114-117 | a digit in the first cell of row 0 is checked as a hint |
| `Doctests.SampleColumnsUnique` | skyscrapers.py:127-128 | the sample board's columns are unique |
| `Doctests.RepeatedInColumnExamples` | skyscrapers.py:129-132 | the two boards with a repeated height in a column fail the column check |
| `Doctests.SampleVerdict` | skyscrapers.py:155-156 | `CheckSkyscrapers` on the sample board gives Valid |

## Left out

- `read_input` (skyscrapers.py:7-19) is file I/O, and it opens `check.txt` whatever path it is given. `CheckSkyscrapers` takes the loaded board, a `seq<string>`, instead of a path.
- The `__main__` block only prints the verdict and runs the doctests.
- `setup.py` is packaging metadata.
- Text.ParseInt: accepts only non-empty strings of ASCII digits. Python's `int()` also accepts surrounding whitespace, a sign, `_` between digits and non-ASCII decimal digits. A row such as `+1` or `1_2` is finished for the program but not for this model.
- Text.ParseInt: has no length limit. Since CPython 3.11, and the 3.8.14, 3.9.14 and 3.10.7 security releases, `int()` on a string of more than 4300 digits raises ValueError. setup.py:21 allows any Python from 3.8 on. On those versions a row with more than 4300 digits left after stripping is unfinished for the program but finished for `CheckNotFinishedBoard`.
- Skyscrapers.CheckNotFinishedBoard: inherits that narrowing of `int()`. It also does not model the rows being replaced by the parsed integers, since nothing reads those values afterwards.
- Skyscrapers.LeftToRightCheck: requires a line of at least three characters. Shorter lines make the program raise IndexError.
- Skyscrapers.CheckHorizontalVisibility: requires every row to be non-empty and to start with `*` or an ASCII digit, and every row with a digit hint to have an interior cell. The program raises IndexError on an empty row or a short hinted row, and ValueError on a first character that is neither `*` nor a decimal digit. A row that starts with a non-ASCII decimal digit (such as `٣`) does not raise: `int()` at skyscrapers.py:116 gives its value, and the row is checked with that pivot. The model excludes such rows and does not capture that case. It would only raise on a row it reaches before an earlier row fails, so the precondition is slightly stronger than needed.
- Skyscrapers.CheckColumns: requires every interior row to be as long as the board is high. Longer rows make the program raise IndexError. Shorter rows leave integer `0` fillers in `new_board`, which the model's character grid cannot hold.
- Skyscrapers.CheckSkyscrapers: requires a square board of side at least 3 whose rows start with `*` or an ASCII digit. That covers the preconditions of every check it calls, and it is stronger than they need. The program returns True for the empty board and for `["**", "**"]`, since every check then passes without looking at a cell (skyscrapers.py:64, 88, 114, 134). It also accepts a hint row 0 or n-1 of any non-empty length when it starts with `*`, while the model requires every row to be n long. The model gives no verdict for any of these boards.
- Exceptions are not modelled as results. Each input that would raise is excluded by the preconditions above.
