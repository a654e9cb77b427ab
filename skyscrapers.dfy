/**
  The Skyscrapers board checker (skyscrapers.py). A board is a list of strings
  forming an n-by-n grid: rows 0 and n-1 and columns 0 and n-1 hold visibility
  hints ('*' = no hint), the interior holds height digits ('?' while unfilled).

  Each check of the program is a method that walks the board as the program
  does, proved against a predicate that says, over the whole board, when the
  check passes. The checks keep the program's own rules:
  - the visibility count compares against a maximum that lags one position
    behind (LaggingCount), and the right-hand hint is never looked at;
  - completeness strips '*' from each whole row and parses it as one number;
  - the hint rows 0 and n-1 are fed to the horizontal check like any other row;
  - columns are checked for repeats only, never against their hints;
  - the overall verdict is either Valid or no result at all, never "invalid".
 */
module Skyscrapers {
  import opened Text

  type Board = seq<string>

  /** `s[1:-1]`: everything but the first and the last element (empty when there are fewer than two). */
  function Inner<T>(s: seq<T>): (r: seq<T>)
    ensures |r| == if |s| >= 2 then |s| - 2 else 0
    ensures forall k :: 0 <= k < |r| ==> r[k] == s[k + 1]
  {
    if |s| >= 2 then s[1..|s| - 1] else []
  }

  // ---------------------------------------------------------------------------
  // Visibility from the left-hand hint (left_to_right_check)
  // ---------------------------------------------------------------------------

  /**
    Length of the prefix that the building at position `i` is compared with.
    The loop sets `max_el` to `max(line[:i])` only after comparing position `i`,
    so position 1 is compared with position 0 and position i >= 2 with the
    maximum of positions 0..i-2.
   */
  function Lag(i: nat): (n: nat)
    ensures 1 <= n
    ensures i >= 1 ==> n <= i
    ensures i >= 2 ==> n < i
  {
    if i <= 1 then 1 else i - 1
  }

  /** The value `counter` ends with for the buildings `b`: the first one, plus each later one above the lagging maximum. */
  function LaggingCount(b: seq<char>): (n: nat)
    requires |b| > 0
    ensures 1 <= n <= |b|
  {
    if |b| == 1 then 1
    else
      var i := |b| - 1;
      LaggingCount(b[..i]) + (if b[i] > MaxChar(b[..Lag(i)]) then 1 else 0)
  }

  /** The building at `i` is truly visible from the left: every building before it is lower. */
  predicate Visible(b: seq<char>, i: nat)
    requires i < |b|
  {
    forall j :: 0 <= j < i ==> b[j] < b[i]
  }

  /** The number of buildings truly visible from the left, the count the hint is meant to state. */
  function VisibleCount(b: seq<char>): (n: nat)
    requires |b| > 0
  {
    if |b| == 1 then 1
    else VisibleCount(b[..|b| - 1]) + (if Visible(b, |b| - 1) then 1 else 0)
  }

  /**
    The counting rule position by position: the last building adds one exactly
    when it is above every building before position Lag(i), the building right
    before it (from position 2 on) being skipped.
   */
  lemma LaggingCountStep(b: seq<char>)
    requires |b| >= 2
    ensures LaggingCount(b) == LaggingCount(b[..|b| - 1]) +
      (if forall j :: 0 <= j < Lag(|b| - 1) ==> b[j] < b[|b| - 1] then 1 else 0)
  {
    var i := |b| - 1;
    var p := b[..Lag(i)];
    AboveMaxChar(p, b[i]);
    assert forall j :: 0 <= j < Lag(i) ==> p[j] == b[j];
  }

  /** Every truly visible building is counted, so the lagging count never falls below the true one. */
  lemma {:induction false} VisibleAtMostLagging(b: seq<char>)
    requires |b| > 0
    ensures VisibleCount(b) <= LaggingCount(b)
  {
    if |b| > 1 {
      var i := |b| - 1;
      VisibleAtMostLagging(b[..i]);
      if Visible(b, i) {
        var k := MaxCharAt(b[..Lag(i)]);
        assert b[k] < b[i];
      }
    }
  }

  /** A row whose buildings are 1, 3, 2 shows 2 buildings but is counted as 3: the 2 is compared with 1, not with 3. */
  lemma LaggingOvercounts()
    ensures VisibleCount("132") == 2
    ensures LaggingCount("132") == 3
  {
  }

  /**
    left_to_right_check: drop the two hint cells, count with the lagging
    maximum, and compare the count with `pivot`. The last character (the
    right-hand hint) is deleted before anything is compared.
   */
  method LeftToRightCheck(line: string, pivot: int) returns (ok: bool)
    requires |line| >= 3
    ensures ok <==> LaggingCount(Inner(line)) == pivot
  {
    var b := line[1..];
    b := b[..|b| - 1];
    assert b == Inner(line);
    var counter := 1;
    var maxEl := b[0];
    for i := 1 to |b|
      invariant counter == LaggingCount(b[..i])
      invariant maxEl == MaxChar(b[..Lag(i)])
    {
      assert b[..i + 1][..i] == b[..i];
      assert b[..i + 1][..Lag(i)] == b[..Lag(i)];
      if b[i] > maxEl {
        counter := counter + 1;
      }
      maxEl := MaxChar(b[..i]);
    }
    assert b[..|b|] == b;
    ok := counter == pivot;
  }

  /** The verdict of left_to_right_check depends on neither end of the line. */
  lemma LeftToRightIgnoresEnds(line: string, first: char, last: char)
    requires |line| >= 3
    ensures Inner([first] + Inner(line) + [last]) == Inner(line)
    ensures LaggingCount(Inner([first] + Inner(line) + [last])) == LaggingCount(Inner(line))
  {
  }

  // ---------------------------------------------------------------------------
  // Completeness (check_not_finished_board)
  // ---------------------------------------------------------------------------

  /** Every row but the first and the last parses as one integer once '*' is stripped from both ends. */
  predicate Finished(board: Board) {
    forall i :: 1 <= i < |board| - 1 ==> IsDigitString(StripStars(board[i]))
  }

  /** check_not_finished_board: True when the board is finished, False as soon as a row fails to parse. */
  method CheckNotFinishedBoard(board: Board) returns (finished: bool)
    ensures finished <==> Finished(board)
  {
    // board[1:-1] is a new list: rewriting its rows leaves the caller's board as it was
    var rows := Inner(board);
    for i := 0 to |rows|
      invariant |rows| == |Inner(board)|
      invariant forall k :: 0 <= k < i ==> rows[k] == StripStars(board[k + 1])
      invariant forall k :: i <= k < |rows| ==> rows[k] == board[k + 1]
    {
      rows := rows[i := StripStars(rows[i])];
    }
    for i := 0 to |rows|
      invariant forall k :: 0 <= k < i ==> IsDigitString(rows[k])
    {
      if ParseInt(rows[i]).None? {
        assert !IsDigitString(StripStars(board[i + 1]));
        return false;
      }
    }
    forall i | 1 <= i < |board| - 1 ensures IsDigitString(StripStars(board[i])) {
      assert rows[i - 1] == StripStars(board[i]);
    }
    finished := true;
  }

  /** A row whose cells between the two ends are digits, and whose two ends are '*' or digits. */
  predicate FilledRow(s: string) {
    |s| >= 3 &&
    (s[0] == '*' || IsDigit(s[0])) && (s[|s| - 1] == '*' || IsDigit(s[|s| - 1])) &&
    forall j :: 1 <= j < |s| - 1 ==> IsDigit(s[j])
  }

  /** A filled row survives the strip-and-parse test. */
  lemma FilledRowParses(s: string)
    requires FilledRow(s)
    ensures IsDigitString(StripStars(s))
  {
    var a := if s[0] == '*' then 1 else 0;
    var e := if s[|s| - 1] == '*' then |s| - 1 else |s|;
    var r := s[a..e];
    assert r[0] == s[a] && r[|r| - 1] == s[e - 1];
    assert StrippedAt(s, r, a);
    StripStarsUnique(s, r, a);
  }

  /** A board whose interior rows are all filled is finished. */
  lemma FilledBoardIsFinished(board: Board)
    requires forall i :: 1 <= i < |board| - 1 ==> FilledRow(board[i])
    ensures Finished(board)
  {
    forall i | 1 <= i < |board| - 1 ensures IsDigitString(StripStars(board[i])) {
      FilledRowParses(board[i]);
    }
  }

  /** One '?' anywhere in an interior row makes the board unfinished: stripping '*' never removes it. */
  lemma UnfilledCellMeansUnfinished(board: Board, i: nat, j: nat)
    requires 1 <= i < |board| - 1 && j < |board[i]|
    requires board[i][j] == '?'
    ensures !Finished(board)
  {
  }

  /** The first and the last row never affect completeness. */
  lemma FinishedIgnoresHintRows(board: Board, top: string, bottom: string)
    requires |board| >= 2
    ensures Finished([top] + board[1..|board| - 1] + [bottom]) <==> Finished(board)
  {
    var other := [top] + board[1..|board| - 1] + [bottom];
    assert forall i :: 1 <= i < |board| - 1 ==> other[i] == board[i];
  }

  // ---------------------------------------------------------------------------
  // Row uniqueness (check_uniqueness_in_rows)
  // ---------------------------------------------------------------------------

  /**
    The slicing both check_uniqueness_in_rows and check_columns start with:
    `board[1:-1]`, then each of its rows replaced by `row[1:-1]`.
   */
  method InteriorRows(board: Board) returns (rows: seq<string>)
    ensures |rows| == |Inner(board)|
    ensures forall k :: 0 <= k < |rows| ==> rows[k] == Inner(board[k + 1])
  {
    rows := Inner(board);
    for i := 0 to |rows|
      invariant |rows| == |Inner(board)|
      invariant forall k :: 0 <= k < i ==> rows[k] == Inner(board[k + 1])
      invariant forall k :: i <= k < |rows| ==> rows[k] == board[k + 1]
    {
      rows := rows[i := Inner(rows[i])];
    }
  }

  /** No interior row repeats a character between its two hint cells. */
  predicate RowsUnique(board: Board) {
    forall i :: 1 <= i < |board| - 1 ==> Distinct(Inner(board[i]))
  }

  /** check_uniqueness_in_rows: compares each interior row's length with the size of its set of characters. */
  method CheckUniquenessInRows(board: Board) returns (ok: bool)
    ensures ok <==> RowsUnique(board)
  {
    var rows := InteriorRows(board);
    for i := 0 to |rows|
      invariant forall k :: 0 <= k < i ==> Distinct(rows[k])
    {
      var rowSet := Elements(rows[i]);
      assert |rows[i]| == |rowSet| <==> Distinct(rows[i]) by {
        DistinctIffNoShrink(rows[i]);
      }
      if |rows[i]| != |rowSet| {
        return false;
      }
    }
    forall i | 1 <= i < |board| - 1 ensures Distinct(Inner(board[i])) {
      assert rows[i - 1] == Inner(board[i]);
    }
    ok := true;
  }

  /** Only the interior cells of the interior rows matter: hint rows and hint columns can be anything. */
  lemma RowsUniqueIgnoresHints(board: Board, other: Board)
    requires |other| == |board|
    requires forall i :: 1 <= i < |board| - 1 ==> Inner(other[i]) == Inner(board[i])
    ensures RowsUnique(other) <==> RowsUnique(board)
  {
  }

  // ---------------------------------------------------------------------------
  // Horizontal hints (check_horizontal_visibility)
  // ---------------------------------------------------------------------------

  /**
    What check_horizontal_visibility needs to run without an exception: every
    row has a first character, which is '*' or a digit, and a row with a digit
    hint has at least one cell between its two ends.
   */
  predicate HintColumnReadable(board: Board) {
    forall i :: 0 <= i < |board| ==>
      |board[i]| >= 1 && (board[i][0] == '*' || (IsDigit(board[i][0]) && |board[i]| >= 3))
  }

  /** Every row with a left-hand hint, the two hint rows included, has as many counted buildings as its hint says. */
  predicate HorizontalHintsHold(board: Board)
    requires HintColumnReadable(board)
  {
    forall i :: 0 <= i < |board| && board[i][0] != '*' ==>
      LaggingCount(Inner(board[i])) == DigitValue(board[i][0])
  }

  /** check_horizontal_visibility: rows starting with '*' are skipped, the first failing row ends the scan. */
  method CheckHorizontalVisibility(board: Board) returns (ok: bool)
    requires HintColumnReadable(board)
    ensures ok <==> HorizontalHintsHold(board)
  {
    for i := 0 to |board|
      invariant forall k :: 0 <= k < i && board[k][0] != '*' ==>
        LaggingCount(Inner(board[k])) == DigitValue(board[k][0])
    {
      if board[i][0] != '*' {
        var pivot := ParseInt([board[i][0]]);
        var rowOk := LeftToRightCheck(board[i], pivot.value);
        if !rowOk {
          return false;
        }
      }
    }
    ok := true;
  }

  // ---------------------------------------------------------------------------
  // Columns (check_columns)
  // ---------------------------------------------------------------------------

  /** What check_columns needs to fill its square grid: every interior row is as long as the board is high. */
  predicate InteriorRowsSquare(board: Board) {
    forall i :: 1 <= i < |board| - 1 ==> |board[i]| == |board|
  }

  /** Interior column `j`: the cells board[1][j+1], ..., board[n-2][j+1], top to bottom. */
  function InteriorColumn(board: Board, j: nat): (c: string)
    requires InteriorRowsSquare(board)
    requires j < |board| - 2
    ensures |c| == |board| - 2
    ensures forall i :: 0 <= i < |c| ==> c[i] == board[i + 1][j + 1]
  {
    seq(|board| - 2, i requires 0 <= i < |board| - 2 => board[i + 1][j + 1])
  }

  /** No interior column repeats a character; the hint rows above and below are not part of it. */
  predicate ColumnsUnique(board: Board)
    requires InteriorRowsSquare(board)
  {
    forall j :: 0 <= j < |board| - 2 ==> Distinct(InteriorColumn(board, j))
  }

  /** check_columns: transposes the interior into a new grid, then checks each grid row for repeats. */
  method CheckColumns(board: Board) returns (ok: bool)
    requires InteriorRowsSquare(board)
    ensures ok <==> ColumnsUnique(board)
  {
    var rows := InteriorRows(board);
    var m := |rows|;
    assert forall k :: 0 <= k < m ==> |rows[k]| == m;
    // new_board, m by m; every cell is overwritten below
    var grid := new char[m, m];
    for i := 0 to m
      invariant forall r, c :: 0 <= r < m && 0 <= c < i ==> grid[r, c] == rows[c][r]
    {
      for j := 0 to |rows[i]|
        invariant forall r, c :: 0 <= r < m && 0 <= c < i ==> grid[r, c] == rows[c][r]
        invariant forall r :: 0 <= r < j ==> grid[r, i] == rows[i][r]
      {
        grid[j, i] := rows[i][j];
      }
    }
    assert m > 0 ==> m == |board| - 2;
    assert forall r, c :: 0 <= r < m && 0 <= c < m ==> grid[r, c] == board[c + 1][r + 1];
    for i := 0 to m
      invariant forall k :: 0 <= k < i ==> Distinct(InteriorColumn(board, k))
    {
      var line := seq(m, k requires 0 <= k < m reads grid => grid[i, k]);
      assert line == InteriorColumn(board, i);
      var lineSet := Elements(line);
      assert |line| == |lineSet| <==> Distinct(line) by {
        DistinctIffNoShrink(line);
      }
      if |line| != |lineSet| {
        return false;
      }
    }
    ok := true;
  }

  /** The hint rows never affect the column check: no vertical hint is ever compared. */
  lemma ColumnsIgnoreHintRows(board: Board, top: string, bottom: string)
    requires |board| >= 2 && InteriorRowsSquare(board)
    ensures InteriorRowsSquare([top] + board[1..|board| - 1] + [bottom])
    ensures ColumnsUnique([top] + board[1..|board| - 1] + [bottom]) <==> ColumnsUnique(board)
  {
    var other := [top] + board[1..|board| - 1] + [bottom];
    assert forall i :: 1 <= i < |board| - 1 ==> other[i] == board[i];
    forall j | 0 <= j < |board| - 2
      ensures InteriorColumn(other, j) == InteriorColumn(board, j)
    {
    }
  }

  // ---------------------------------------------------------------------------
  // The verdict (check_skyscrapers)
  // ---------------------------------------------------------------------------

  /** The function returns True, or falls off its end and returns None; it never returns False. */
  datatype Verdict = Valid | NoResult

  /** A square board of side at least 3 whose rows each start with '*' or a digit. */
  predicate WellFormed(board: Board) {
    |board| >= 3 &&
    forall i :: 0 <= i < |board| ==>
      |board[i]| == |board| && (board[i][0] == '*' || IsDigit(board[i][0]))
  }

  /** check_skyscrapers on an already loaded board. */
  method CheckSkyscrapers(board: Board) returns (v: Verdict)
    requires WellFormed(board)
    ensures InteriorRowsSquare(board) && HintColumnReadable(board)
    ensures v == Valid <==>
      Finished(board) && RowsUnique(board) && HorizontalHintsHold(board) && ColumnsUnique(board)
  {
    v := NoResult;
    var finished := CheckNotFinishedBoard(board);
    if finished {
      var rowsOk := CheckUniquenessInRows(board);
      if rowsOk {
        var hintsOk := CheckHorizontalVisibility(board);
        if hintsOk {
          var columnsOk := CheckColumns(board);
          if columnsOk {
            v := Valid;
          }
        }
      }
    }
  }
}
