/**
  The examples the program's docstrings give for each check, stated over the
  predicates the check methods are proved against, and the sample board
  carried through the whole of CheckSkyscrapers.
 */
module Doctests {
  import opened Text
  import opened Skyscrapers

  /** The finished, winning 7-by-7 board used throughout the docstrings. */
  const Sample: Board := ["***21**", "412453*", "423145*", "*543215", "*35214*", "*41532*", "*2*1***"]

  /**
    The counting rule written out for five buildings, the width of the sample
    board: the second and third are compared with the first, the fourth with
    the first two, the fifth with the first three.
   */
  lemma LaggingCountFive(b: seq<char>)
    requires |b| == 5
    ensures LaggingCount(b) == 1
      + (if b[1] > b[0] then 1 else 0)
      + (if b[2] > b[0] then 1 else 0)
      + (if b[3] > b[0] && b[3] > b[1] then 1 else 0)
      + (if b[4] > b[0] && b[4] > b[1] && b[4] > b[2] then 1 else 0)
  {
    LaggingCountStep(b);
    LaggingCountStep(b[..4]);
    LaggingCountStep(b[..3]);
    LaggingCountStep(b[..2]);
    assert b[..4][..3] == b[..3] && b[..3][..2] == b[..2] && b[..2][..1] == b[..1];
  }

  /** left_to_right_check("412453*", 4) is True and left_to_right_check("452453*", 5) is False. */
  lemma LeftToRightExamples()
    ensures LaggingCount(Inner("412453*")) == 4
    ensures LaggingCount(Inner("452453*")) == 1
  {
    assert Inner("412453*") == "12453";
    LaggingCountFive("12453");
    assert Inner("452453*") == "52453";
    LaggingCountFive("52453");
  }

  /** Each interior row of the sample parses once '*' is stripped. */
  lemma SampleIsFinished()
    ensures Finished(Sample)
  {
    forall i | 1 <= i < |Sample| - 1 ensures FilledRow(Sample[i]) {
      if i == 1 { assert FilledRow(Sample[1]); }
      else if i == 2 { assert FilledRow(Sample[2]); }
      else if i == 3 { assert FilledRow(Sample[3]); }
      else if i == 4 { assert FilledRow(Sample[4]); }
      else { assert FilledRow(Sample[5]); }
    }
    FilledBoardIsFinished(Sample);
  }

  /** A '?' left anywhere in an interior row makes the board unfinished. */
  lemma UnfinishedExamples()
    ensures !Finished(["***21**", "4?????*", "4?????*", "*?????5", "*?????*", "*?????*", "*2*1***"])
    ensures !Finished(["***21**", "412453*", "423145*", "*5?3215", "*35214*", "*41532*", "*2*1***"])
  {
    UnfilledCellMeansUnfinished(["***21**", "4?????*", "4?????*", "*?????5", "*?????*", "*?????*", "*2*1***"], 1, 1);
    UnfilledCellMeansUnfinished(["***21**", "412453*", "423145*", "*5?3215", "*35214*", "*41532*", "*2*1***"], 3, 2);
  }

  lemma SampleRowsUnique()
    ensures RowsUnique(Sample)
  {
    forall i | 1 <= i < |Sample| - 1 ensures Distinct(Inner(Sample[i])) {
      if i == 1 { assert Distinct(Inner(Sample[1])) by { assert Inner(Sample[1]) == "12453"; } }
      else if i == 2 { assert Distinct(Inner(Sample[2])) by { assert Inner(Sample[2]) == "23145"; } }
      else if i == 3 { assert Distinct(Inner(Sample[3])) by { assert Inner(Sample[3]) == "54321"; } }
      else if i == 4 { assert Distinct(Inner(Sample[4])) by { assert Inner(Sample[4]) == "35214"; } }
      else { assert Distinct(Inner(Sample[5])) by { assert Inner(Sample[5]) == "41532"; } }
    }
  }

  /** A repeated height in an interior row breaks row uniqueness. */
  lemma RepeatedInRowExamples()
    ensures !RowsUnique(["***21**", "452453*", "423145*", "*543215", "*35214*", "*41532*", "*2*1***"])
    ensures !RowsUnique(["***21**", "412453*", "423145*", "*553215", "*35214*", "*41532*", "*2*1***"])
  {
    var b1: Board := ["***21**", "452453*", "423145*", "*543215", "*35214*", "*41532*", "*2*1***"];
    assert Inner(b1[1])[0] == Inner(b1[1])[3];
    var b2: Board := ["***21**", "412453*", "423145*", "*553215", "*35214*", "*41532*", "*2*1***"];
    assert Inner(b2[3])[0] == Inner(b2[3])[1];
  }

  lemma SampleHintsHold()
    ensures HintColumnReadable(Sample) && HorizontalHintsHold(Sample)
  {
    assert LaggingCount(Inner(Sample[1])) == 4 by {
      assert Inner(Sample[1]) == "12453";
      LaggingCountFive("12453");
    }
    assert LaggingCount(Inner(Sample[2])) == 4 by {
      assert Inner(Sample[2]) == "23145";
      LaggingCountFive("23145");
    }
  }

  /** A row whose counted buildings differ from its left-hand hint fails the horizontal check. */
  lemma WrongHintExample()
    ensures var b := ["***21**", "452453*", "423145*", "*543215", "*35214*", "*41532*", "*2*1***"];
      HintColumnReadable(b) && !HorizontalHintsHold(b)
  {
    var b := ["***21**", "452453*", "423145*", "*543215", "*35214*", "*41532*", "*2*1***"];
    assert LaggingCount(Inner(b[1])) != DigitValue(b[1][0]) by {
      assert Inner(b[1]) == "52453";
      LaggingCountFive("52453");
    }
  }

  lemma WrongHintOtherExample()
    ensures var b := ["***21**", "452413*", "423145*", "*543215", "*35214*", "*41532*", "*2*1***"];
      HintColumnReadable(b) && !HorizontalHintsHold(b)
  {
    var b := ["***21**", "452413*", "423145*", "*543215", "*35214*", "*41532*", "*2*1***"];
    assert LaggingCount(Inner(b[1])) != DigitValue(b[1][0]) by {
      assert Inner(b[1]) == "52413";
      LaggingCountFive("52413");
    }
  }

  /**
    Row 0 is scanned like any other row: a digit in its first cell is taken as a
    hint for the hint cells that follow it.
   */
  lemma TopRowIsScanned()
    ensures var b := ["3****", "*123*", "*231*", "*312*", "*****"];
      HintColumnReadable(b) && !HorizontalHintsHold(b)
  {
    var b := ["3****", "*123*", "*231*", "*312*", "*****"];
    assert Inner(b[0]) == "***";
    assert LaggingCount("***") == 1 by {
      LaggingCountStep("***");
      LaggingCountStep("**");
      assert "***"[..2] == "**" && "**"[..1] == "*";
    }
    assert LaggingCount(Inner(b[0])) != DigitValue(b[0][0]);
  }

  lemma SampleColumnsUnique()
    ensures InteriorRowsSquare(Sample) && ColumnsUnique(Sample)
  {
  }

  /** A repeated height in an interior column breaks column uniqueness. */
  lemma RepeatedInColumnExamples()
    ensures var b := ["***21**", "412453*", "423145*", "*543215", "*35214*", "*41232*", "*2*1***"];
      InteriorRowsSquare(b) && !ColumnsUnique(b)
    ensures var b := ["***21**", "412553*", "423145*", "*543215", "*35214*", "*41532*", "*2*1***"];
      InteriorRowsSquare(b) && !ColumnsUnique(b)
  {
    var b1: Board := ["***21**", "412453*", "423145*", "*543215", "*35214*", "*41232*", "*2*1***"];
    assert InteriorColumn(b1, 2)[3] == InteriorColumn(b1, 2)[4];
    var b2: Board := ["***21**", "412553*", "423145*", "*543215", "*35214*", "*41532*", "*2*1***"];
    assert InteriorColumn(b2, 2)[0] == InteriorColumn(b2, 2)[4];
  }

  /** check_skyscrapers on the sample board gives True. */
  method SampleVerdict() returns (v: Verdict)
    ensures v == Valid
  {
    SampleIsFinished();
    SampleRowsUnique();
    SampleHintsHold();
    SampleColumnsUnique();
    v := CheckSkyscrapers(Sample);
  }
}
