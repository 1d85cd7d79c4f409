/** The games of the calculator's test file, played through the reference
    definition with ten frames, and games that show how errors inside a game
    are handled.  Each game lemma has a companion `...Before` lemma that
    walks the Normal frames and says where the Final frame starts. */
module ScoringExamples {
  import opened Wrappers
  import opened Core
  import opened Scoring
  import opened ScoringFacts

  /** Twenty gutter balls score 0. */
  lemma AllGutters(rolls: seq<int>)
    requires |rolls| == 20 && forall i :: 0 <= i < |rolls| ==> rolls[i] == 0
    ensures LastScore(Calculate(rolls, 10)) == Some(0)
  {
    AllGuttersRolls(rolls);
    AllGuttersBefore(rolls);
    OpenFinish(rolls, 10, Cursor(18, 0), 0);
  }

  lemma AllGuttersBefore(rolls: seq<int>)
    requires |rolls| == 20 && forall i :: 0 <= i < |rolls| ==> rolls[i] == 0
    ensures Before(rolls, 9) == Cursor(18, 0)
  {
    TimesIsProduct(9, 0);
    OpenRun(rolls, 0, Cursor(0, 0), 9, 0, 0, Cursor(18, 0));
  }

  lemma AllGuttersRolls(rolls: seq<int>)
    requires |rolls| == 20 && forall i :: 0 <= i < |rolls| ==> rolls[i] == 0
    ensures AllInRange(rolls) && rolls[18] == 0 && rolls[19] == 0
  {
  }

  /** Twelve strikes score 300. */
  lemma PerfectGame(rolls: seq<int>)
    requires |rolls| == 12 && forall i :: 0 <= i < |rolls| ==> rolls[i] == 10
    ensures LastScore(Calculate(rolls, 10)) == Some(300)
  {
    PerfectGameRolls(rolls);
    PerfectGameBefore(rolls);
    ThreeFinish(rolls, 10, Cursor(9, 270), 300);
  }

  lemma PerfectGameBefore(rolls: seq<int>)
    requires |rolls| == 12 && forall i :: 0 <= i < |rolls| ==> rolls[i] == 10
    ensures Before(rolls, 9) == Cursor(9, 270)
  {
    StrikeRun(rolls, 0, Cursor(0, 0), 9, Cursor(9, 270));
  }

  lemma PerfectGameRolls(rolls: seq<int>)
    requires |rolls| == 12 && forall i :: 0 <= i < |rolls| ==> rolls[i] == 10
    ensures AllInRange(rolls) && rolls[9] == 10 && rolls[10] == 10 && rolls[11] == 10
  {
  }

  /** A spare, then 3 and gutters, scores 16. */
  lemma SpareBonus(rolls: seq<int>)
    requires |rolls| == 20 && rolls[0] == 5 && rolls[1] == 5 && rolls[2] == 3
    requires forall i :: 3 <= i < |rolls| ==> rolls[i] == 0
    ensures LastScore(Calculate(rolls, 10)) == Some(16)
  {
    SpareBonusRolls(rolls);
    SpareBonusBefore(rolls);
    OpenFinish(rolls, 10, Cursor(18, 16), 16);
  }

  lemma SpareBonusBefore(rolls: seq<int>)
    requires |rolls| == 20 && rolls[0] == 5 && rolls[1] == 5 && rolls[2] == 3
    requires forall i :: 3 <= i < |rolls| ==> rolls[i] == 0
    ensures Before(rolls, 9) == Cursor(18, 16)
  {
    SpareAdvance(rolls, 1, Cursor(0, 0), Cursor(2, 13));
    OpenAdvance(rolls, 2, Cursor(2, 13), Cursor(4, 16));
    TimesIsProduct(7, 0);
    OpenRun(rolls, 2, Cursor(4, 16), 9, 0, 0, Cursor(18, 16));
  }

  lemma SpareBonusRolls(rolls: seq<int>)
    requires |rolls| == 20 && rolls[0] == 5 && rolls[1] == 5 && rolls[2] == 3
    requires forall i :: 3 <= i < |rolls| ==> rolls[i] == 0
    ensures AllInRange(rolls) && rolls[18] == 0 && rolls[19] == 0
  {
  }

  /** Nine pins and a miss in every frame score 90. */
  lemma NineEveryFrame(rolls: seq<int>)
    requires |rolls| == 20 && forall i :: 0 <= i < |rolls| ==> rolls[i] == if i % 2 == 0 then 9 else 0
    ensures LastScore(Calculate(rolls, 10)) == Some(90)
  {
    NineEveryFrameRolls(rolls);
    NineEveryFrameBefore(rolls);
    OpenFinish(rolls, 10, Cursor(18, 81), 90);
  }

  lemma NineEveryFrameBefore(rolls: seq<int>)
    requires |rolls| == 20 && forall i :: 0 <= i < |rolls| ==> rolls[i] == if i % 2 == 0 then 9 else 0
    ensures Before(rolls, 9) == Cursor(18, 81)
  {
    TimesIsProduct(9, 9);
    OpenRun(rolls, 0, Cursor(0, 0), 9, 9, 0, Cursor(18, 81));
  }

  lemma NineEveryFrameRolls(rolls: seq<int>)
    requires |rolls| == 20 && forall i :: 0 <= i < |rolls| ==> rolls[i] == if i % 2 == 0 then 9 else 0
    ensures AllInRange(rolls) && rolls[18] == 9 && rolls[19] == 0
  {
  }

  /** Spares of 5, 5 in every frame and a bonus 5 score 150. */
  lemma AllFives(rolls: seq<int>)
    requires |rolls| == 21 && forall i :: 0 <= i < |rolls| ==> rolls[i] == 5
    ensures LastScore(Calculate(rolls, 10)) == Some(150)
  {
    AllFivesRolls(rolls);
    AllFivesBefore(rolls);
    ThreeFinish(rolls, 10, Cursor(18, 135), 150);
  }

  lemma AllFivesBefore(rolls: seq<int>)
    requires |rolls| == 21 && forall i :: 0 <= i < |rolls| ==> rolls[i] == 5
    ensures Before(rolls, 9) == Cursor(18, 135)
  {
    TimesIsProduct(9, 15);
    SpareRun(rolls, 0, Cursor(0, 0), 9, 5, Cursor(18, 135));
  }

  lemma AllFivesRolls(rolls: seq<int>)
    requires |rolls| == 21 && forall i :: 0 <= i < |rolls| ==> rolls[i] == 5
    ensures AllInRange(rolls) && rolls[18] == 5 && rolls[19] == 5 && rolls[20] == 5
  {
  }

  /** Nine strikes and an open tenth score 250. */
  lemma OpenTenth(rolls: seq<int>)
    requires |rolls| == 11 && forall i :: 0 <= i < 9 ==> rolls[i] == 10
    requires rolls[9] == 2 && rolls[10] == 2
    ensures LastScore(Calculate(rolls, 10)) == Some(250)
  {
    OpenTenthRolls(rolls);
    OpenTenthBefore(rolls);
    OpenFinish(rolls, 10, Cursor(9, 246), 250);
  }

  lemma OpenTenthBefore(rolls: seq<int>)
    requires |rolls| == 11 && forall i :: 0 <= i < 9 ==> rolls[i] == 10
    requires rolls[9] == 2 && rolls[10] == 2
    ensures Before(rolls, 9) == Cursor(9, 246)
  {
    StrikeRun(rolls, 0, Cursor(0, 0), 7, Cursor(7, 210));
    StrikeAdvance(rolls, 8, Cursor(7, 210), Cursor(8, 232));
    StrikeAdvance(rolls, 9, Cursor(8, 232), Cursor(9, 246));
  }

  lemma OpenTenthRolls(rolls: seq<int>)
    requires |rolls| == 11 && forall i :: 0 <= i < 9 ==> rolls[i] == 10
    requires rolls[9] == 2 && rolls[10] == 2
    ensures AllInRange(rolls) && rolls[9] == 2 && rolls[10] == 2
  {
  }

  /** Nine strikes and a tenth of spare then strike score 275. */
  lemma SpareTenth(rolls: seq<int>)
    requires |rolls| == 12 && forall i :: 0 <= i < 9 ==> rolls[i] == 10
    requires rolls[9] == 5 && rolls[10] == 5 && rolls[11] == 10
    ensures LastScore(Calculate(rolls, 10)) == Some(275)
  {
    SpareTenthRolls(rolls);
    SpareTenthBefore(rolls);
    ThreeFinish(rolls, 10, Cursor(9, 255), 275);
  }

  lemma SpareTenthBefore(rolls: seq<int>)
    requires |rolls| == 12 && forall i :: 0 <= i < 9 ==> rolls[i] == 10
    requires rolls[9] == 5 && rolls[10] == 5 && rolls[11] == 10
    ensures Before(rolls, 9) == Cursor(9, 255)
  {
    StrikeRun(rolls, 0, Cursor(0, 0), 7, Cursor(7, 210));
    StrikeAdvance(rolls, 8, Cursor(7, 210), Cursor(8, 235));
    StrikeAdvance(rolls, 9, Cursor(8, 235), Cursor(9, 255));
  }

  lemma SpareTenthRolls(rolls: seq<int>)
    requires |rolls| == 12 && forall i :: 0 <= i < 9 ==> rolls[i] == 10
    requires rolls[9] == 5 && rolls[10] == 5 && rolls[11] == 10
    ensures AllInRange(rolls) && rolls[9] == 5 && rolls[10] == 5 && rolls[11] == 10
  {
  }

  /** Ten strikes, then 2 and 2, score 276. */
  lemma StrikeTenth(rolls: seq<int>)
    requires |rolls| == 12 && forall i :: 0 <= i < 10 ==> rolls[i] == 10
    requires rolls[10] == 2 && rolls[11] == 2
    ensures LastScore(Calculate(rolls, 10)) == Some(276)
  {
    StrikeTenthRolls(rolls);
    StrikeTenthBefore(rolls);
    ThreeFinish(rolls, 10, Cursor(9, 262), 276);
  }

  lemma StrikeTenthBefore(rolls: seq<int>)
    requires |rolls| == 12 && forall i :: 0 <= i < 10 ==> rolls[i] == 10
    requires rolls[10] == 2 && rolls[11] == 2
    ensures Before(rolls, 9) == Cursor(9, 262)
  {
    StrikeRun(rolls, 0, Cursor(0, 0), 8, Cursor(8, 240));
    StrikeAdvance(rolls, 9, Cursor(8, 240), Cursor(9, 262));
  }

  lemma StrikeTenthRolls(rolls: seq<int>)
    requires |rolls| == 12 && forall i :: 0 <= i < 10 ==> rolls[i] == 10
    requires rolls[10] == 2 && rolls[11] == 2
    ensures AllInRange(rolls) && rolls[9] == 10 && rolls[10] == 2 && rolls[11] == 2
  {
  }

  /** Six strikes, an open frame and a strong finish score 237. */
  lemma MixedGame(rolls: seq<int>)
    requires |rolls| == 13 && forall i :: 0 <= i < 6 ==> rolls[i] == 10
    requires rolls[6] == 2 && rolls[7] == 3 && rolls[8] == 10 && rolls[9] == 10 && rolls[10] == 10 && rolls[11] == 5 && rolls[12] == 5
    ensures LastScore(Calculate(rolls, 10)) == Some(237)
  {
    MixedGameRolls(rolls);
    MixedGameBefore(rolls);
    ThreeFinish(rolls, 10, Cursor(10, 217), 237);
  }

  lemma MixedGameBefore(rolls: seq<int>)
    requires |rolls| == 13 && forall i :: 0 <= i < 6 ==> rolls[i] == 10
    requires rolls[6] == 2 && rolls[7] == 3 && rolls[8] == 10 && rolls[9] == 10 && rolls[10] == 10 && rolls[11] == 5 && rolls[12] == 5
    ensures Before(rolls, 9) == Cursor(10, 217)
  {
    StrikeRun(rolls, 0, Cursor(0, 0), 4, Cursor(4, 120));
    StrikeAdvance(rolls, 5, Cursor(4, 120), Cursor(5, 142));
    StrikeAdvance(rolls, 6, Cursor(5, 142), Cursor(6, 157));
    OpenAdvance(rolls, 7, Cursor(6, 157), Cursor(8, 162));
    StrikeAdvance(rolls, 8, Cursor(8, 162), Cursor(9, 192));
    StrikeAdvance(rolls, 9, Cursor(9, 192), Cursor(10, 217));
  }

  lemma MixedGameRolls(rolls: seq<int>)
    requires |rolls| == 13 && forall i :: 0 <= i < 6 ==> rolls[i] == 10
    requires rolls[6] == 2 && rolls[7] == 3 && rolls[8] == 10 && rolls[9] == 10 && rolls[10] == 10 && rolls[11] == 5 && rolls[12] == 5
    ensures AllInRange(rolls) && rolls[10] == 10 && rolls[11] == 5 && rolls[12] == 5
  {
  }

  /** Nine strikes and an open tenth followed by one more roll: the game
      still scores 250 and the roll left over is reported by an eleventh
      frame. */
  lemma OpenTenthThenExtraRoll(rolls: seq<int>)
    requires |rolls| == 12 && forall i :: 0 <= i < 9 ==> rolls[i] == 10
    requires rolls[9] == 2 && rolls[10] == 2 && rolls[11] == 2
    ensures var r := Calculate(rolls, 10);
      LastScore(r) == Some(250) && |r| == 11 && HasError(r[10])
  {
    OpenTenthThenExtraRollRolls(rolls);
    OpenTenthThenExtraRollBefore(rolls);
    OpenFinish(rolls, 10, Cursor(9, 246), 250);
    FinalOpenStep(rolls, 10, Cursor(9, 246));
    FrameLayout(rolls, 10);
  }

  lemma OpenTenthThenExtraRollBefore(rolls: seq<int>)
    requires |rolls| == 12 && forall i :: 0 <= i < 9 ==> rolls[i] == 10
    requires rolls[9] == 2 && rolls[10] == 2 && rolls[11] == 2
    ensures Before(rolls, 9) == Cursor(9, 246)
  {
    StrikeRun(rolls, 0, Cursor(0, 0), 7, Cursor(7, 210));
    StrikeAdvance(rolls, 8, Cursor(7, 210), Cursor(8, 232));
    StrikeAdvance(rolls, 9, Cursor(8, 232), Cursor(9, 246));
  }

  lemma OpenTenthThenExtraRollRolls(rolls: seq<int>)
    requires |rolls| == 12 && forall i :: 0 <= i < 9 ==> rolls[i] == 10
    requires rolls[9] == 2 && rolls[10] == 2 && rolls[11] == 2
    ensures AllInRange(rolls) && rolls[9] == 2 && rolls[10] == 2
  {
  }

  /** Six strikes: frames 5 and 6 wait for their bonus rolls, so the last
      score is frame 4's, 120. */
  lemma SixStrikes(rolls: seq<int>)
    requires |rolls| == 6 && forall i :: 0 <= i < |rolls| ==> rolls[i] == 10
    ensures LastScore(Calculate(rolls, 10)) == Some(120)
  {
    StrikeRun(rolls, 0, Cursor(0, 0), 3, Cursor(3, 90));
    StrikeStep(rolls, 3, Cursor(3, 90));
    StrikeAdvance(rolls, 4, Cursor(3, 90), Cursor(4, 120));
    PendingStrikeStep(rolls, 4, Cursor(4, 120));
    PendingStrikeAdvance(rolls, 5, Cursor(4, 120), Cursor(5, 120));
    PendingStrikeStep(rolls, 5, Cursor(5, 120));
    PendingStrikeAdvance(rolls, 6, Cursor(5, 120), Cursor(6, 120));
    EndRun(rolls, 6, Cursor(6, 120), 10);
    FinalEndStep(rolls, 10, Cursor(6, 120));
    forall j | 3 < j < 10 ensures FrameAt(rolls, 10, j).score.None? {
      assert j == 4 || j == 5 || 6 <= j < 9 || j == 9;
    }
    LastScoreOfGame(rolls, 10, 3);
  }

  /** Three strikes: only the first frame has its bonus rolls, at 30. */
  lemma ThreeStrikes(rolls: seq<int>)
    requires |rolls| == 3 && forall i :: 0 <= i < |rolls| ==> rolls[i] == 10
    ensures LastScore(Calculate(rolls, 10)) == Some(30)
  {
    StrikeStep(rolls, 0, Cursor(0, 0));
    StrikeAdvance(rolls, 1, Cursor(0, 0), Cursor(1, 30));
    PendingStrikeStep(rolls, 1, Cursor(1, 30));
    PendingStrikeAdvance(rolls, 2, Cursor(1, 30), Cursor(2, 30));
    PendingStrikeStep(rolls, 2, Cursor(2, 30));
    PendingStrikeAdvance(rolls, 3, Cursor(2, 30), Cursor(3, 30));
    EndRun(rolls, 3, Cursor(3, 30), 10);
    FinalEndStep(rolls, 10, Cursor(3, 30));
    forall j | 0 < j < 10 ensures FrameAt(rolls, 10, j).score.None? {
      assert j == 1 || j == 2 || 3 <= j < 9 || j == 9;
    }
    LastScoreOfGame(rolls, 10, 0);
  }

  // -----------------------------------------------------------------------
  // Errors inside a game

  /** A second roll above the standing pins makes frame 1 an unscored error
      frame, and the game goes on: frame 2 scores 7. */
  lemma ErrorFrameDoesNotStopGame(rolls: seq<int>)
    requires |rolls| == 4 && rolls[0] == 5 && rolls[1] == 6 && rolls[2] == 3 && rolls[3] == 4
    ensures var r := Calculate(rolls, 10);
      && |r| == 10 && HasError(r[0]) && r[0].score.None? && r[1].score == Some(7)
      && LastScore(r) == Some(7)
  {
    ErrorFrameDoesNotStopGameRolls(rolls);
    OverflowStep(rolls, 0, Cursor(0, 0));
    OverflowAdvance(rolls, 1, Cursor(0, 0), Cursor(2, 0));
    OpenStep(rolls, 1, Cursor(2, 0));
    OpenAdvance(rolls, 2, Cursor(2, 0), Cursor(4, 7));
    EndRun(rolls, 2, Cursor(4, 7), 10);
    FinalEndStep(rolls, 10, Cursor(4, 7));
    forall j | 1 < j < 10 ensures FrameAt(rolls, 10, j).score.None? {
      assert 2 <= j < 9 || j == 9;
    }
    LastScoreOfGame(rolls, 10, 1);
    FramesAt(rolls, 10);
    FrameLayout(rolls, 10);
  }

  lemma ErrorFrameDoesNotStopGameRolls(rolls: seq<int>)
    requires |rolls| == 4 && rolls[0] == 5 && rolls[1] == 6 && rolls[2] == 3 && rolls[3] == 4
    ensures AllInRange(rolls)
  {
  }

  /** A third throw in the Final frame above the standing pins is an error,
      yet the frame is finished and scored: ten strikes, then 3 and 8, score
      284. */
  lemma FinalErrorStillScored(rolls: seq<int>)
    requires |rolls| == 12 && (forall i :: 0 <= i < 10 ==> rolls[i] == 10) && rolls[10] == 3 && rolls[11] == 8
    ensures var r := Calculate(rolls, 10);
      LastScore(r) == Some(284) && HasError(r[9]) && r[9].score == Some(284)
  {
    FinalErrorStillScoredRolls(rolls);
    FinalErrorStillScoredBefore(rolls);
    FinalThreeStep(rolls, 10, Cursor(9, 263));
    LastScoreIsFinal(rolls, 10, Cursor(9, 263), 284);
    CalculateLayout(rolls, 10);
  }

  lemma FinalErrorStillScoredBefore(rolls: seq<int>)
    requires |rolls| == 12 && (forall i :: 0 <= i < 10 ==> rolls[i] == 10) && rolls[10] == 3 && rolls[11] == 8
    ensures Before(rolls, 9) == Cursor(9, 263)
  {
    StrikeRun(rolls, 0, Cursor(0, 0), 8, Cursor(8, 240));
    StrikeAdvance(rolls, 9, Cursor(8, 240), Cursor(9, 263));
  }

  lemma FinalErrorStillScoredRolls(rolls: seq<int>)
    requires |rolls| == 12 && (forall i :: 0 <= i < 10 ==> rolls[i] == 10) && rolls[10] == 3 && rolls[11] == 8
    ensures AllInRange(rolls) && rolls[9] == 10 && rolls[10] == 3 && rolls[11] == 8
  {
  }

  // -----------------------------------------------------------------------
  // The invalid logs of the calculator's test file: each reports an error,
  // and the first error frame has no score

  /** A roll of 11. */
  lemma RollAboveTen(rolls: seq<int>)
    requires |rolls| == 1 && rolls[0] == 11
    ensures var r := Calculate(rolls, 10); FirstError(r).Some? && FirstError(r).value.score.None?
  {
    assert !InRange(rolls[0]);
    OutOfRangeFirstError(rolls, 10);
  }

  /** A roll of -5. */
  lemma NegativeRoll(rolls: seq<int>)
    requires |rolls| == 1 && rolls[0] == -5
    ensures var r := Calculate(rolls, 10); FirstError(r).Some? && FirstError(r).value.score.None?
  {
    assert !InRange(rolls[0]);
    OutOfRangeFirstError(rolls, 10);
  }

  /** 5 and 6 in frame 1. */
  lemma FirstFrameOverflow(rolls: seq<int>)
    requires |rolls| == 2 && rolls[0] == 5 && rolls[1] == 6
    ensures var r := Calculate(rolls, 10); FirstError(r).Some? && FirstError(r).value.score.None?
  {
    FirstFrameOverflowRolls(rolls);
    OverflowStep(rolls, 0, Cursor(0, 0));
    FramesAt(rolls, 10);
    FirstErrorAt(Calculate(rolls, 10), 0);
  }

  lemma FirstFrameOverflowRolls(rolls: seq<int>)
    requires |rolls| == 2 && rolls[0] == 5 && rolls[1] == 6
    ensures AllInRange(rolls)
  {
  }

  /** Nine strikes, an open tenth of 2 and 2, and two rolls too many. */
  lemma ExtraRollsAfterOpenTenth(rolls: seq<int>)
    requires |rolls| == 13 && (forall i :: 0 <= i < 9 ==> rolls[i] == 10)
    requires rolls[9] == 2 && rolls[10] == 2 && rolls[11] == 2 && rolls[12] == 2
    ensures var r := Calculate(rolls, 10); FirstError(r).Some? && FirstError(r).value.score.None?
  {
    ExtraRollsAfterOpenTenthRolls(rolls);
    ExtraRollsAfterOpenTenthBefore(rolls);
    FinalOpenStep(rolls, 10, Cursor(9, 246));
    FrameLayout(rolls, 10);
    FirstErrorOfGame(rolls, 10);
  }

  lemma ExtraRollsAfterOpenTenthBefore(rolls: seq<int>)
    requires |rolls| == 13 && (forall i :: 0 <= i < 9 ==> rolls[i] == 10)
    requires rolls[9] == 2 && rolls[10] == 2 && rolls[11] == 2 && rolls[12] == 2
    ensures Before(rolls, 9) == Cursor(9, 246)
  {
    StrikeRun(rolls, 0, Cursor(0, 0), 7, Cursor(7, 210));
    StrikeAdvance(rolls, 8, Cursor(7, 210), Cursor(8, 232));
    StrikeAdvance(rolls, 9, Cursor(8, 232), Cursor(9, 246));
  }

  lemma ExtraRollsAfterOpenTenthRolls(rolls: seq<int>)
    requires |rolls| == 13 && (forall i :: 0 <= i < 9 ==> rolls[i] == 10)
    requires rolls[9] == 2 && rolls[10] == 2 && rolls[11] == 2 && rolls[12] == 2
    ensures AllInRange(rolls)
  {
  }

  /** Nine strikes, then 5 and 10 in the Final frame, and one more strike. */
  lemma FinalOverflow(rolls: seq<int>)
    requires |rolls| == 12 && (forall i :: 0 <= i < 9 ==> rolls[i] == 10)
    requires rolls[9] == 5 && rolls[10] == 10 && rolls[11] == 10
    ensures var r := Calculate(rolls, 10); FirstError(r).Some? && FirstError(r).value.score.None?
  {
    FinalOverflowRolls(rolls);
    FinalOverflowBefore(rolls);
    FinalOverflowStep(rolls, 10, Cursor(9, 260));
    FrameLayout(rolls, 10);
    FirstErrorOfGame(rolls, 10);
  }

  lemma FinalOverflowBefore(rolls: seq<int>)
    requires |rolls| == 12 && (forall i :: 0 <= i < 9 ==> rolls[i] == 10)
    requires rolls[9] == 5 && rolls[10] == 10 && rolls[11] == 10
    ensures Before(rolls, 9) == Cursor(9, 260)
  {
    StrikeRun(rolls, 0, Cursor(0, 0), 7, Cursor(7, 210));
    StrikeAdvance(rolls, 8, Cursor(7, 210), Cursor(8, 235));
    StrikeAdvance(rolls, 9, Cursor(8, 235), Cursor(9, 260));
  }

  lemma FinalOverflowRolls(rolls: seq<int>)
    requires |rolls| == 12 && (forall i :: 0 <= i < 9 ==> rolls[i] == 10)
    requires rolls[9] == 5 && rolls[10] == 10 && rolls[11] == 10
    ensures AllInRange(rolls) && rolls[9] == 5 && rolls[10] == 10
  {
  }
}
