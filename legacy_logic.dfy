/** The legacy `StandardScoreCalculator.Calculate` as the C# code runs it: a
    `for` loop over frames 1..9 that `continue`s after an empty or error
    frame and `break`s at a frame waiting for its second roll, then a
    three-throw loop for frame 10 that resets the pins when they are cleared.
    It is proved to compute `LegacyScoring.Calculate`. */
module LegacyLogic {
  import opened Wrappers
  import opened LegacyScoring
  import Scoring

  /** The frame and cursor a pass of the loop built are those of `NormalStep`
      (stated field by field, which the solver checks faster). */
  ghost predicate Built(s: Step, dto: LegacyFrame, rollIndex: nat, runningScore: int, pending: bool)
  {
    && s.frame.number == dto.number && s.frame.rolls == dto.rolls
    && s.frame.score == dto.score && s.frame.error == dto.error
    && s.next == Scoring.Cursor(rollIndex, runningScore) && s.pending == pending
  }

  /** The frames built so far followed by those still to come. */
  function Join(frames: seq<LegacyFrame>, rest: LegacyTally): LegacyTally
  {
    LegacyTally(frames + rest.frames, rest.end)
  }

  /** One pass of the frame loop on top of the frames built so far. */
  lemma LoopStep(rolls: seq<int>, c: Scoring.Cursor, frameNum: int, frames: seq<LegacyFrame>, s: Step)
    requires c.index <= |rolls| && frameNum < MaxFrames && s == NormalStep(frameNum, rolls, c)
    ensures s.next.index <= |rolls|
    ensures s.pending ==> Join(frames, NormalFrames(rolls, c, frameNum)) == LegacyTally(frames + [s.frame], s.next)
    ensures !s.pending ==> Join(frames, NormalFrames(rolls, c, frameNum))
                           == Join(frames + [s.frame], NormalFrames(rolls, s.next, frameNum + 1))
  {
    NormalFramesUnfold(rolls, c, frameNum);
    if !s.pending {
      var rest := NormalFrames(rolls, s.next, frameNum + 1);
      assert frames + ([s.frame] + rest.frames) == (frames + [s.frame]) + rest.frames;
    }
  }

  /** Frame 10, given the throws it took. */
  lemma FinalFrameOf(rolls: seq<int>, c: Scoring.Cursor, t: Scoring.Throws)
    requires c.index <= |rolls| && t == FinalThrows(rolls, c.index)
    ensures var finished := Scoring.IsFinalFrameFinished(t.taken);
      LegacyScoring.FinalFrame(rolls, c)
      == LegacyFrame(MaxFrames, t.taken, if finished then Some(c.total + Scoring.Sum(t.taken)) else None,
                     match t.fault
                     case Some(fault) => Some(FinalRollError(fault))
                     case None => None)
  {
    FinalFrameTaken(rolls, c, t);
    FinalFrameScore(rolls, c, t);
    FinalFrameError(rolls, c, t);
    assert LegacyScoring.FinalFrame(rolls, c).number == MaxFrames;
  }

  lemma FinalFrameTaken(rolls: seq<int>, c: Scoring.Cursor, t: Scoring.Throws)
    requires c.index <= |rolls| && t == FinalThrows(rolls, c.index)
    ensures LegacyScoring.FinalFrame(rolls, c).rolls == t.taken
  {
  }

  lemma FinalFrameScore(rolls: seq<int>, c: Scoring.Cursor, t: Scoring.Throws)
    requires c.index <= |rolls| && t == FinalThrows(rolls, c.index)
    ensures LegacyScoring.FinalFrame(rolls, c).score
            == if Scoring.IsFinalFrameFinished(t.taken) then Some(c.total + Scoring.Sum(t.taken)) else None
  {
  }

  lemma FinalFrameError(rolls: seq<int>, c: Scoring.Cursor, t: Scoring.Throws)
    requires c.index <= |rolls| && t == FinalThrows(rolls, c.index)
    ensures LegacyScoring.FinalFrame(rolls, c).error
            == match t.fault
               case Some(fault) => Some(FinalRollError(fault))
               case None => None
  {
  }

  class StandardScoreCalculator {
    constructor ()
    {
    }

    /** `Calculate`: the frame records for a roll log. */
    method Calculate(rolls: seq<int>) returns (frames: seq<LegacyFrame>)
      ensures frames == LegacyScoring.Calculate(rolls)
    {
      frames := [];
      var rollIndex: nat := 0;
      var runningScore := 0;
      ghost var normal := NormalFrames(rolls, Scoring.Cursor(0, 0), 1);
      assert normal == Join([], normal);
      for frameNum := 1 to MaxFrames
        invariant rollIndex <= |rolls|
        invariant normal == Join(frames, NormalFrames(rolls, Scoring.Cursor(rollIndex, runningScore), frameNum))
      {
        ghost var c := Scoring.Cursor(rollIndex, runningScore);
        var dto, pending;
        dto, rollIndex, runningScore, pending := ConsumeNormalFrame(frameNum, rolls, rollIndex, runningScore);
        LoopStep(rolls, c, frameNum, frames, Step(dto, Scoring.Cursor(rollIndex, runningScore), pending));
        frames := frames + [dto];
        if pending {
          break;
        }
      }
      assert normal == LegacyTally(frames, Scoring.Cursor(rollIndex, runningScore));

      if rollIndex < |rolls| {
        var lastFrame;
        lastFrame, runningScore := FinalFrame(rolls, rollIndex, runningScore);
        frames := frames + [lastFrame];
      }
    }

    /** One pass of the frame loop (its body, lines that end in `continue`,
        `break` or the closing `frames.Add`): the frame, the new cursor and
        running total, and whether the loop is left. */
    method ConsumeNormalFrame(frameNum: int, rolls: seq<int>, rollIndex: nat, runningScore: int)
      returns (dto: LegacyFrame, nextIndex: nat, nextScore: int, pending: bool)
      requires rollIndex <= |rolls|
      ensures NormalStep(frameNum, rolls, Scoring.Cursor(rollIndex, runningScore))
              == Step(dto, Scoring.Cursor(nextIndex, nextScore), pending)
    {
      ghost var s := NormalStep(frameNum, rolls, Scoring.Cursor(rollIndex, runningScore));
      nextIndex, nextScore, pending := rollIndex, runningScore, false;
      dto := NewFrame(frameNum);

      if nextIndex >= |rolls| {
        return;
      }

      var remainPins := MaxPins;
      var firstRoll := rolls[nextIndex];

      if firstRoll > remainPins {
        dto := dto.(rolls := dto.rolls + [firstRoll]);
        dto := dto.(error := Some(FirstRollError(frameNum, firstRoll)));
        nextIndex := nextIndex + 1;
        assert Built(s, dto, nextIndex, nextScore, false);
        return;
      }

      dto := dto.(rolls := dto.rolls + [firstRoll]);
      remainPins := remainPins - firstRoll;

      if remainPins == 0 {
        if nextIndex + 2 < |rolls| {
          nextScore := nextScore + MaxPins + GetNextTwoRollsScore(rolls, nextIndex);
          dto := dto.(score := Some(nextScore));
        }
        nextIndex := nextIndex + 1;
        assert Built(s, dto, nextIndex, nextScore, false);
      } else {
        if nextIndex + 1 >= |rolls| {
          nextIndex := nextIndex + 1;
          pending := true;
          assert Built(s, dto, nextIndex, nextScore, true);
          return;
        }

        var secondRoll := rolls[nextIndex + 1];

        if secondRoll > remainPins {
          dto := dto.(rolls := dto.rolls + [secondRoll]);
          dto := dto.(error := Some(SumError(frameNum, firstRoll + secondRoll)));
          nextIndex := nextIndex + 2;
          assert Built(s, dto, nextIndex, nextScore, false);
          return;
        }

        dto := dto.(rolls := dto.rolls + [secondRoll]);
        remainPins := remainPins - secondRoll;

        if remainPins == 0 {
          if nextIndex + 2 < |rolls| {
            nextScore := nextScore + MaxPins + GetNextRollScore(rolls, nextIndex + 1);
            dto := dto.(score := Some(nextScore));
          }
        } else {
          nextScore := nextScore + (firstRoll + secondRoll);
          dto := dto.(score := Some(nextScore));
        }

        nextIndex := nextIndex + 2;
        assert Built(s, dto, nextIndex, nextScore, false);
      }
    }

    /** Frame 10 (the `if (rollIndex < rolls.Count)` block): its throws, then
        its score once it is finished. */
    method FinalFrame(rolls: seq<int>, start: nat, total: int) returns (lastFrame: LegacyFrame, runningScore: int)
      requires start < |rolls|
      ensures lastFrame == LegacyScoring.FinalFrame(rolls, Scoring.Cursor(start, total))
      ensures runningScore == lastFrame.score.GetOr(total)
    {
      runningScore := total;
      lastFrame := FinalThrowLoop(rolls, start);
      if Scoring.IsFinalFrameFinished(lastFrame.rolls) {
        runningScore := runningScore + Scoring.Sum(lastFrame.rolls);
        lastFrame := lastFrame.(score := Some(runningScore));
      }
      FinalFrameOf(rolls, Scoring.Cursor(start, total), FinalThrows(rolls, start));
    }

    /** The three-throw loop of frame 10, the pins set up again when all are
        down: the frame's rolls and error, no score yet. */
    method FinalThrowLoop(rolls: seq<int>, start: nat) returns (lastFrame: LegacyFrame)
      requires start <= |rolls|
      ensures var t := FinalThrows(rolls, start);
        && lastFrame.number == MaxFrames && lastFrame.rolls == t.taken && lastFrame.score.None?
        && lastFrame.error == match t.fault
                              case Some(f) => Some(FinalRollError(f))
                              case None => None
    {
      lastFrame := NewFrame(MaxFrames);
      var rollIndex := start;
      var currentPins := MaxPins;
      ghost var fault: Option<Scoring.Fault> := None;
      ghost var t := FinalThrows(rolls, start);
      for i := 0 to 3
        invariant rollIndex == start + i <= |rolls|
        invariant lastFrame.number == MaxFrames && lastFrame.rolls == rolls[start..rollIndex]
        invariant lastFrame.score.None? && lastFrame.error.None?
        invariant i == 0 ==> currentPins == MaxPins
        invariant i >= 1 ==> rolls[start] <= MaxPins
        invariant i == 1 ==> currentPins == Scoring.Reset(MaxPins - rolls[start])
        invariant i >= 2 ==> rolls[start + 1] == Scoring.Reset(MaxPins - rolls[start])
        invariant i == 2 ==> currentPins == MaxPins
        invariant i == 3 ==> rolls[start + 2] <= MaxPins
        invariant fault.None?
      {
        if rollIndex >= |rolls| {
          assert t.taken == lastFrame.rolls && t.fault == fault;
          break;
        }

        var roll := rolls[rollIndex];

        if roll > currentPins {
          lastFrame := lastFrame.(error := Some(FinalRollError(Scoring.Fault(i + 1, roll, currentPins))));
          lastFrame := lastFrame.(rolls := lastFrame.rolls + [roll]);
          fault := Some(Scoring.Fault(i + 1, roll, currentPins));
          rollIndex := rollIndex + 1;
          assert lastFrame.rolls == rolls[start..rollIndex];
          assert t.taken == lastFrame.rolls && t.fault == fault;
          break;
        }

        lastFrame := lastFrame.(rolls := lastFrame.rolls + [roll]);
        currentPins := currentPins - roll;
        rollIndex := rollIndex + 1;
        assert lastFrame.rolls == rolls[start..rollIndex];

        if currentPins == 0 {
          currentPins := MaxPins;
        } else if i == 1 {
          assert t.taken == lastFrame.rolls && t.fault == fault;
          break;
        }
      }
      assert t.taken == lastFrame.rolls && t.fault == fault;
    }

    /** `GetNextTwoRollsScore`: the two rolls after a strike. */
    function GetNextTwoRollsScore(rolls: seq<int>, index: nat): int
      requires index + 2 < |rolls|
    {
      rolls[index + 1] + rolls[index + 2]
    }

    /** `GetNextRollScore`: the roll after a spare's second roll. */
    function GetNextRollScore(rolls: seq<int>, currentIndex: nat): int
      requires currentIndex + 1 < |rolls|
    {
      rolls[currentIndex + 1]
    }
  }
}
