/** `StandardScoreCalculator` as the C# code runs it: a `for` loop over the
    Normal frames, a `while` loop over the tries of each, a three-throw loop
    for the Final frame, and the cursor and running total passed by `ref`
    (here: passed in and handed back).  Each method is proved to compute the
    reference definition in module `Scoring`. */
module Logic {
  import opened Wrappers
  import opened Core
  import Scoring

  const MaxPins := 10

  /** The frames built so far followed by those still to come. */
  function Join(frames: seq<ScoreFrame>, rest: Scoring.Tally): Scoring.Tally
  {
    Scoring.Tally(frames + rest.frames, rest.end)
  }

  /** One pass of the Normal frame loop on top of the frames built so far. */
  lemma LoopStep(rolls: seq<int>, c: Scoring.Cursor, frameNum: int, n: int, frames: seq<ScoreFrame>)
    requires c.index <= |rolls| && frameNum < n
    ensures Join(frames, Scoring.NormalFrames(rolls, c, frameNum, n))
            == Join(frames + [Scoring.NormalFrame(frameNum, rolls, c)],
                    Scoring.NormalFrames(rolls, Scoring.NormalAdvance(rolls, c), frameNum + 1, n))
  {
    var rest := Scoring.NormalFrames(rolls, Scoring.NormalAdvance(rolls, c), frameNum + 1, n);
    assert Scoring.NormalFrames(rolls, c, frameNum, n).frames == [Scoring.NormalFrame(frameNum, rolls, c)] + rest.frames;
    assert frames + ([Scoring.NormalFrame(frameNum, rolls, c)] + rest.frames)
           == (frames + [Scoring.NormalFrame(frameNum, rolls, c)]) + rest.frames;
  }

  /** The loop is left with no Normal frame still to build. */
  lemma LoopDone(rolls: seq<int>, c: Scoring.Cursor, frameNum: int, n: int, frames: seq<ScoreFrame>)
    requires c.index <= |rolls| && frameNum >= n
    ensures Join(frames, Scoring.NormalFrames(rolls, c, frameNum, n)) == Scoring.Tally(frames, c)
  {
    assert frames + [] == frames;
  }

  /** The points of a Normal frame, given the throws it took. */
  lemma NormalPointsOf(rolls: seq<int>, index: nat, t: Scoring.Throws)
    requires index <= |rolls| && t == Scoring.NormalThrows(rolls, index)
    ensures var next := index + |t.taken|;
      Scoring.NormalPoints(rolls, index)
      == if Scoring.IsStrike(t) then (if next + 1 < |rolls| then Some(MaxPins + rolls[next] + rolls[next + 1]) else None)
         else if Scoring.IsSpare(t) then (if next < |rolls| then Some(MaxPins + rolls[next]) else None)
         else if Scoring.IsOpen(t) then Some(t.taken[0] + t.taken[1])
         else None
  {
  }

  /** A Normal frame and the cursor after it, given its throws and points. */
  lemma NormalFrameOf(frameNum: int, rolls: seq<int>, c: Scoring.Cursor, t: Scoring.Throws,
                      points: Option<int>, error: Option<string>)
    requires c.index <= |rolls| && t == Scoring.NormalThrows(rolls, c.index)
    requires points == Scoring.NormalPoints(rolls, c.index)
    requires error == (match t.fault
                       case Some(f) => Some(Scoring.NormalRollError(frameNum, f))
                       case None => None)
    ensures Scoring.NormalFrame(frameNum, rolls, c)
            == ScoreFrame(frameNum, Normal, t.taken, (match points case Some(p) => Some(c.total + p) case None => None), error)
    ensures Scoring.NormalAdvance(rolls, c) == Scoring.Cursor(c.index + |t.taken|, c.total + points.GetOr(0))
  {
    NormalFrameTaken(frameNum, rolls, c, t);
    NormalFrameScore(frameNum, rolls, c, points);
    NormalFrameError(frameNum, rolls, c, t, error);
    var f := Scoring.NormalFrame(frameNum, rolls, c);
    assert f.number == frameNum && f.kind == Normal;
  }

  lemma NormalFrameTaken(frameNum: int, rolls: seq<int>, c: Scoring.Cursor, t: Scoring.Throws)
    requires c.index <= |rolls| && t == Scoring.NormalThrows(rolls, c.index)
    ensures Scoring.NormalFrame(frameNum, rolls, c).rolls == t.taken
  {
  }

  lemma NormalFrameScore(frameNum: int, rolls: seq<int>, c: Scoring.Cursor, points: Option<int>)
    requires c.index <= |rolls| && points == Scoring.NormalPoints(rolls, c.index)
    ensures Scoring.NormalFrame(frameNum, rolls, c).score
            == match points case Some(p) => Some(c.total + p) case None => None
  {
  }

  lemma NormalFrameError(frameNum: int, rolls: seq<int>, c: Scoring.Cursor, t: Scoring.Throws, error: Option<string>)
    requires c.index <= |rolls| && t == Scoring.NormalThrows(rolls, c.index)
    requires error == (match t.fault
                       case Some(f) => Some(Scoring.NormalRollError(frameNum, f))
                       case None => None)
    ensures Scoring.NormalFrame(frameNum, rolls, c).error == error
  {
  }

  /** The Final frame and the cursor after it, given the throws it took. */
  lemma FinalFrameOf(frameNum: int, rolls: seq<int>, c: Scoring.Cursor, t: Scoring.Throws, error: Option<string>)
    requires c.index <= |rolls| && t == Scoring.FinalThrows(rolls, c.index)
    requires error == (match t.fault
                       case Some(f) => Some(Scoring.FinalRollError(frameNum, f))
                       case None => None)
    ensures var finished := Scoring.IsFinalFrameFinished(t.taken);
      Scoring.FinalFrame(frameNum, rolls, c)
      == ScoreFrame(frameNum, Final, t.taken, if finished then Some(c.total + Scoring.Sum(t.taken)) else None, error)
  {
    FinalFrameTaken(frameNum, rolls, c, t);
    FinalFrameScore(frameNum, rolls, c, t);
    FinalFrameError(frameNum, rolls, c, t, error);
    var f := Scoring.FinalFrame(frameNum, rolls, c);
    assert f.number == frameNum && f.kind == Final;
  }

  lemma FinalFrameTaken(frameNum: int, rolls: seq<int>, c: Scoring.Cursor, t: Scoring.Throws)
    requires c.index <= |rolls| && t == Scoring.FinalThrows(rolls, c.index)
    ensures Scoring.FinalFrame(frameNum, rolls, c).rolls == t.taken
  {
  }

  lemma FinalFrameScore(frameNum: int, rolls: seq<int>, c: Scoring.Cursor, t: Scoring.Throws)
    requires c.index <= |rolls| && t == Scoring.FinalThrows(rolls, c.index)
    ensures Scoring.FinalFrame(frameNum, rolls, c).score
            == if Scoring.IsFinalFrameFinished(t.taken) then Some(c.total + Scoring.Sum(t.taken)) else None
  {
  }

  lemma FinalFrameError(frameNum: int, rolls: seq<int>, c: Scoring.Cursor, t: Scoring.Throws, error: Option<string>)
    requires c.index <= |rolls| && t == Scoring.FinalThrows(rolls, c.index)
    requires error == (match t.fault
                       case Some(f) => Some(Scoring.FinalRollError(frameNum, f))
                       case None => None)
    ensures Scoring.FinalFrame(frameNum, rolls, c).error == error
  {
  }

  lemma FinalAdvanceOf(rolls: seq<int>, c: Scoring.Cursor, t: Scoring.Throws)
    requires c.index <= |rolls| && t == Scoring.FinalThrows(rolls, c.index)
    ensures var finished := Scoring.IsFinalFrameFinished(t.taken);
      Scoring.FinalAdvance(rolls, c)
      == Scoring.Cursor(c.index + |t.taken|, if finished then c.total + Scoring.Sum(t.taken) else c.total)
  {
  }

  class StandardScoreCalculator {
    const totalFrames: int

    /** `new StandardScoreCalculator(totalFrames)`; the C# default is 12. */
    constructor (totalFrames: int := 12)
      ensures this.totalFrames == totalFrames
    {
      this.totalFrames := totalFrames;
    }

    /** `Calculate`: the frame records for a roll log. */
    method Calculate(rolls: seq<int>) returns (frames: seq<ScoreFrame>)
      ensures frames == Scoring.Calculate(rolls, totalFrames)
    {
      frames := [];
      var errorFrame := ValidateInputRange(rolls);
      if errorFrame.Some? {
        frames := frames + [errorFrame.value];
        return;
      }
      var rollIndex, runningScore;
      frames, rollIndex, runningScore := NormalFrameLoop(rolls);
      frames, rollIndex, runningScore := ConsumeAndCalculateFinalFrame(totalFrames, rolls, frames, rollIndex, runningScore);
      var extraError := ValidateExtra(rollIndex, rolls);
      if extraError.Some? {
        frames := frames + [extraError.value];
      }
      Scoring.CalculateInRange(rolls, totalFrames);
    }

    /** The `for` loop of `Calculate` over frames 1..N-1. */
    method NormalFrameLoop(rolls: seq<int>) returns (frames: seq<ScoreFrame>, rollIndex: nat, runningScore: int)
      ensures rollIndex <= |rolls|
      ensures Scoring.NormalFrames(rolls, Scoring.Cursor(0, 0), 1, totalFrames)
              == Scoring.Tally(frames, Scoring.Cursor(rollIndex, runningScore))
    {
      frames := [];
      ghost var normal := Scoring.NormalFrames(rolls, Scoring.Cursor(0, 0), 1, totalFrames);
      rollIndex, runningScore := 0, 0;
      var frameNum := 1;
      assert normal == Join([], normal);
      while frameNum < totalFrames
        invariant rollIndex <= |rolls|
        invariant 1 <= frameNum
        invariant normal == Join(frames, Scoring.NormalFrames(rolls, Scoring.Cursor(rollIndex, runningScore), frameNum, totalFrames))
        decreases totalFrames - frameNum
      {
        LoopStep(rolls, Scoring.Cursor(rollIndex, runningScore), frameNum, totalFrames, frames);
        frames, rollIndex, runningScore := ConsumeAndCalculateNormalFrame(frameNum, rolls, frames, rollIndex, runningScore);
        frameNum := frameNum + 1;
      }
      LoopDone(rolls, Scoring.Cursor(rollIndex, runningScore), frameNum, totalFrames, frames);
    }

    /** `ValidateInputRange`: scans for the first roll outside 0..10. */
    method ValidateInputRange(rolls: seq<int>) returns (errorFrame: Option<ScoreFrame>)
      ensures errorFrame == Scoring.RangeError(rolls)
      ensures errorFrame.None? <==> Scoring.AllInRange(rolls)
    {
      var i := 0;
      while i < |rolls|
        invariant 0 <= i <= |rolls|
        invariant Scoring.FirstOutOfRange(rolls, 0) == Scoring.FirstOutOfRange(rolls, i)
      {
        if rolls[i] < 0 || rolls[i] > MaxPins {
          return Some(ScoreFrame(1, Normal, [], None, Some(Scoring.RangeErrorMessage(i, rolls[i]))));
        }
        i := i + 1;
      }
      return None;
    }

    /** `ValidateExtra`: the frame N+1 error when rolls are left over. */
    method ValidateExtra(rollIndex: nat, rolls: seq<int>) returns (extraFrame: Option<ScoreFrame>)
      ensures extraFrame.Some? <==> rollIndex < |rolls|
      ensures extraFrame.Some? ==> extraFrame.value == Scoring.ExtraFrame(totalFrames)
    {
      if rollIndex < |rolls| {
        return Some(ScoreFrame(totalFrames + 1, Normal, [], None, Some(Scoring.ExtraRollsMessage)));
      }
      return None;
    }

    /** `ConsumeAndCalculateNormalFrame`: adds frame `frameNum` and advances the
        cursor and the running total. */
    method ConsumeAndCalculateNormalFrame(frameNum: int, rolls: seq<int>, frames: seq<ScoreFrame>,
                                         rollIndex: nat, runningScore: int)
      returns (frames': seq<ScoreFrame>, rollIndex': nat, runningScore': int)
      requires rollIndex <= |rolls|
      ensures frames' == frames + [Scoring.NormalFrame(frameNum, rolls, Scoring.Cursor(rollIndex, runningScore))]
      ensures Scoring.Cursor(rollIndex', runningScore')
              == Scoring.NormalAdvance(rolls, Scoring.Cursor(rollIndex, runningScore))
    {
      rollIndex', runningScore' := rollIndex, runningScore;
      if rollIndex' >= |rolls| {
        frames' := frames + [ScoreFrame(frameNum, Normal, [], None, None)];
        return;
      }
      var taken, error, tries, currentPins, isFrameCleared := NormalTries(frameNum, rolls, rollIndex);
      ghost var c, t := Scoring.Cursor(rollIndex, runningScore), Scoring.NormalThrows(rolls, rollIndex);
      NormalPointsOf(rolls, rollIndex, t);
      rollIndex' := rollIndex + |taken|;
      if error.Some? {
        NormalFrameOf(frameNum, rolls, c, t, None, error);
        frames' := frames + [ScoreFrame(frameNum, Normal, taken, None, error)];
        return;
      }

      var score: Option<int> := None;
      ghost var points: Option<int> := None;
      if isFrameCleared {
        if tries < 2 {
          if rollIndex' + 1 < |rolls| {
            points := Some(10 + rolls[rollIndex'] + rolls[rollIndex' + 1]);
            runningScore' := runningScore' + 10 + rolls[rollIndex'] + rolls[rollIndex' + 1];
            score := Some(runningScore');
          }
        } else {
          if rollIndex' < |rolls| {
            points := Some(10 + rolls[rollIndex']);
            runningScore' := runningScore' + 10 + rolls[rollIndex'];
            score := Some(runningScore');
          }
        }
      } else if tries == 2 {
        points := Some(MaxPins - currentPins);
        runningScore' := runningScore' + (MaxPins - currentPins);
        score := Some(runningScore');
      }
      NormalFrameOf(frameNum, rolls, c, t, points, error);
      frames' := frames + [ScoreFrame(frameNum, Normal, taken, score, None)];
    }

    /** The `while (tries < maxTries)` loop of `ConsumeAndCalculateNormalFrame`:
        the rolls it takes, the error it records, the tries it counts, the
        pins left standing and whether the frame was cleared. */
    method NormalTries(frameNum: int, rolls: seq<int>, rollIndex: nat)
      returns (taken: seq<int>, error: Option<string>, tries: nat, currentPins: int, isFrameCleared: bool)
      requires rollIndex <= |rolls|
      ensures tries <= 2
      ensures var t := Scoring.NormalThrows(rolls, rollIndex);
        && taken == t.taken
        && error == (match t.fault
                     case Some(f) => Some(Scoring.NormalRollError(frameNum, f))
                     case None => None)
      ensures var t := Scoring.NormalThrows(rolls, rollIndex);
        error.None? ==> && (isFrameCleared && tries < 2 ==> Scoring.IsStrike(t))
                        && (isFrameCleared && tries >= 2 ==> Scoring.IsSpare(t))
                        && (!isFrameCleared && tries >= 2 ==>
                              Scoring.IsOpen(t) && MaxPins - currentPins == t.taken[0] + t.taken[1])
                        && (!isFrameCleared && tries < 2 ==>
                              !Scoring.IsStrike(t) && !Scoring.IsSpare(t) && !Scoring.IsOpen(t))
    {
      var rollIndex' := rollIndex;
      taken, error := [], None;
      currentPins := MaxPins;
      var maxTries := 2;
      tries := 0;
      isFrameCleared := false;
      ghost var fault: Option<Scoring.Fault> := None;
      while tries < maxTries
        invariant 0 <= tries <= maxTries == 2
        invariant rollIndex' == rollIndex + tries <= |rolls|
        invariant taken == rolls[rollIndex..rollIndex']
        invariant tries == 0 ==> currentPins == MaxPins
        invariant tries >= 1 ==> taken[0] < MaxPins
        invariant tries == 1 ==> currentPins == MaxPins - taken[0]
        invariant tries == 2 ==> taken[1] <= MaxPins - taken[0] && currentPins == MaxPins - taken[0] - taken[1] != 0
        invariant error.None? && fault.None? && !isFrameCleared
      {
        if rollIndex' >= |rolls| {
          break;
        }
        var roll := rolls[rollIndex'];
        assert rolls[rollIndex..rollIndex' + 1] == taken + [roll];
        if roll > currentPins {
          taken := taken + [roll];
          error := Some(Scoring.NormalRollError(frameNum, Scoring.Fault(tries + 1, roll, currentPins)));
          fault := Some(Scoring.Fault(tries + 1, roll, currentPins));
          rollIndex' := rollIndex' + 1;
          break;
        }
        taken := taken + [roll];
        currentPins := currentPins - roll;
        rollIndex' := rollIndex' + 1;
        tries := tries + 1;
        if currentPins == 0 {
          isFrameCleared := true;
          break;
        }
      }
      ghost var t := Scoring.NormalThrows(rolls, rollIndex);
      assert t.taken == taken;
      assert t.fault == fault;
    }

    /** `ConsumeAndCalculateFinalFrame`: adds the Final frame, resetting the
        pins whenever they are cleared. */
    method ConsumeAndCalculateFinalFrame(frameNum: int, rolls: seq<int>, frames: seq<ScoreFrame>,
                                        rollIndex: nat, runningScore: int)
      returns (frames': seq<ScoreFrame>, rollIndex': nat, runningScore': int)
      requires rollIndex <= |rolls|
      ensures frames' == frames + [Scoring.FinalFrame(frameNum, rolls, Scoring.Cursor(rollIndex, runningScore))]
      ensures Scoring.Cursor(rollIndex', runningScore')
              == Scoring.FinalAdvance(rolls, Scoring.Cursor(rollIndex, runningScore))
    {
      rollIndex', runningScore' := rollIndex, runningScore;
      if rollIndex' >= |rolls| {
        frames' := frames + [ScoreFrame(frameNum, Final, [], None, None)];
        return;
      }
      var taken, error := FinalTries(frameNum, rolls, rollIndex);
      ghost var c, t := Scoring.Cursor(rollIndex, runningScore), Scoring.FinalThrows(rolls, rollIndex);
      FinalFrameOf(frameNum, rolls, c, t, error);
      FinalAdvanceOf(rolls, c, t);
      rollIndex' := rollIndex + |taken|;
      var score: Option<int> := None;
      if Scoring.IsFinalFrameFinished(taken) {
        runningScore' := runningScore' + Scoring.Sum(taken);
        score := Some(runningScore');
      }
      frames' := frames + [ScoreFrame(frameNum, Final, taken, score, error)];
    }

    /** The three-throw `for` loop of `ConsumeAndCalculateFinalFrame`: the rolls
        it takes and the error it records. */
    method FinalTries(frameNum: int, rolls: seq<int>, rollIndex: nat) returns (taken: seq<int>, error: Option<string>)
      requires rollIndex <= |rolls|
      ensures var t := Scoring.FinalThrows(rolls, rollIndex);
        && taken == t.taken
        && error == (match t.fault
                     case Some(f) => Some(Scoring.FinalRollError(frameNum, f))
                     case None => None)
    {
      var rollIndex' := rollIndex;
      taken, error := [], None;
      var currentPins := MaxPins;
      ghost var fault: Option<Scoring.Fault> := None;
      for i := 0 to 3
        invariant rollIndex' == rollIndex + i <= |rolls|
        invariant taken == rolls[rollIndex..rollIndex']
        invariant i == 0 ==> currentPins == MaxPins
        invariant i >= 1 ==> taken[0] <= MaxPins
        invariant i == 1 ==> currentPins == Scoring.Reset(MaxPins - taken[0])
        invariant i >= 2 ==> taken[1] <= Scoring.Reset(MaxPins - taken[0])
        invariant i >= 2 ==> Scoring.Reset(MaxPins - taken[0]) - taken[1] == 0 || taken[0] == MaxPins
        invariant i == 2 ==> currentPins == Scoring.Reset(Scoring.Reset(MaxPins - taken[0]) - taken[1])
        invariant i == 3 ==> taken[2] <= Scoring.Reset(Scoring.Reset(MaxPins - taken[0]) - taken[1])
        invariant error.None? && fault.None?
      {
        if rollIndex' >= |rolls| {
          break;
        }
        var roll := rolls[rollIndex'];
        assert rolls[rollIndex..rollIndex' + 1] == taken + [roll];
        if roll > currentPins {
          error := Some(Scoring.FinalRollError(frameNum, Scoring.Fault(i + 1, roll, currentPins)));
          fault := Some(Scoring.Fault(i + 1, roll, currentPins));
          taken := taken + [roll];
          rollIndex' := rollIndex' + 1;
          break;
        }
        taken := taken + [roll];
        currentPins := currentPins - roll;
        rollIndex' := rollIndex' + 1;
        if currentPins == 0 {
          currentPins := MaxPins;
        } else {
          var firstRollWasStrike := |taken| > 0 && taken[0] == MaxPins;
          if i == 1 && !firstRollWasStrike {
            break;
          }
        }
      }
      ghost var t := Scoring.FinalThrows(rolls, rollIndex);
      assert t.taken == taken;
      assert t.fault == fault;
    }
  }
}
