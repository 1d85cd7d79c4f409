/** Reference definition of the legacy calculator (`StandardScoreCalculator`
    of the first console program): ten frames, no range check of its own, no
    check for rolls left after the tenth frame, a frame loop that stops at a
    Normal frame still waiting for its second roll, and a tenth frame that
    grants a third throw only when the second throw clears the pins.  The
    imperative calculator in module `LegacyLogic` is proved to compute
    `Calculate`; module `LegacyFacts` proves what it promises. */
module LegacyScoring {
  import opened Wrappers
  import opened Decimal
  import Scoring

  const MaxFrames := 10
  const MaxPins := 10

  /** The legacy `ScoreFrameDTO`: it has no frame type. */
  datatype LegacyFrame = LegacyFrame(
    number: int,
    rolls: seq<int>,
    score: Option<int>,
    error: Option<string>)

  /** `new ScoreFrameDTO { FrameNumber = number }`. */
  function NewFrame(number: int): LegacyFrame
  {
    LegacyFrame(number, [], None, None)
  }

  /** `!string.IsNullOrEmpty(ErrorMessage)`. */
  predicate Failed(f: LegacyFrame)
  {
    f.error.Some? && f.error.value != ""
  }

  function FirstRollError(frameNum: int, roll: int): string
  {
    "ERROR: Frame " + IntToString(frameNum) + " roll is " + IntToString(roll) + ". Input ignored."
  }

  function SumError(frameNum: int, sum: int): string
  {
    "ERROR: Frame " + IntToString(frameNum) + " sum is " + IntToString(sum) + ". Input ignored."
  }

  function FinalRollError(f: Scoring.Fault): string
  {
    "ERROR: Frame 10 roll " + IntToString(f.throw) + " is " + IntToString(f.roll) + " (Remain: "
    + IntToString(f.remain) + "). Input ignored."
  }

  /** One pass of the frame loop: the frame it adds, the cursor and running
      total it leaves, and whether it left the loop (`break`). */
  datatype Step = Step(frame: LegacyFrame, next: Scoring.Cursor, pending: bool)

  /** Frames 1..9: an empty frame once the log is used up; a first roll
      above 10 is consumed as an error; a strike is scored with the next two
      rolls when both are present; a first roll with nothing after it ends the
      loop; otherwise the frame takes a second roll (`SecondRoll`). */
  function NormalStep(frameNum: int, rolls: seq<int>, c: Scoring.Cursor): (s: Step)
    requires c.index <= |rolls|
    ensures c.index <= s.next.index <= |rolls| && s.frame.number == frameNum
    ensures s.pending ==> s.next.index == |rolls|
  {
    var i := c.index;
    if i >= |rolls| then Step(NewFrame(frameNum), c, false)
    else
      var first := rolls[i];
      if first > MaxPins then
        Step(LegacyFrame(frameNum, [first], None, Some(FirstRollError(frameNum, first))),
             Scoring.Cursor(i + 1, c.total), false)
      else if MaxPins - first == 0 then StrikeStep(frameNum, rolls, c)
      else if i + 1 >= |rolls| then
        Step(LegacyFrame(frameNum, [first], None, None), Scoring.Cursor(i + 1, c.total), true)
      else SecondRoll(frameNum, rolls, c)
  }

  /** A pass of the loop adds the rolls it consumed to its frame. */
  lemma NormalStepRolls(frameNum: int, rolls: seq<int>, c: Scoring.Cursor)
    requires c.index <= |rolls|
    ensures var s := NormalStep(frameNum, rolls, c); s.frame.rolls == rolls[c.index..s.next.index]
  {
    var i := c.index;
    if i < |rolls| {
      assert rolls[i..i + 1] == [rolls[i]];
      if i + 1 < |rolls| {
        assert rolls[i..i + 2] == [rolls[i], rolls[i + 1]];
      }
    }
  }

  /** A strike, scored with the next two rolls when both are present. */
  function StrikeStep(frameNum: int, rolls: seq<int>, c: Scoring.Cursor): (s: Step)
    requires c.index < |rolls|
    ensures s.next.index == c.index + 1 && s.frame.number == frameNum && !s.pending
  {
    var i := c.index;
    if i + 2 < |rolls| then
      var total := c.total + MaxPins + (rolls[i + 1] + rolls[i + 2]);
      Step(LegacyFrame(frameNum, [rolls[i]], Some(total), None), Scoring.Cursor(i + 1, total), false)
    else Step(LegacyFrame(frameNum, [rolls[i]], None, None), Scoring.Cursor(i + 1, c.total), false)
  }

  /** A frame with pins left after its first roll takes a second one: above
      the standing pins it is consumed as an error; a spare is scored with the
      next roll when present and an open frame with its pins. */
  function SecondRoll(frameNum: int, rolls: seq<int>, c: Scoring.Cursor): (s: Step)
    requires c.index + 1 < |rolls|
    ensures s.next.index == c.index + 2 && s.frame.number == frameNum && !s.pending
  {
    var i := c.index;
    var first := rolls[i];
    var second := rolls[i + 1];
    if second > MaxPins - first then
      Step(LegacyFrame(frameNum, [first, second], None, Some(SumError(frameNum, first + second))),
           Scoring.Cursor(i + 2, c.total), false)
    else if MaxPins - first - second == 0 then
      if i + 2 < |rolls| then
        var total := c.total + MaxPins + rolls[i + 2];
        Step(LegacyFrame(frameNum, [first, second], Some(total), None), Scoring.Cursor(i + 2, total), false)
      else Step(LegacyFrame(frameNum, [first, second], None, None), Scoring.Cursor(i + 2, c.total), false)
    else
      var total := c.total + (first + second);
      Step(LegacyFrame(frameNum, [first, second], Some(total), None), Scoring.Cursor(i + 2, total), false)
  }

  datatype LegacyTally = LegacyTally(frames: seq<LegacyFrame>, end: Scoring.Cursor)

  /** Frames `frameNum`..9, stopping after a frame that left the loop. */
  function NormalFrames(rolls: seq<int>, c: Scoring.Cursor, frameNum: int): (r: LegacyTally)
    requires c.index <= |rolls|
    ensures c.index <= r.end.index <= |rolls|
    decreases MaxFrames - frameNum
  {
    if frameNum >= MaxFrames then LegacyTally([], c)
    else
      var s := NormalStep(frameNum, rolls, c);
      if s.pending then LegacyTally([s.frame], s.next)
      else
        var rest := NormalFrames(rolls, s.next, frameNum + 1);
        LegacyTally([s.frame] + rest.frames, rest.end)
  }

  /** `NormalFrames` unfolded once. */
  lemma NormalFramesUnfold(rolls: seq<int>, c: Scoring.Cursor, frameNum: int)
    requires c.index <= |rolls| && frameNum < MaxFrames
    ensures var s := NormalStep(frameNum, rolls, c); var rest := NormalFrames(rolls, s.next, frameNum + 1);
      NormalFrames(rolls, c, frameNum)
        == if s.pending then LegacyTally([s.frame], s.next) else LegacyTally([s.frame] + rest.frames, rest.end)
  {
  }

  /** The throws of frame 10: the pins are set up again whenever all are
      down, a throw above the standing pins is consumed and ends the frame,
      and pins left standing after the second throw end it. */
  function FinalThrows(rolls: seq<int>, index: nat): (t: Scoring.Throws)
    requires index <= |rolls|
    ensures |t.taken| <= 3 && index + |t.taken| <= |rolls|
    ensures t.taken == rolls[index..index + |t.taken|]
  {
    if index == |rolls| then Scoring.Throws([], None)
    else
      var first := rolls[index];
      if first > MaxPins then Scoring.Throws([first], Some(Scoring.Fault(1, first, MaxPins)))
      else
        var standing := Scoring.Reset(MaxPins - first);
        if index + 1 == |rolls| then Scoring.Throws([first], None)
        else
          var second := rolls[index + 1];
          if second > standing then Scoring.Throws(rolls[index..index + 2], Some(Scoring.Fault(2, second, standing)))
          else if standing - second != 0 || index + 2 == |rolls| then Scoring.Throws(rolls[index..index + 2], None)
          else
            var third := rolls[index + 2];
            Scoring.Throws(rolls[index..index + 3],
                           if third > MaxPins then Some(Scoring.Fault(3, third, MaxPins)) else None)
  }

  /** Frame 10, scored with the flat sum of its rolls once it is finished. */
  function FinalFrame(rolls: seq<int>, c: Scoring.Cursor): LegacyFrame
    requires c.index <= |rolls|
  {
    var t := FinalThrows(rolls, c.index);
    LegacyFrame(MaxFrames, t.taken,
                if Scoring.IsFinalFrameFinished(t.taken) then Some(c.total + Scoring.Sum(t.taken)) else None,
                match t.fault
                case Some(f) => Some(FinalRollError(f))
                case None => None)
  }

  /** `Calculate`: frame 10 is built only when rolls remain after frame 9. */
  function Calculate(rolls: seq<int>): seq<LegacyFrame>
  {
    var normal := NormalFrames(rolls, Scoring.Cursor(0, 0), 1);
    normal.frames + if normal.end.index < |rolls| then [FinalFrame(rolls, normal.end)] else []
  }

  /** How many rolls `Calculate` takes into its frames. */
  function Consumed(rolls: seq<int>): (r: nat)
    ensures r <= |rolls|
  {
    var e := NormalFrames(rolls, Scoring.Cursor(0, 0), 1).end;
    if e.index < |rolls| then e.index + |FinalThrows(rolls, e.index).taken| else e.index
  }

  /** Some frame has an error. */
  predicate AnyFailed(frames: seq<LegacyFrame>)
  {
    exists k :: 0 <= k < |frames| && Failed(frames[k])
  }

  /** `FirstOrDefault` of the frames with an error. */
  function FirstFailed(frames: seq<LegacyFrame>): (r: Option<LegacyFrame>)
    ensures r.Some? <==> AnyFailed(frames)
    ensures r.Some? ==> Failed(r.value)
  {
    if frames == [] then None
    else if Failed(frames[0]) then Some(frames[0])
    else
      var r := FirstFailed(frames[1..]);
      assert AnyFailed(frames[1..]) <==> AnyFailed(frames) by {
        if AnyFailed(frames[1..]) {
          var k :| 0 <= k < |frames[1..]| && Failed(frames[1..][k]);
          assert frames[k + 1] == frames[1..][k];
        }
        if AnyFailed(frames) {
          var k :| 0 <= k < |frames| && Failed(frames[k]);
          assert k > 0 && frames[1..][k - 1] == frames[k];
        }
      }
      r
  }
}

/** What the legacy calculator promises, proved about `LegacyScoring.Calculate`. */
module LegacyFacts {
  import opened Wrappers
  import opened LegacyScoring
  import Scoring

  // -----------------------------------------------------------------------
  // Frame layout

  lemma {:induction false} NormalFramesLayout(rolls: seq<int>, c: Scoring.Cursor, frameNum: int)
    requires c.index <= |rolls| && frameNum >= 1
    ensures var r := NormalFrames(rolls, c, frameNum);
      && |r.frames| <= (if frameNum < MaxFrames then MaxFrames - frameNum else 0)
      && (forall k :: 0 <= k < |r.frames| ==> r.frames[k].number == frameNum + k)
      && (|r.frames| < MaxFrames - frameNum ==> r.end.index == |rolls|)
    decreases MaxFrames - frameNum
  {
    if frameNum < MaxFrames {
      var s := NormalStep(frameNum, rolls, c);
      if !s.pending {
        NormalFramesLayout(rolls, s.next, frameNum + 1);
        var r := NormalFrames(rolls, c, frameNum);
        var rest := NormalFrames(rolls, s.next, frameNum + 1);
        forall k | 0 <= k < |r.frames|
          ensures r.frames[k].number == frameNum + k
        {
          if k > 0 {
            assert r.frames[k] == rest.frames[k - 1];
          }
        }
      }
    }
  }

  /** Frames are numbered 1, 2, ... in order and there are at most ten; there
      is a tenth exactly when rolls remain after nine full Normal frames, and
      it is the only one built by the tenth-frame rules. */
  lemma Layout(rolls: seq<int>)
    ensures var r := Calculate(rolls); var normal := NormalFrames(rolls, Scoring.Cursor(0, 0), 1);
      && |r| <= MaxFrames
      && (forall k :: 0 <= k < |r| ==> r[k].number == k + 1)
      && (|r| == MaxFrames <==> normal.end.index < |rolls|)
      && (|r| == MaxFrames ==> r[MaxFrames - 1] == FinalFrame(rolls, normal.end))
  {
    NormalFramesLayout(rolls, Scoring.Cursor(0, 0), 1);
  }

  // -----------------------------------------------------------------------
  // The frames partition the consumed rolls

  /** The rolls of the frames, concatenated in order. */
  function Flatten(frames: seq<LegacyFrame>): seq<int>
  {
    if frames == [] then [] else frames[0].rolls + Flatten(frames[1..])
  }

  lemma {:induction false} NormalFramesRolls(rolls: seq<int>, c: Scoring.Cursor, frameNum: int)
    requires c.index <= |rolls|
    ensures var r := NormalFrames(rolls, c, frameNum); Flatten(r.frames) == rolls[c.index..r.end.index]
    decreases MaxFrames - frameNum
  {
    if frameNum < MaxFrames {
      var s := NormalStep(frameNum, rolls, c);
      var r := NormalFrames(rolls, c, frameNum);
      NormalStepRolls(frameNum, rolls, c);
      if s.pending {
        assert r.frames == [s.frame] + [];
        FlattenCons(s.frame, []);
      } else {
        var rest := NormalFrames(rolls, s.next, frameNum + 1);
        NormalFramesRolls(rolls, s.next, frameNum + 1);
        assert r.frames == [s.frame] + rest.frames;
        FlattenCons(s.frame, rest.frames);
        Scoring.SliceJoin(rolls, c.index, s.next.index, rest.end.index);
      }
    }
  }

  lemma FlattenCons(f: LegacyFrame, a: seq<LegacyFrame>)
    ensures Flatten([f] + a) == f.rolls + Flatten(a)
  {
    assert ([f] + a)[1..] == a;
  }

  /** The frames hold, in order, exactly the rolls the calculator consumed;
      rolls after the tenth frame are neither in a frame nor reported. */
  lemma RollPartition(rolls: seq<int>)
    ensures Flatten(Calculate(rolls)) == rolls[..Consumed(rolls)]
  {
    var normal := NormalFrames(rolls, Scoring.Cursor(0, 0), 1);
    NormalFramesRolls(rolls, Scoring.Cursor(0, 0), 1);
    if normal.end.index < |rolls| {
      FinalPartition(rolls, normal);
    } else {
      StoppedPartition(rolls, normal);
    }
  }

  lemma FinalPartition(rolls: seq<int>, normal: LegacyTally)
    requires normal == NormalFrames(rolls, Scoring.Cursor(0, 0), 1)
    requires Flatten(normal.frames) == rolls[0..normal.end.index] && normal.end.index < |rolls|
    ensures Flatten(Calculate(rolls)) == rolls[..Consumed(rolls)]
  {
    var i := normal.end.index;
    var f := FinalFrame(rolls, normal.end);
    assert Calculate(rolls) == normal.frames + [f];
    var j := i + |FinalThrows(rolls, i).taken|;
    assert Consumed(rolls) == j;
    PartitionJoin(rolls, normal.frames, f, i, j);
  }

  lemma StoppedPartition(rolls: seq<int>, normal: LegacyTally)
    requires normal == NormalFrames(rolls, Scoring.Cursor(0, 0), 1)
    requires Flatten(normal.frames) == rolls[0..normal.end.index] && normal.end.index == |rolls|
    ensures Flatten(Calculate(rolls)) == rolls[..Consumed(rolls)]
  {
    assert Calculate(rolls) == normal.frames + [];
    assert normal.frames + [] == normal.frames;
    assert Consumed(rolls) == |rolls|;
  }

  /** Frames holding `rolls[..i]` and then a frame holding `rolls[i..j]`
      hold `rolls[..j]`. */
  lemma PartitionJoin(rolls: seq<int>, a: seq<LegacyFrame>, f: LegacyFrame, i: nat, j: nat)
    requires i <= j <= |rolls| && Flatten(a) == rolls[0..i] && f.rolls == rolls[i..j]
    ensures Flatten(a + [f]) == rolls[..j]
  {
    FlattenAppend(a, [f]);
    assert Flatten([f]) == f.rolls by {
      assert [f][1..] == [];
    }
    assert rolls[0..i] + rolls[i..j] == rolls[..j];
  }

  lemma {:induction false} FlattenAppend(a: seq<LegacyFrame>, b: seq<LegacyFrame>)
    ensures Flatten(a + b) == Flatten(a) + Flatten(b)
    decreases |a|
  {
    if a == [] {
      assert a + b == b;
    } else {
      assert (a + b)[1..] == a[1..] + b;
      FlattenAppend(a[1..], b);
    }
  }

  // -----------------------------------------------------------------------
  // Normal frames

  /** A Normal frame of an in-range log: a strike is scored with the next two
      rolls only when both are in the log, a spare adds 10 and the roll after
      its second, an open frame adds its pins, a second roll above the
      standing pins makes an error frame holding both rolls, and a pass
      leaves the loop only when the log ends after a non-strike first roll. */
  lemma NormalStepRule(frameNum: int, rolls: seq<int>, c: Scoring.Cursor)
    requires c.index <= |rolls| && Scoring.AllInRange(rolls)
    ensures var s := NormalStep(frameNum, rolls, c); var f := s.frame; var t := f.rolls; var i := c.index;
      && f.number == frameNum && t == rolls[i..s.next.index] && |t| <= 2
      && (t == [] <==> i == |rolls|)
      && (s.pending <==> |t| == 1 && t[0] != MaxPins)
      && (t == [MaxPins] ==>
            f.score == if i + 2 < |rolls| then Some(c.total + MaxPins + rolls[i + 1] + rolls[i + 2]) else None)
      && (|t| == 2 && t[0] + t[1] == MaxPins ==>
            f.score == if i + 2 < |rolls| then Some(c.total + MaxPins + rolls[i + 2]) else None)
      && (|t| == 2 && t[0] + t[1] < MaxPins ==> f.score == Some(c.total + t[0] + t[1]))
      && (Failed(f) <==> |t| == 2 && t[0] + t[1] > MaxPins)
      && (Failed(f) ==> f.score.None? && f.error == Some(SumError(frameNum, t[0] + t[1])))
      && (|t| < 2 && t != [MaxPins] ==> f.score.None?)
      && s.next.total == f.score.GetOr(c.total)
  {
    NormalStepShape(frameNum, rolls, c);
    NormalStepScore(frameNum, rolls, c);
    NormalStepFault(frameNum, rolls, c);
  }

  /** The rolls an in-range pass takes and when it leaves the loop. */
  lemma NormalStepShape(frameNum: int, rolls: seq<int>, c: Scoring.Cursor)
    requires c.index <= |rolls| && Scoring.AllInRange(rolls)
    ensures var s := NormalStep(frameNum, rolls, c); var t := s.frame.rolls; var i := c.index;
      && s.frame.number == frameNum && t == rolls[i..s.next.index] && |t| <= 2
      && (t == [] <==> i == |rolls|)
      && (s.pending <==> |t| == 1 && t[0] != MaxPins)
  {
    NormalStepRolls(frameNum, rolls, c);
  }

  /** How an in-range pass scores its frame. */
  lemma NormalStepScore(frameNum: int, rolls: seq<int>, c: Scoring.Cursor)
    requires c.index <= |rolls| && Scoring.AllInRange(rolls)
    ensures var s := NormalStep(frameNum, rolls, c); var f := s.frame; var t := f.rolls; var i := c.index;
      && (t == [MaxPins] ==>
            f.score == if i + 2 < |rolls| then Some(c.total + MaxPins + rolls[i + 1] + rolls[i + 2]) else None)
      && (|t| == 2 && t[0] + t[1] == MaxPins ==>
            f.score == if i + 2 < |rolls| then Some(c.total + MaxPins + rolls[i + 2]) else None)
      && (|t| == 2 && t[0] + t[1] < MaxPins ==> f.score == Some(c.total + t[0] + t[1]))
      && (|t| == 2 && t[0] + t[1] > MaxPins ==> f.score.None?)
      && (|t| < 2 && t != [MaxPins] ==> f.score.None?)
      && s.next.total == f.score.GetOr(c.total)
  {
    NormalStepRolls(frameNum, rolls, c);
  }

  /** When an in-range pass records an error. */
  lemma NormalStepFault(frameNum: int, rolls: seq<int>, c: Scoring.Cursor)
    requires c.index <= |rolls| && Scoring.AllInRange(rolls)
    ensures var f := NormalStep(frameNum, rolls, c).frame; var t := f.rolls;
      && (Failed(f) <==> |t| == 2 && t[0] + t[1] > MaxPins)
      && (Failed(f) ==> f.error == Some(SumError(frameNum, t[0] + t[1])))
  {
    var s := NormalStep(frameNum, rolls, c);
    NormalStepRolls(frameNum, rolls, c);
    if |s.frame.rolls| == 2 {
      assert |SumError(frameNum, s.frame.rolls[0] + s.frame.rolls[1])| > 0;
    }
  }

  /** A second roll above the standing pins: the frame holds both rolls and
      the error, and the loop goes on with the next frame two rolls later. */
  lemma OverflowContinues(rolls: seq<int>, c: Scoring.Cursor, frameNum: int)
    requires c.index + 1 < |rolls| && 1 <= frameNum < MaxFrames
    requires 0 <= rolls[c.index] < MaxPins && rolls[c.index + 1] > MaxPins - rolls[c.index]
    ensures var f := LegacyFrame(frameNum, rolls[c.index..c.index + 2], None,
                                 Some(SumError(frameNum, rolls[c.index] + rolls[c.index + 1])));
      var rest := NormalFrames(rolls, Scoring.Cursor(c.index + 2, c.total), frameNum + 1);
      NormalFrames(rolls, c, frameNum) == LegacyTally([f] + rest.frames, rest.end) && Failed(f)
  {
    SecondRollTaken(frameNum, rolls, c);
    OverflowStep(rolls, c, frameNum);
    NormalFramesUnfold(rolls, c, frameNum);
    assert |SumError(frameNum, rolls[c.index] + rolls[c.index + 1])| > 0;
  }

  /** The pass of the loop for such a frame, field by field. */
  lemma OverflowStep(rolls: seq<int>, c: Scoring.Cursor, frameNum: int)
    requires c.index + 1 < |rolls|
    requires 0 <= rolls[c.index] < MaxPins && rolls[c.index + 1] > MaxPins - rolls[c.index]
    ensures var s := SecondRoll(frameNum, rolls, c);
      && s.frame.number == frameNum && s.frame.rolls == rolls[c.index..c.index + 2] && s.frame.score.None?
      && s.frame.error == Some(SumError(frameNum, rolls[c.index] + rolls[c.index + 1]))
      && s.next == Scoring.Cursor(c.index + 2, c.total) && !s.pending
  {
    OverflowRolls(rolls, c, frameNum);
    OverflowError(rolls, c, frameNum);
    OverflowUnscored(rolls, c, frameNum);
  }

  lemma OverflowRolls(rolls: seq<int>, c: Scoring.Cursor, frameNum: int)
    requires c.index + 1 < |rolls|
    requires 0 <= rolls[c.index] < MaxPins && rolls[c.index + 1] > MaxPins - rolls[c.index]
    ensures var s := SecondRoll(frameNum, rolls, c);
      s.frame.rolls == rolls[c.index..c.index + 2] && s.next == Scoring.Cursor(c.index + 2, c.total)
  {
    assert rolls[c.index..c.index + 2] == [rolls[c.index], rolls[c.index + 1]];
  }

  lemma OverflowError(rolls: seq<int>, c: Scoring.Cursor, frameNum: int)
    requires c.index + 1 < |rolls|
    requires 0 <= rolls[c.index] < MaxPins && rolls[c.index + 1] > MaxPins - rolls[c.index]
    ensures SecondRoll(frameNum, rolls, c).frame.error == Some(SumError(frameNum, rolls[c.index] + rolls[c.index + 1]))
  {
    var first, second := rolls[c.index], rolls[c.index + 1];
    assert SecondRoll(frameNum, rolls, c).frame
           == LegacyFrame(frameNum, [first, second], None, Some(SumError(frameNum, first + second)));
  }

  lemma OverflowUnscored(rolls: seq<int>, c: Scoring.Cursor, frameNum: int)
    requires c.index + 1 < |rolls|
    requires 0 <= rolls[c.index] < MaxPins && rolls[c.index + 1] > MaxPins - rolls[c.index]
    ensures SecondRoll(frameNum, rolls, c).frame.score.None?
  {
  }

  /** A first roll below 10 with a roll after it goes on to `SecondRoll`. */
  lemma SecondRollTaken(frameNum: int, rolls: seq<int>, c: Scoring.Cursor)
    requires c.index + 1 < |rolls| && rolls[c.index] < MaxPins
    ensures NormalStep(frameNum, rolls, c) == SecondRoll(frameNum, rolls, c)
  {
  }

  /** A frame left waiting for its second roll is the last frame of the
      output: the loop stops there and frame 10 is not built. */
  lemma {:induction false} PendingLastInNormal(rolls: seq<int>, c: Scoring.Cursor, frameNum: int, k: nat)
    requires c.index <= |rolls|
    requires k < |NormalFrames(rolls, c, frameNum).frames| && Waiting(NormalFrames(rolls, c, frameNum).frames[k])
    ensures var r := NormalFrames(rolls, c, frameNum); k == |r.frames| - 1 && r.end.index == |rolls|
    decreases k
  {
    var s := NormalStep(frameNum, rolls, c);
    var r := NormalFrames(rolls, c, frameNum);
    if !s.pending {
      var rest := NormalFrames(rolls, s.next, frameNum + 1);
      assert r.frames == [s.frame] + rest.frames && r.end == rest.end;
      NotWaiting(frameNum, rolls, c);
      assert k > 0;
      assert rest.frames[k - 1] == r.frames[k];
      PendingLastInNormal(rolls, s.next, frameNum + 1, k - 1);
    }
  }

  /** A frame holding one roll that is not a strike, without an error. */
  predicate Waiting(f: LegacyFrame)
  {
    |f.rolls| == 1 && f.rolls[0] != MaxPins && !Failed(f)
  }

  /** A pass that stays in the loop never leaves its frame waiting. */
  lemma NotWaiting(frameNum: int, rolls: seq<int>, c: Scoring.Cursor)
    requires c.index <= |rolls| && !NormalStep(frameNum, rolls, c).pending
    ensures !Waiting(NormalStep(frameNum, rolls, c).frame)
  {
    if c.index < |rolls| && rolls[c.index] > MaxPins {
      assert |FirstRollError(frameNum, rolls[c.index])| > 0;
    }
  }

  lemma PendingIsLast(rolls: seq<int>)
    ensures var r := Calculate(rolls);
      forall k :: 0 <= k < |r| && r[k].number < MaxFrames && Waiting(r[k]) ==> k == |r| - 1
  {
    Layout(rolls);
    var normal := NormalFrames(rolls, Scoring.Cursor(0, 0), 1);
    var r := Calculate(rolls);
    forall k | 0 <= k < |r| && r[k].number < MaxFrames && Waiting(r[k])
      ensures k == |r| - 1
    {
      assert k < |normal.frames| && r[k] == normal.frames[k];
      PendingLastInNormal(rolls, Scoring.Cursor(0, 0), 1, k);
    }
  }

  // -----------------------------------------------------------------------
  // Frame 10

  /** Frame 10 of an in-range log: a third throw comes exactly when the
      second throw clears the pins (after a strike or as a spare); every
      throw fits the standing pins unless the frame is an error frame; the
      frame is scored exactly when `IsFinalFrameFinished` holds, with the
      running total plus its pins. */
  lemma FinalRule(rolls: seq<int>, c: Scoring.Cursor)
    requires c.index < |rolls| && Scoring.AllInRange(rolls)
    ensures var f := FinalFrame(rolls, c); var t := f.rolls; var i := c.index;
      && f.number == MaxFrames && 1 <= |t| <= 3 && t == rolls[i..i + |t|]
      && (|t| == 3 <==> i + 2 < |rolls| && rolls[i + 1] == Scoring.Reset(MaxPins - rolls[i]))
      && (Failed(f) <==> |t| == 2 && t[1] > Scoring.Reset(MaxPins - t[0]))
      && (f.score.Some? <==> Scoring.IsFinalFrameFinished(t))
      && (f.score.Some? ==> f.score.value == c.total + Scoring.Sum(t))
  {
    var t := FinalThrows(rolls, c.index);
    if t.fault.Some? {
      assert |FinalRollError(t.fault.value)| > 0;
    }
  }

  /** A strike followed by an open throw ends frame 10 after two throws, and
      that frame is never scored; the current calculator grants the third
      throw instead. */
  lemma StrikeThenOpenUnscored(rolls: seq<int>, c: Scoring.Cursor)
    requires c.index + 1 < |rolls| && rolls[c.index] == MaxPins && 0 <= rolls[c.index + 1] < MaxPins
    ensures var f := FinalFrame(rolls, c);
      f.rolls == [MaxPins, rolls[c.index + 1]] && f.score.None? && !Failed(f)
    ensures c.index + 2 < |rolls| ==> |Scoring.FinalThrows(rolls, c.index).taken| == 3
  {
  }

  // -----------------------------------------------------------------------
  // Games

  /** A strike with two more tens behind it is scored 30. */
  lemma StrikeStepped(frameNum: int, rolls: seq<int>, c: Scoring.Cursor)
    requires c.index + 2 < |rolls|
    requires rolls[c.index] == MaxPins && rolls[c.index + 1] == MaxPins && rolls[c.index + 2] == MaxPins
    ensures var s := NormalStep(frameNum, rolls, c);
      s.next == Scoring.Cursor(c.index + 1, c.total + 3 * MaxPins) && !s.pending && !Failed(s.frame)
  {
  }

  /** Strikes from frame `frameNum` up to frame `j`, each scored 30. */
  lemma {:induction false} StrikeRun(rolls: seq<int>, c: Scoring.Cursor, frameNum: int, j: int, e: Scoring.Cursor)
    requires 1 <= frameNum <= j <= MaxFrames && c.index + (j - frameNum) + 1 < |rolls|
    requires forall i :: c.index <= i < c.index + (j - frameNum) + 2 ==> rolls[i] == MaxPins
    requires e == Scoring.Cursor(c.index + (j - frameNum), c.total + 3 * MaxPins * (j - frameNum))
    ensures NormalFrames(rolls, c, frameNum).end == NormalFrames(rolls, e, j).end
    ensures |NormalFrames(rolls, c, frameNum).frames| >= j - frameNum
    ensures forall k :: 0 <= k < j - frameNum ==> !Failed(NormalFrames(rolls, c, frameNum).frames[k])
    decreases j - frameNum
  {
    if frameNum < j {
      var next := Scoring.Cursor(c.index + 1, c.total + 3 * MaxPins);
      StrikeStepped(frameNum, rolls, c);
      StrikeRun(rolls, next, frameNum + 1, j, e);
      var s := NormalStep(frameNum, rolls, c);
      var r := NormalFrames(rolls, c, frameNum);
      var rest := NormalFrames(rolls, next, frameNum + 1);
      assert r.frames == [s.frame] + rest.frames;
      forall k | 0 <= k < j - frameNum
        ensures !Failed(r.frames[k])
      {
        if k > 0 {
          assert r.frames[k] == rest.frames[k - 1];
        }
      }
    } else {
      assert e == c;
    }
  }

  /** Twelve strikes score 300 (the legacy calculator agrees with the
      current one here). */
  lemma PerfectGame(rolls: seq<int>)
    requires |rolls| == 12 && forall i :: 0 <= i < |rolls| ==> rolls[i] == MaxPins
    ensures var r := Calculate(rolls); |r| == MaxFrames && r[MaxFrames - 1].score == Some(300)
    ensures !AnyFailed(Calculate(rolls)) && Consumed(rolls) == 12
  {
    var normal := NormalFrames(rolls, Scoring.Cursor(0, 0), 1);
    StrikeRun(rolls, Scoring.Cursor(0, 0), 1, MaxFrames, Scoring.Cursor(9, 270));
    PerfectTenth(rolls, normal);
  }

  lemma PerfectTenth(rolls: seq<int>, normal: LegacyTally)
    requires |rolls| >= 12 && forall i :: 0 <= i < |rolls| ==> rolls[i] == MaxPins
    requires normal == NormalFrames(rolls, Scoring.Cursor(0, 0), 1)
    requires normal.end == Scoring.Cursor(9, 270)
    requires forall k :: 0 <= k < MaxFrames - 1 ==> !Failed(normal.frames[k])
    ensures var r := Calculate(rolls); |r| == MaxFrames && r[MaxFrames - 1].score == Some(300)
    ensures !AnyFailed(Calculate(rolls)) && Consumed(rolls) == 12
  {
    Layout(rolls);
    NormalFramesLayout(rolls, Scoring.Cursor(0, 0), 1);
    PerfectFinal(rolls);
    var r := Calculate(rolls);
    assert r == normal.frames + [FinalFrame(rolls, normal.end)];
    forall k | 0 <= k < |r|
      ensures !Failed(r[k])
    {
      if k < MaxFrames - 1 {
        assert r[k] == normal.frames[k];
      }
    }
  }

  /** Frame 10 after nine strikes: three more strikes, 300 in all. */
  lemma PerfectFinal(rolls: seq<int>)
    requires |rolls| >= 12 && forall i :: 0 <= i < |rolls| ==> rolls[i] == MaxPins
    ensures var f := FinalFrame(rolls, Scoring.Cursor(9, 270));
      f.score == Some(300) && !Failed(f) && |FinalThrows(rolls, 9).taken| == 3
  {
    var t := FinalThrows(rolls, 9);
    assert t.taken == [MaxPins, MaxPins, MaxPins] && t.fault.None?;
    assert Scoring.Sum([10, 10, 10]) == 30;
  }

  /** Thirteen strikes: the calculator takes twelve, leaves the last roll
      unconsumed and reports no error, since it has no check for rolls after
      frame 10. */
  lemma NoTrailingCheck(rolls: seq<int>)
    requires |rolls| == 13 && forall i :: 0 <= i < |rolls| ==> rolls[i] == MaxPins
    ensures var r := Calculate(rolls); |r| == MaxFrames && r[MaxFrames - 1].score == Some(300)
    ensures !AnyFailed(Calculate(rolls)) && Consumed(rolls) == 12 < |rolls|
  {
    var normal := NormalFrames(rolls, Scoring.Cursor(0, 0), 1);
    StrikeRun(rolls, Scoring.Cursor(0, 0), 1, MaxFrames, Scoring.Cursor(9, 270));
    PerfectTenth(rolls, normal);
  }

  /** A first roll the log ends after is the last frame: one pending frame. */
  lemma SingleRollPending(rolls: seq<int>)
    requires rolls == [3]
    ensures Calculate(rolls) == [LegacyFrame(1, [3], None, None)]
  {
  }

  /** A strike waiting for its bonus rolls, then a pending first roll: the
      output stops at frame 2. */
  lemma StrikeThenPending(rolls: seq<int>)
    requires rolls == [10, 3]
    ensures Calculate(rolls) == [LegacyFrame(1, [10], None, None), LegacyFrame(2, [3], None, None)]
  {
    var s := NormalStep(1, rolls, Scoring.Cursor(0, 0));
    assert s == Step(LegacyFrame(1, [10], None, None), Scoring.Cursor(1, 0), false);
    assert NormalStep(2, rolls, Scoring.Cursor(1, 0)).pending;
  }
}
