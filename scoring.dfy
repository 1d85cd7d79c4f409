/** Reference definition of the current scoring engine
    (`StandardScoreCalculator.Calculate`), written frame by frame as the rules
    the loops implement.  The imperative calculator in module `Logic` is proved
    to compute exactly `Calculate`; module `ScoringFacts` proves what the
    engine promises about it. */
module Scoring {
  import opened Wrappers
  import opened Decimal
  import opened Core

  const MaxPins := 10

  predicate InRange(roll: int)
  {
    0 <= roll <= MaxPins
  }

  predicate AllInRange(rolls: seq<int>)
  {
    forall i :: 0 <= i < |rolls| ==> InRange(rolls[i])
  }

  /** `Enumerable.Sum`. */
  function Sum(s: seq<int>): int
  {
    if s == [] then 0 else s[0] + Sum(s[1..])
  }

  /** Two adjacent slices of a roll log join into one. */
  lemma SliceJoin(rolls: seq<int>, i: nat, j: nat, k: nat)
    requires i <= j <= k <= |rolls|
    ensures rolls[i..j] + rolls[j..k] == rolls[i..k]
  {
  }

  /** Where the cursor stands and the running total of scored frames. */
  datatype Cursor = Cursor(index: nat, total: int)

  // -----------------------------------------------------------------------
  // Range validation

  /** The first index at or after `from` whose roll is outside 0..10. */
  function FirstOutOfRange(rolls: seq<int>, from: nat): (r: Option<nat>)
    requires from <= |rolls|
    ensures r.Some? ==> from <= r.value < |rolls| && !InRange(rolls[r.value])
                        && forall i :: from <= i < r.value ==> InRange(rolls[i])
    ensures r.None? <==> forall i :: from <= i < |rolls| ==> InRange(rolls[i])
    decreases |rolls| - from
  {
    if from == |rolls| then None
    else if !InRange(rolls[from]) then Some(from)
    else FirstOutOfRange(rolls, from + 1)
  }

  function RangeErrorMessage(index: int, roll: int): string
  {
    "[System Error] Invalid input detected at index " + IntToString(index) + ": " + IntToString(roll)
    + ". Pins must be 0~10."
  }

  /** `ValidateInputRange`: an error frame numbered 1 for the first bad roll. */
  function RangeError(rolls: seq<int>): Option<ScoreFrame>
  {
    match FirstOutOfRange(rolls, 0)
    case None => None
    case Some(i) => Some(ScoreFrame(1, Normal, [], None, Some(RangeErrorMessage(i, rolls[i]))))
  }

  const ExtraRollsMessage := "[System Error] Extra rolls detected beyond the final frame."

  /** `ValidateExtra`: the virtual frame N+1 reporting unconsumed rolls. */
  function ExtraFrame(n: int): ScoreFrame
  {
    ScoreFrame(n + 1, Normal, [], None, Some(ExtraRollsMessage))
  }

  // -----------------------------------------------------------------------
  // Throws of one frame

  /** A throw that knocked down more pins than were standing: which throw of
      the frame (1-based), the roll and the pins that were standing. */
  datatype Fault = Fault(throw: nat, roll: int, remain: int)

  /** The rolls a frame consumes and the fault that ended it, if any. */
  datatype Throws = Throws(taken: seq<int>, fault: Option<Fault>)

  /** A Normal frame: up to two tries at 10 pins; a strike ends it after one
      try, a roll above the standing pins is consumed and ends it with a fault,
      and it takes what is there when the log runs out. */
  function NormalThrows(rolls: seq<int>, index: nat): (t: Throws)
    requires index <= |rolls|
    ensures |t.taken| <= 2 && index + |t.taken| <= |rolls|
    ensures t.taken == rolls[index..index + |t.taken|]
    ensures index < |rolls| <==> |t.taken| >= 1
  {
    if index == |rolls| then Throws([], None)
    else
      var first := rolls[index];
      if first > MaxPins then Throws([first], Some(Fault(1, first, MaxPins)))
      else if first == MaxPins || index + 1 == |rolls| then Throws([first], None)
      else
        var second := rolls[index + 1];
        Throws(rolls[index..index + 2],
               if second > MaxPins - first then Some(Fault(2, second, MaxPins - first)) else None)
  }

  predicate IsStrike(t: Throws)
  {
    t.fault.None? && t.taken == [MaxPins]
  }

  predicate IsSpare(t: Throws)
  {
    t.fault.None? && |t.taken| == 2 && t.taken[0] + t.taken[1] == MaxPins
  }

  predicate IsOpen(t: Throws)
  {
    t.fault.None? && |t.taken| == 2 && t.taken[0] + t.taken[1] != MaxPins
  }

  /** The points a Normal frame adds to the running total, once every roll
      they depend on is in the log: a strike needs the next two rolls, a
      spare the next one, an open frame none. */
  function NormalPoints(rolls: seq<int>, index: nat): Option<int>
    requires index <= |rolls|
  {
    var t := NormalThrows(rolls, index);
    var next := index + |t.taken|;
    if IsStrike(t) then (if next + 1 < |rolls| then Some(MaxPins + rolls[next] + rolls[next + 1]) else None)
    else if IsSpare(t) then (if next < |rolls| then Some(MaxPins + rolls[next]) else None)
    else if IsOpen(t) then Some(t.taken[0] + t.taken[1])
    else None
  }

  function NormalRollError(frameNum: int, f: Fault): string
  {
    "ERROR: Frame " + IntToString(frameNum) + " roll is " + IntToString(f.roll) + " (Remain: "
    + IntToString(f.remain) + "). Input ignored."
  }

  /** `ConsumeAndCalculateNormalFrame`: the frame it adds. */
  function NormalFrame(frameNum: int, rolls: seq<int>, c: Cursor): ScoreFrame
    requires c.index <= |rolls|
  {
    var t := NormalThrows(rolls, c.index);
    ScoreFrame(frameNum, Normal, t.taken,
               match NormalPoints(rolls, c.index)
               case Some(p) => Some(c.total + p)
               case None => None,
               match t.fault
               case Some(f) => Some(NormalRollError(frameNum, f))
               case None => None)
  }

  /** `ConsumeAndCalculateNormalFrame`: the cursor and running total it leaves. */
  function NormalAdvance(rolls: seq<int>, c: Cursor): (r: Cursor)
    requires c.index <= |rolls|
    ensures c.index <= r.index <= |rolls|
  {
    Cursor(c.index + |NormalThrows(rolls, c.index).taken|, c.total + NormalPoints(rolls, c.index).GetOr(0))
  }

  /** Pins are set up again once all are down. */
  function Reset(pins: int): int
  {
    if pins == 0 then MaxPins else pins
  }

  /** The Final frame: up to three throws; the pins are reset whenever they are
      cleared; after an open second throw the frame ends unless the first throw
      was a strike; a roll above the standing pins is consumed and ends it. */
  function FinalThrows(rolls: seq<int>, index: nat): (t: Throws)
    requires index <= |rolls|
    ensures |t.taken| <= 3 && index + |t.taken| <= |rolls|
    ensures t.taken == rolls[index..index + |t.taken|]
    ensures index < |rolls| <==> |t.taken| >= 1
  {
    if index == |rolls| then Throws([], None)
    else
      var first := rolls[index];
      if first > MaxPins then Throws([first], Some(Fault(1, first, MaxPins)))
      else
        var standing := Reset(MaxPins - first);
        if index + 1 == |rolls| then Throws([first], None)
        else
          var second := rolls[index + 1];
          if second > standing then Throws(rolls[index..index + 2], Some(Fault(2, second, standing)))
          else if standing - second != 0 && first != MaxPins then Throws(rolls[index..index + 2], None)
          else
            var standing' := Reset(standing - second);
            if index + 2 == |rolls| then Throws(rolls[index..index + 2], None)
            else
              var third := rolls[index + 2];
              Throws(rolls[index..index + 3],
                     if third > standing' then Some(Fault(3, third, standing')) else None)
  }

  /** `IsFinalFrameFinished`: three throws, or two that left pins standing. */
  predicate IsFinalFrameFinished(rolls: seq<int>)
  {
    |rolls| == 3 || (|rolls| == 2 && rolls[0] + rolls[1] < 10)
  }

  function FinalRollError(frameNum: int, f: Fault): string
  {
    "ERROR: Frame " + IntToString(frameNum) + " roll " + IntToString(f.throw) + " is " + IntToString(f.roll)
    + " (Remain: " + IntToString(f.remain) + "). Input ignored."
  }

  /** `ConsumeAndCalculateFinalFrame`: the frame it adds; its score is the flat
      sum of its rolls once it is finished. */
  function FinalFrame(frameNum: int, rolls: seq<int>, c: Cursor): ScoreFrame
    requires c.index <= |rolls|
  {
    var t := FinalThrows(rolls, c.index);
    ScoreFrame(frameNum, Final, t.taken,
               if IsFinalFrameFinished(t.taken) then Some(c.total + Sum(t.taken)) else None,
               match t.fault
               case Some(f) => Some(FinalRollError(frameNum, f))
               case None => None)
  }

  function FinalAdvance(rolls: seq<int>, c: Cursor): (r: Cursor)
    requires c.index <= |rolls|
    ensures c.index <= r.index <= |rolls|
  {
    var t := FinalThrows(rolls, c.index);
    Cursor(c.index + |t.taken|, if IsFinalFrameFinished(t.taken) then c.total + Sum(t.taken) else c.total)
  }

  // -----------------------------------------------------------------------
  // The whole game

  /** Frames built so far and where the cursor stands after them. */
  datatype Tally = Tally(frames: seq<ScoreFrame>, end: Cursor)

  /** The Normal frames `frameNum` .. `n - 1`, each continuing from the cursor
      and running total the previous one left. */
  function NormalFrames(rolls: seq<int>, c: Cursor, frameNum: int, n: int): (r: Tally)
    requires c.index <= |rolls|
    ensures c.index <= r.end.index <= |rolls|
    ensures |r.frames| == if frameNum < n then n - frameNum else 0
    decreases n - frameNum
  {
    if frameNum >= n then Tally([], c)
    else
      var rest := NormalFrames(rolls, NormalAdvance(rolls, c), frameNum + 1, n);
      Tally([NormalFrame(frameNum, rolls, c)] + rest.frames, rest.end)
  }

  /** `StandardScoreCalculator(n).Calculate(rolls)`. */
  function Calculate(rolls: seq<int>, n: int): seq<ScoreFrame>
  {
    match RangeError(rolls)
    case Some(e) => [e]
    case None =>
      var normal := NormalFrames(rolls, Cursor(0, 0), 1, n);
      var last := FinalAdvance(rolls, normal.end);
      normal.frames + [FinalFrame(n, rolls, normal.end)] + (if last.index < |rolls| then [ExtraFrame(n)] else [])
  }

  /** `Calculate` on a log whose rolls are all in range, unfolded. */
  lemma CalculateInRange(rolls: seq<int>, n: int)
    requires RangeError(rolls).None?
    ensures var normal := NormalFrames(rolls, Cursor(0, 0), 1, n);
      Calculate(rolls, n) == normal.frames + [FinalFrame(n, rolls, normal.end)]
        + (if FinalAdvance(rolls, normal.end).index < |rolls| then [ExtraFrame(n)] else [])
  {
  }

  /** Some frame carries a non-empty error message. */
  predicate AnyError(frames: seq<ScoreFrame>)
  {
    exists k :: 0 <= k < |frames| && HasError(frames[k])
  }
}
