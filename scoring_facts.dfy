/** What the current engine promises, proved about the reference definition
    `Scoring.Calculate`: the frame layout, how the frames partition the log,
    the Normal and Final frame rules, monotone cumulative scores, and the games
    of the calculator's test file. */
module ScoringFacts {
  import opened Wrappers
  import opened Core
  import opened Scoring

  // -----------------------------------------------------------------------
  // Where each frame starts

  /** The cursor and running total after `k` Normal frames starting at `c`. */
  function Walk(rolls: seq<int>, c: Cursor, k: nat): (r: Cursor)
    requires c.index <= |rolls|
    ensures c.index <= r.index <= |rolls|
    decreases k
  {
    if k == 0 then c else Walk(rolls, NormalAdvance(rolls, c), k - 1)
  }

  /** The cursor and running total the engine holds before frame `k + 1`
      (0 <= k < N; the Final frame starts at `Before(rolls, N - 1)`). */
  function Before(rolls: seq<int>, k: nat): (r: Cursor)
    ensures r.index <= |rolls|
  {
    Walk(rolls, Cursor(0, 0), k)
  }

  /** How many rolls the N frames consume. */
  function Consumed(rolls: seq<int>, n: int): (r: nat)
    requires n >= 1
    ensures r <= |rolls|
  {
    FinalAdvance(rolls, Before(rolls, n - 1)).index
  }

  lemma {:induction false} WalkStep(rolls: seq<int>, c: Cursor, k: nat)
    requires c.index <= |rolls|
    ensures Walk(rolls, c, k + 1) == NormalAdvance(rolls, Walk(rolls, c, k))
    decreases k
  {
    if k > 0 {
      WalkStep(rolls, NormalAdvance(rolls, c), k - 1);
    }
  }

  /** Normal frame `frameNum + k` is built from the cursor `k` frames on. */
  lemma {:induction false} NormalFramesWalk(rolls: seq<int>, c: Cursor, frameNum: int, n: int)
    requires c.index <= |rolls|
    ensures var r := NormalFrames(rolls, c, frameNum, n);
      && r.end == Walk(rolls, c, |r.frames|)
      && forall k :: 0 <= k < |r.frames| ==> r.frames[k] == NormalFrame(frameNum + k, rolls, Walk(rolls, c, k))
  {
    NormalFramesEnd(rolls, c, frameNum, n);
    var r := NormalFrames(rolls, c, frameNum, n);
    forall k | 0 <= k < |r.frames|
      ensures r.frames[k] == NormalFrame(frameNum + k, rolls, Walk(rolls, c, k))
    {
      NormalFrameAt(rolls, c, frameNum, n, k);
    }
  }

  lemma {:induction false} NormalFramesEnd(rolls: seq<int>, c: Cursor, frameNum: int, n: int)
    requires c.index <= |rolls|
    ensures var r := NormalFrames(rolls, c, frameNum, n); r.end == Walk(rolls, c, |r.frames|)
    decreases n - frameNum
  {
    if frameNum < n {
      NormalFramesEnd(rolls, NormalAdvance(rolls, c), frameNum + 1, n);
    }
  }

  lemma {:induction false} NormalFrameAt(rolls: seq<int>, c: Cursor, frameNum: int, n: int, k: nat)
    requires c.index <= |rolls| && k < |NormalFrames(rolls, c, frameNum, n).frames|
    ensures NormalFrames(rolls, c, frameNum, n).frames[k] == NormalFrame(frameNum + k, rolls, Walk(rolls, c, k))
    decreases k
  {
    var c' := NormalAdvance(rolls, c);
    NormalFramesCons(rolls, c, frameNum, n);
    if k > 0 {
      var frames := NormalFrames(rolls, c, frameNum, n).frames;
      assert frames[k] == frames[1..][k - 1];
      NormalFrameAt(rolls, c', frameNum + 1, n, k - 1);
    }
  }

  /** `NormalFrames` with at least one frame to build, unfolded once. */
  lemma NormalFramesCons(rolls: seq<int>, c: Cursor, frameNum: int, n: int)
    requires c.index <= |rolls| && frameNum < n
    ensures var r := NormalFrames(rolls, c, frameNum, n);
      var rest := NormalFrames(rolls, NormalAdvance(rolls, c), frameNum + 1, n);
      && r.frames[0] == NormalFrame(frameNum, rolls, c) && r.frames[1..] == rest.frames && r.end == rest.end
  {
  }

  /** The whole output for an in-range log: frames 1..N-1 are Normal frames
      each continuing where the previous stopped, frame N is the Final frame,
      and the frame N+1 error appears exactly when rolls are left over. */
  lemma CalculateLayout(rolls: seq<int>, n: int)
    requires n >= 1 && AllInRange(rolls)
    ensures var r := Calculate(rolls, n);
      && |r| == (if Consumed(rolls, n) < |rolls| then n + 1 else n)
      && (forall k :: 0 <= k < n - 1 ==> r[k] == NormalFrame(k + 1, rolls, Before(rolls, k)))
      && r[n - 1] == FinalFrame(n, rolls, Before(rolls, n - 1))
      && (|r| > n ==> r[n] == ExtraFrame(n))
  {
    assert FirstOutOfRange(rolls, 0).None?;
    CalculateInRange(rolls, n);
    NormalFramesWalk(rolls, Cursor(0, 0), 1, n);
  }

  // -----------------------------------------------------------------------
  // Range errors and the frame layout

  /** A roll outside 0..10 anywhere in the log replaces the whole output by
      one error frame numbered 1 that names the first bad index and roll. */
  lemma OutOfRangeOutput(rolls: seq<int>, n: int)
    requires !AllInRange(rolls)
    ensures var r := Calculate(rolls, n);
      && |r| == 1 && r[0].number == 1 && r[0].kind == Normal
      && r[0].rolls == [] && r[0].score.None? && HasError(r[0])
      && exists i :: 0 <= i < |rolls| && !InRange(rolls[i]) && (forall j :: 0 <= j < i ==> InRange(rolls[j]))
                     && r[0].error == Some(RangeErrorMessage(i, rolls[i]))
  {
    var i := FirstOutOfRange(rolls, 0).value;
    assert |RangeErrorMessage(i, rolls[i])| > 0;
  }

  /** For an in-range log: frames are numbered 1, 2, ... in order, only frame
      N is Final, and there is one frame more than N exactly when the N
      frames leave rolls unconsumed; that frame holds only an error. */
  lemma FrameLayout(rolls: seq<int>, n: int)
    requires n >= 1 && AllInRange(rolls)
    ensures var r := Calculate(rolls, n);
      && (|r| == n || |r| == n + 1)
      && (|r| == n + 1 <==> Consumed(rolls, n) < |rolls|)
      && (forall k :: 0 <= k < |r| ==> r[k].number == k + 1)
      && (forall k :: 0 <= k < |r| ==> (r[k].kind == Final <==> k == n - 1))
      && (|r| == n + 1 ==> r[n].rolls == [] && r[n].score.None? && HasError(r[n]))
  {
    CalculateLayout(rolls, n);
    var r := Calculate(rolls, n);
    if |r| == n + 1 {
      assert |ExtraRollsMessage| > 0;
    }
  }

  // -----------------------------------------------------------------------
  // The frames partition the log

  /** The rolls of the frames, concatenated in order. */
  function Flatten(frames: seq<ScoreFrame>): seq<int>
  {
    if frames == [] then [] else Flatten(frames[..|frames| - 1]) + frames[|frames| - 1].rolls
  }

  /** A Normal frame takes its rolls from where its cursor stands up to where
      the next frame starts. */
  lemma NormalFrameRolls(rolls: seq<int>, frameNum: int, c: Cursor)
    requires c.index <= |rolls|
    ensures NormalFrame(frameNum, rolls, c).rolls == rolls[c.index..NormalAdvance(rolls, c).index]
  {
  }

  lemma {:induction false} NormalPrefixRolls(rolls: seq<int>, r: seq<ScoreFrame>, k: nat)
    requires k <= |r|
    requires forall j :: 0 <= j < k ==> r[j] == NormalFrame(j + 1, rolls, Before(rolls, j))
    ensures Flatten(r[..k]) == rolls[..Before(rolls, k).index]
  {
    if k > 0 {
      NormalPrefixRolls(rolls, r, k - 1);
      var b := Before(rolls, k - 1);
      WalkStep(rolls, Cursor(0, 0), k - 1);
      NormalFrameRolls(rolls, k, b);
      PrefixJoin(rolls, r, k, b.index, Before(rolls, k).index);
    }
  }

  /** Frames `0 .. k - 2` holding `rolls[..i]` and frame `k - 1` holding
      `rolls[i..j]` hold `rolls[..j]`. */
  lemma PrefixJoin(rolls: seq<int>, r: seq<ScoreFrame>, k: nat, i: nat, j: nat)
    requires 0 < k <= |r| && i <= j <= |rolls|
    requires Flatten(r[..k - 1]) == rolls[..i] && r[k - 1].rolls == rolls[i..j]
    ensures Flatten(r[..k]) == rolls[..j]
  {
    assert r[..k][..k - 1] == r[..k - 1];
    SliceJoin(rolls, 0, i, j);
    assert rolls[..i] == rolls[0..i] && rolls[..j] == rolls[0..j];
  }

  /** For an in-range log the N frames hold, in order, exactly the consumed
      rolls.  Together with `FrameLayout`: every roll is either in a frame or
      reported by the extra frame. */
  lemma RollPartition(rolls: seq<int>, n: int)
    requires n >= 1 && AllInRange(rolls)
    ensures Flatten(Calculate(rolls, n)) == rolls[..Consumed(rolls, n)]
  {
    assert FirstOutOfRange(rolls, 0).None?;
    CalculateInRange(rolls, n);
    var normal := NormalFrames(rolls, Cursor(0, 0), 1, n);
    var b := normal.end;
    var last := FinalFrame(n, rolls, b);
    var extra := if FinalAdvance(rolls, b).index < |rolls| then [ExtraFrame(n)] else [];
    NormalFramesWalk(rolls, Cursor(0, 0), 1, n);
    assert b == Before(rolls, n - 1);
    assert Flatten(normal.frames) == rolls[..b.index] by {
      NormalPrefixRolls(rolls, normal.frames, n - 1);
      assert normal.frames[..n - 1] == normal.frames;
    }
    FinalFrameRolls(rolls, n, b);
    PartitionJoin(rolls, normal.frames, last, extra, b.index, Consumed(rolls, n));
  }

  /** Frames holding `rolls[..i]`, a frame holding `rolls[i..j]` and frames
      holding nothing hold `rolls[..j]`. */
  lemma PartitionJoin(rolls: seq<int>, a: seq<ScoreFrame>, last: ScoreFrame, rest: seq<ScoreFrame>, i: nat, j: nat)
    requires i <= j <= |rolls| && Flatten(a) == rolls[..i] && last.rolls == rolls[i..j]
    requires forall k :: 0 <= k < |rest| ==> rest[k].rolls == []
    ensures Flatten(a + [last] + rest) == rolls[..j]
  {
    FlattenParts(a, last, rest);
    SliceJoin(rolls, 0, i, j);
    assert rolls[..i] == rolls[0..i] && rolls[..j] == rolls[0..j];
  }

  /** Frames followed by one frame and then frames without rolls. */
  lemma FlattenParts(a: seq<ScoreFrame>, last: ScoreFrame, rest: seq<ScoreFrame>)
    requires forall k :: 0 <= k < |rest| ==> rest[k].rolls == []
    ensures Flatten(a + [last] + rest) == Flatten(a) + last.rolls
  {
    FlattenAppend(a + [last], rest);
    FlattenEmpty(rest);
    assert (a + [last])[..|a|] == a;
  }

  lemma {:induction false} FlattenAppend(a: seq<ScoreFrame>, b: seq<ScoreFrame>)
    ensures Flatten(a + b) == Flatten(a) + Flatten(b)
    decreases |b|
  {
    if b == [] {
      assert a + b == a;
    } else {
      var b' := b[..|b| - 1];
      assert (a + b)[..|a + b| - 1] == a + b';
      FlattenAppend(a, b');
    }
  }

  lemma {:induction false} FlattenEmpty(frames: seq<ScoreFrame>)
    requires forall k :: 0 <= k < |frames| ==> frames[k].rolls == []
    ensures Flatten(frames) == []
    decreases |frames|
  {
    if frames != [] {
      FlattenEmpty(frames[..|frames| - 1]);
    }
  }

  /** The Final frame takes its rolls from where its cursor stands up to
      where its throws end. */
  lemma FinalFrameRolls(rolls: seq<int>, frameNum: int, c: Cursor)
    requires c.index <= |rolls|
    ensures FinalFrame(frameNum, rolls, c).rolls == rolls[c.index..FinalAdvance(rolls, c).index]
  {
  }

  /** A Normal frame holds at most two rolls and the Final frame at most three. */
  lemma FrameSizes(rolls: seq<int>, n: int)
    requires n >= 1 && AllInRange(rolls)
    ensures var r := Calculate(rolls, n);
      && (forall k :: 0 <= k < n - 1 ==> |r[k].rolls| <= 2)
      && |r[n - 1].rolls| <= 3
  {
    CalculateLayout(rolls, n);
  }

  // -----------------------------------------------------------------------
  // The rules of one frame

  /** A Normal frame of an in-range log: it holds one roll only for a strike
      or when the log ends, a second roll above the standing pins makes it an
      error frame without a score, a strike scores 10 plus the next two rolls
      and a spare 10 plus the next one once they are in the log, an open frame
      scores its pins, and the running total moves on by what it scored. */
  lemma NormalFrameRule(rolls: seq<int>, frameNum: int, c: Cursor)
    requires c.index <= |rolls| && AllInRange(rolls)
    ensures var f := NormalFrame(frameNum, rolls, c); var t := f.rolls; var i := c.index;
      && |t| <= 2 && (t == [] <==> i == |rolls|)
      && (|t| == 1 ==> t[0] == MaxPins || i + 1 == |rolls|)
      && (|t| == 2 ==> t[0] < MaxPins)
      && (HasError(f) <==> |t| == 2 && t[0] + t[1] > MaxPins)
      && (HasError(f) ==> f.score.None? && f.error == Some(NormalRollError(frameNum, Fault(2, t[1], MaxPins - t[0]))))
      && (!HasError(f) ==> f.error.None?)
      && (t == [MaxPins] ==>
            f.score == if i + 2 < |rolls| then Some(c.total + MaxPins + rolls[i + 1] + rolls[i + 2]) else None)
      && (|t| == 2 && t[0] + t[1] == MaxPins ==>
            f.score == if i + 2 < |rolls| then Some(c.total + MaxPins + rolls[i + 2]) else None)
      && (|t| == 2 && t[0] + t[1] < MaxPins ==> f.score == Some(c.total + t[0] + t[1]))
      && (|t| < 2 && t != [MaxPins] ==> f.score.None?)
      && NormalAdvance(rolls, c) == Cursor(i + |t|, f.score.GetOr(c.total))
  {
    var t := NormalThrows(rolls, c.index);
    if t.fault.Some? {
      var m := NormalRollError(frameNum, t.fault.value);
      assert |m| > 0;
    }
  }

  /** Pins standing before throw `j` of the Final frame: ten, less what the
      throws before knocked down, set up again whenever all are down. */
  function Standing(t: seq<int>, j: nat): int
    requires j <= |t|
  {
    if j == 0 then MaxPins else Reset(Standing(t, j - 1) - t[j - 1])
  }

  /** The throws of the Final frame of an in-range log: every throw but the
      last fits the standing pins, and the last one does unless the frame is
      an error frame; a third throw comes only after a strike or a cleared
      rack, and the frame stops at two throws only for an open frame, an
      error or the end of the log. */
  lemma FinalThrowsRule(rolls: seq<int>, frameNum: int, c: Cursor)
    requires c.index <= |rolls| && AllInRange(rolls)
    ensures var f := FinalFrame(frameNum, rolls, c); var t := f.rolls; var i := c.index;
      && |t| <= 3 && (t == [] <==> i == |rolls|)
      && (forall j :: 0 <= j < |t| - 1 ==> t[j] <= Standing(t, j))
      && (HasError(f) <==> |t| >= 2 && t[|t| - 1] > Standing(t, |t| - 1))
      && (HasError(f) ==> f.error == Some(FinalRollError(frameNum, Fault(|t|, t[|t| - 1], Standing(t, |t| - 1)))))
      && (!HasError(f) ==> f.error.None?)
      && (|t| == 1 ==> i + 1 == |rolls|)
      && (|t| == 2 ==> i + 2 == |rolls| || HasError(f) || t[0] + t[1] < MaxPins)
      && (|t| == 3 ==> t[0] == MaxPins || t[0] + t[1] == MaxPins)
  {
    var t := FinalThrows(rolls, c.index);
    if t.fault.Some? {
      var m := FinalRollError(frameNum, t.fault.value);
      assert |m| > 0;
    }
  }

  /** The score of the Final frame: the flat sum of its rolls added to the
      running total once it has three throws, or two that leave pins
      standing, whether or not its last throw was an error. */
  lemma FinalScoreRule(rolls: seq<int>, frameNum: int, c: Cursor)
    requires c.index <= |rolls|
    ensures var f := FinalFrame(frameNum, rolls, c); var t := f.rolls;
      && (f.score.Some? <==> |t| == 3 || (|t| == 2 && t[0] + t[1] < MaxPins))
      && (f.score.Some? ==> f.score.value == c.total + Sum(t))
      && FinalAdvance(rolls, c) == Cursor(c.index + |t|, f.score.GetOr(c.total))
  {
  }

  // -----------------------------------------------------------------------
  // Cumulative scores

  lemma {:induction false} SumBounds(t: seq<int>)
    requires AllInRange(t)
    ensures 0 <= Sum(t) <= MaxPins * |t|
  {
    if t != [] {
      SumBounds(t[1..]);
    }
  }

  lemma SumOfSmall(t: seq<int>)
    requires |t| <= 3
    ensures Sum(t) == if |t| == 0 then 0 else if |t| == 1 then t[0] else if |t| == 2 then t[0] + t[1]
                      else t[0] + t[1] + t[2]
  {
    if |t| > 0 {
      var u := t[1..];
      if |u| > 0 {
        var v := u[1..];
        if |v| > 0 {
          assert v[1..] == [];
        }
      }
    }
  }

  /** A Normal frame adds between 0 and 30 points to the running total. */
  lemma NormalPointsBounds(rolls: seq<int>, c: Cursor)
    requires c.index <= |rolls| && AllInRange(rolls)
    ensures c.total <= NormalAdvance(rolls, c).total <= c.total + 3 * MaxPins
  {
  }

  /** The running total before frame `k + 1` lies between 0 and 30 points per
      frame played, and never falls. */
  lemma {:induction false} TotalBounds(rolls: seq<int>, k: nat)
    requires AllInRange(rolls)
    ensures 0 <= Before(rolls, k).total <= 3 * MaxPins * k
    ensures forall j :: 0 <= j <= k ==> Before(rolls, j).total <= Before(rolls, k).total
  {
    if k > 0 {
      TotalBounds(rolls, k - 1);
      TotalStep(rolls, k);
    }
  }

  /** Frame `k` adds between 0 and 30 points. */
  lemma TotalStep(rolls: seq<int>, k: nat)
    requires AllInRange(rolls) && k > 0
    ensures Before(rolls, k - 1).total <= Before(rolls, k).total <= Before(rolls, k - 1).total + 3 * MaxPins
  {
    WalkStep(rolls, Cursor(0, 0), k - 1);
    NormalPointsBounds(rolls, Before(rolls, k - 1));
  }

  /** The Final frame adds between 0 and 30 points to the running total. */
  lemma FinalPointsBounds(rolls: seq<int>, frameNum: int, c: Cursor)
    requires c.index <= |rolls| && AllInRange(rolls)
    ensures var f := FinalFrame(frameNum, rolls, c);
      f.score.Some? ==> c.total <= f.score.value <= c.total + 3 * MaxPins
  {
    FinalScoreRule(rolls, frameNum, c);
    var t := FinalFrame(frameNum, rolls, c).rolls;
    assert |t| <= 3 && t == rolls[c.index..c.index + |t|];
    assert AllInRange(t) by {
      forall j | 0 <= j < |t| ensures InRange(t[j]) {
        assert t[j] == rolls[c.index + j];
      }
    }
    SumBounds(t);
  }

  /** A scored frame of an in-range log: its score is the running total after
      it, at least the total before it and at most 30 above it. */
  lemma ScoredFrame(rolls: seq<int>, n: int, k: nat)
    requires n >= 1 && AllInRange(rolls) && k < |Calculate(rolls, n)|
    ensures var r := Calculate(rolls, n); var before := Before(rolls, k).total;
      r[k].score.Some? ==>
        && k < n
        && before <= r[k].score.value <= before + 3 * MaxPins
        && (k < n - 1 ==> r[k].score.value == Before(rolls, k + 1).total)
  {
    CalculateLayout(rolls, n);
    var c := Before(rolls, k);
    if k < n - 1 {
      NormalFrameRule(rolls, k + 1, c);
      NormalPointsBounds(rolls, c);
      WalkStep(rolls, Cursor(0, 0), k);
    } else if k == n - 1 {
      FinalPointsBounds(rolls, n, c);
    }
  }

  /** Cumulative scores of an in-range log never decrease from one scored
      frame to a later one, and frame `k + 1` scores at most 30 per frame. */
  lemma ScoresNonDecreasing(rolls: seq<int>, n: int)
    requires n >= 1 && AllInRange(rolls)
    ensures var r := Calculate(rolls, n);
      && (forall k :: 0 <= k < |r| && r[k].score.Some? ==> 0 <= r[k].score.value <= 3 * MaxPins * (k + 1))
      && (forall i, j :: 0 <= i < j < |r| && r[i].score.Some? && r[j].score.Some? ==>
            r[i].score.value <= r[j].score.value)
  {
    var r := Calculate(rolls, n);
    forall k | 0 <= k < |r| && r[k].score.Some?
      ensures 0 <= r[k].score.value <= 3 * MaxPins * (k + 1)
    {
      ScoredFrame(rolls, n, k);
      TotalBounds(rolls, k);
    }
    forall i, j | 0 <= i < j < |r| && r[i].score.Some? && r[j].score.Some?
      ensures r[i].score.value <= r[j].score.value
    {
      ScoredFrame(rolls, n, i);
      ScoredFrame(rolls, n, j);
      TotalBounds(rolls, j);
    }
  }

  // -----------------------------------------------------------------------
  // Games from the calculator's tests (ten frames)

  /** The score of the last frame that has one. */
  function LastScore(frames: seq<ScoreFrame>): Option<int>
  {
    if frames == [] then None
    else if frames[|frames| - 1].score.Some? then frames[|frames| - 1].score
    else LastScore(frames[..|frames| - 1])
  }

  lemma {:induction false} LastScoreAt(r: seq<ScoreFrame>, k: nat)
    requires k < |r| && r[k].score.Some?
    requires forall j :: k < j < |r| ==> r[j].score.None?
    ensures LastScore(r) == r[k].score
    decreases |r|
  {
    if k < |r| - 1 {
      LastScoreAt(r[..|r| - 1], k);
    }
  }

  /** The first frame that has an error. */
  function FirstError(frames: seq<ScoreFrame>): (r: Option<ScoreFrame>)
    ensures r.Some? <==> AnyError(frames)
    ensures r.Some? ==> HasError(r.value) && exists k :: 0 <= k < |frames| && frames[k] == r.value
  {
    if frames == [] then None
    else if HasError(frames[0]) then Some(frames[0])
    else
      var r := FirstError(frames[1..]);
      assert AnyError(frames[1..]) ==> AnyError(frames) by {
        if AnyError(frames[1..]) {
          var k :| 0 <= k < |frames[1..]| && HasError(frames[1..][k]);
          assert frames[k + 1] == frames[1..][k];
        }
      }
      assert AnyError(frames) ==> AnyError(frames[1..]) by {
        if AnyError(frames) {
          var k :| 0 <= k < |frames| && HasError(frames[k]);
          assert k > 0 && frames[1..][k - 1] == frames[k];
        }
      }
      assert r.Some? ==> exists k :: 0 <= k < |frames| && frames[k] == r.value by {
        if r.Some? {
          var k :| 0 <= k < |frames[1..]| && frames[1..][k] == r.value;
          assert frames[k + 1] == r.value;
        }
      }
      r
  }

  lemma {:induction false} FirstErrorAt(r: seq<ScoreFrame>, k: nat)
    requires k < |r| && HasError(r[k])
    requires forall j :: 0 <= j < k ==> !HasError(r[j])
    ensures FirstError(r) == Some(r[k])
  {
    if k > 0 {
      FirstErrorAt(r[1..], k - 1);
    }
  }

  lemma FinalErrorUnscored(rolls: seq<int>, n: int, c: Cursor)
    requires c.index <= |rolls| && AllInRange(rolls)
    ensures var f := FinalFrame(n, rolls, c); HasError(f) ==> f.score.None? || |f.rolls| == 3
  {
    FinalThrowsRule(rolls, n, c);
    FinalScoreRule(rolls, n, c);
    var t := FinalFrame(n, rolls, c).rolls;
    if |t| == 2 {
      assert Standing(t, 1) == Reset(MaxPins - t[0]);
      assert t == rolls[c.index..c.index + 2];
      assert InRange(t[1]) by { assert t[1] == rolls[c.index + 1]; }
    }
  }

  /** A Normal error frame has no score. */
  lemma NormalErrorUnscored(rolls: seq<int>, frameNum: int, c: Cursor)
    requires c.index <= |rolls|
    ensures var f := NormalFrame(frameNum, rolls, c); HasError(f) ==> f.score.None?
  {
  }

  /** An error frame has no score, except a Final frame whose third throw
      was the error: the engine still adds that frame's rolls. */
  lemma ErrorFramesUnscored(rolls: seq<int>, n: int)
    requires n >= 1
    ensures var r := Calculate(rolls, n);
      forall k :: 0 <= k < |r| && HasError(r[k]) ==>
        r[k].score.None? || (k == n - 1 && r[k].kind == Final && |r[k].rolls| == 3)
  {
    if !AllInRange(rolls) {
      OutOfRangeOutput(rolls, n);
    } else {
      CalculateLayout(rolls, n);
      LayoutErrorsUnscored(rolls, n, Calculate(rolls, n));
    }
  }

  lemma LayoutErrorsUnscored(rolls: seq<int>, n: int, r: seq<ScoreFrame>)
    requires n >= 1 && AllInRange(rolls) && n <= |r| <= n + 1
    requires forall k :: 0 <= k < n - 1 ==> r[k] == NormalFrame(k + 1, rolls, Before(rolls, k))
    requires r[n - 1] == FinalFrame(n, rolls, Before(rolls, n - 1))
    requires |r| > n ==> r[n] == ExtraFrame(n)
    ensures forall k :: 0 <= k < |r| && HasError(r[k]) ==>
        r[k].score.None? || (k == n - 1 && r[k].kind == Final && |r[k].rolls| == 3)
  {
    forall k | 0 <= k < |r| && HasError(r[k])
      ensures r[k].score.None? || (k == n - 1 && r[k].kind == Final && |r[k].rolls| == 3)
    {
      if k < n - 1 {
        NormalErrorUnscored(rolls, k + 1, Before(rolls, k));
      } else if k == n - 1 {
        FinalErrorUnscored(rolls, n, Before(rolls, k));
      }
    }
  }

  /** The first error frame of any game has no score, unless it is the Final
      frame and took three throws. */
  lemma FirstErrorUnscored(rolls: seq<int>, n: int)
    requires n >= 1
    ensures var r := Calculate(rolls, n); var e := FirstError(r);
      e.Some? ==> e.value.score.None? || (e.value.kind == Final && |e.value.rolls| == 3)
  {
    ErrorFramesUnscored(rolls, n);
    var r := Calculate(rolls, n);
    if FirstError(r).Some? {
      var k :| 0 <= k < |r| && r[k] == FirstError(r).value;
    }
  }

  /** A log with a roll outside 0..10 reports exactly one error frame, and it
      is the first. */
  lemma OutOfRangeFirstError(rolls: seq<int>, n: int)
    requires !AllInRange(rolls)
    ensures var r := Calculate(rolls, n); FirstError(r) == Some(r[0]) && r[0].score.None?
  {
    OutOfRangeOutput(rolls, n);
    FirstErrorAt(Calculate(rolls, n), 0);
  }

  /** In an in-range game whose Final frame does not take three throws, the
      first error frame has no score. */
  lemma FirstErrorOfGame(rolls: seq<int>, n: int)
    requires n >= 1 && AllInRange(rolls)
    requires |FinalFrame(n, rolls, Before(rolls, n - 1)).rolls| != 3
    ensures var e := FirstError(Calculate(rolls, n)); e.Some? ==> e.value.score.None?
  {
    FirstErrorUnscored(rolls, n);
    FrameLayout(rolls, n);
    CalculateLayout(rolls, n);
    var r := Calculate(rolls, n);
    if FirstError(r).Some? {
      var k :| 0 <= k < |r| && r[k] == FirstError(r).value;
    }
  }

  /** Frame `k + 1` of an in-range game, built from the cursor it starts at. */
  function FrameAt(rolls: seq<int>, n: int, k: nat): ScoreFrame
    requires k < n
  {
    if k < n - 1 then NormalFrame(k + 1, rolls, Before(rolls, k)) else FinalFrame(n, rolls, Before(rolls, n - 1))
  }

  lemma FramesAt(rolls: seq<int>, n: int)
    requires n >= 1 && AllInRange(rolls)
    ensures forall k :: 0 <= k < n ==> Calculate(rolls, n)[k] == FrameAt(rolls, n, k)
  {
    CalculateLayout(rolls, n);
  }

  /** The last score of an in-range game is that of frame `k + 1` when no
      later frame of the N has one. */
  lemma LastScoreOfGame(rolls: seq<int>, n: int, k: nat)
    requires n >= 1 && AllInRange(rolls) && k < n
    requires FrameAt(rolls, n, k).score.Some?
    requires forall j :: k < j < n ==> FrameAt(rolls, n, j).score.None?
    ensures LastScore(Calculate(rolls, n)) == FrameAt(rolls, n, k).score
  {
    FrameLayout(rolls, n);
    FramesAt(rolls, n);
    LastScoreAt(Calculate(rolls, n), k);
  }

  /** ... in particular, when the Final frame, starting at cursor `c`, is
      scored. */
  lemma LastScoreIsFinal(rolls: seq<int>, n: int, c: Cursor, score: int)
    requires n >= 1 && AllInRange(rolls) && Before(rolls, n - 1) == c
    requires FinalFrame(n, rolls, c).score == Some(score)
    ensures LastScore(Calculate(rolls, n)) == Some(score)
  {
    LastScoreOfGame(rolls, n, n - 1);
  }

  // -----------------------------------------------------------------------
  // One frame at a time: where frame `k` leaves the cursor (the `Advance`
  // lemmas) and what frame `k + 1` scores (the `Step` lemmas), for each way a
  // Normal frame can go

  /** A strike takes one roll and adds 10 plus the next two rolls. */
  lemma StrikeAdvance(rolls: seq<int>, k: nat, c: Cursor, e: Cursor)
    requires 0 < k && Before(rolls, k - 1) == c && c.index + 2 < |rolls| && rolls[c.index] == MaxPins
    requires e == Cursor(c.index + 1, c.total + MaxPins + rolls[c.index + 1] + rolls[c.index + 2])
    ensures Before(rolls, k) == e
  {
    WalkStep(rolls, Cursor(0, 0), k - 1);
  }

  lemma StrikeStep(rolls: seq<int>, k: nat, c: Cursor)
    requires Before(rolls, k) == c && c.index + 2 < |rolls| && rolls[c.index] == MaxPins
    ensures var f := NormalFrame(k + 1, rolls, c);
      f.score == Some(Before(rolls, k + 1).total) && f.rolls == [MaxPins] && f.error.None?
  {
    StrikeAdvance(rolls, k + 1, c, Cursor(c.index + 1, c.total + MaxPins + rolls[c.index + 1] + rolls[c.index + 2]));
  }

  /** A strike whose two bonus rolls are not both in the log yet takes one
      roll and has no score. */
  lemma PendingStrikeAdvance(rolls: seq<int>, k: nat, c: Cursor, e: Cursor)
    requires 0 < k && Before(rolls, k - 1) == c && c.index < |rolls| <= c.index + 2 && rolls[c.index] == MaxPins
    requires e == Cursor(c.index + 1, c.total)
    ensures Before(rolls, k) == e
  {
    WalkStep(rolls, Cursor(0, 0), k - 1);
  }

  lemma PendingStrikeStep(rolls: seq<int>, k: nat, c: Cursor)
    requires Before(rolls, k) == c && c.index < |rolls| <= c.index + 2 && rolls[c.index] == MaxPins
    ensures var f := NormalFrame(k + 1, rolls, c); f.score.None? && f.rolls == [MaxPins] && f.error.None?
  {
  }

  /** A spare takes two rolls and adds 10 plus the next roll. */
  lemma SpareAdvance(rolls: seq<int>, k: nat, c: Cursor, e: Cursor)
    requires 0 < k && Before(rolls, k - 1) == c && c.index + 2 < |rolls|
    requires 0 <= rolls[c.index] < MaxPins && rolls[c.index] + rolls[c.index + 1] == MaxPins
    requires e == Cursor(c.index + 2, c.total + MaxPins + rolls[c.index + 2])
    ensures Before(rolls, k) == e
  {
    WalkStep(rolls, Cursor(0, 0), k - 1);
  }

  lemma SpareStep(rolls: seq<int>, k: nat, c: Cursor)
    requires Before(rolls, k) == c && c.index + 2 < |rolls|
    requires 0 <= rolls[c.index] < MaxPins && rolls[c.index] + rolls[c.index + 1] == MaxPins
    ensures var f := NormalFrame(k + 1, rolls, c);
      f.score == Some(Before(rolls, k + 1).total) && f.rolls == rolls[c.index..c.index + 2] && f.error.None?
  {
    SpareAdvance(rolls, k + 1, c, Cursor(c.index + 2, c.total + MaxPins + rolls[c.index + 2]));
  }

  /** An open frame takes two rolls and adds its pins. */
  lemma OpenAdvance(rolls: seq<int>, k: nat, c: Cursor, e: Cursor)
    requires 0 < k && Before(rolls, k - 1) == c && c.index + 1 < |rolls|
    requires 0 <= rolls[c.index] && 0 <= rolls[c.index + 1] && rolls[c.index] + rolls[c.index + 1] < MaxPins
    requires e == Cursor(c.index + 2, c.total + rolls[c.index] + rolls[c.index + 1])
    ensures Before(rolls, k) == e
  {
    WalkStep(rolls, Cursor(0, 0), k - 1);
  }

  lemma OpenStep(rolls: seq<int>, k: nat, c: Cursor)
    requires Before(rolls, k) == c && c.index + 1 < |rolls|
    requires 0 <= rolls[c.index] && 0 <= rolls[c.index + 1] && rolls[c.index] + rolls[c.index + 1] < MaxPins
    ensures var f := NormalFrame(k + 1, rolls, c);
      f.score == Some(Before(rolls, k + 1).total) && f.rolls == rolls[c.index..c.index + 2] && f.error.None?
  {
    OpenAdvance(rolls, k + 1, c, Cursor(c.index + 2, c.total + rolls[c.index] + rolls[c.index + 1]));
  }

  /** A second roll above the standing pins: both rolls are consumed and the
      running total stays. */
  lemma OverflowAdvance(rolls: seq<int>, k: nat, c: Cursor, e: Cursor)
    requires 0 < k && Before(rolls, k - 1) == c && c.index + 1 < |rolls|
    requires 0 <= rolls[c.index] < MaxPins && rolls[c.index] + rolls[c.index + 1] > MaxPins
    requires e == Cursor(c.index + 2, c.total)
    ensures Before(rolls, k) == e
  {
    WalkStep(rolls, Cursor(0, 0), k - 1);
  }

  /** ... and the frame holds both rolls, an error and no score. */
  lemma OverflowStep(rolls: seq<int>, k: nat, c: Cursor)
    requires Before(rolls, k) == c && c.index + 1 < |rolls|
    requires 0 <= rolls[c.index] < MaxPins && rolls[c.index] + rolls[c.index + 1] > MaxPins
    ensures var f := NormalFrame(k + 1, rolls, c);
      f.score.None? && HasError(f) && f.rolls == rolls[c.index..c.index + 2]
  {
    var t := NormalThrows(rolls, c.index);
    assert t == Throws(rolls[c.index..c.index + 2], Some(Fault(2, rolls[c.index + 1], MaxPins - rolls[c.index])));
    var m := NormalRollError(k + 1, t.fault.value);
    assert |m| > 0;
  }

  /** Once the log is used up the cursor stays and a frame is empty and
      unscored. */
  lemma EndAdvance(rolls: seq<int>, k: nat, c: Cursor)
    requires 0 < k && Before(rolls, k - 1) == c && c.index == |rolls|
    ensures Before(rolls, k) == c
  {
    WalkStep(rolls, Cursor(0, 0), k - 1);
  }

  lemma EndStep(rolls: seq<int>, k: nat, c: Cursor)
    requires Before(rolls, k) == c && c.index == |rolls|
    ensures var f := NormalFrame(k + 1, rolls, c); f.score.None? && f.rolls == [] && f.error.None?
  {
  }

  /** Strikes in frames `k + 1` .. `j`, each followed by two more strikes,
      add 30 points each. */
  lemma {:induction false} StrikeRun(rolls: seq<int>, k: nat, c: Cursor, j: nat, e: Cursor)
    requires k <= j && Before(rolls, k) == c && c.index + (j - k) + 2 <= |rolls|
    requires forall i :: c.index <= i < c.index + (j - k) + 2 ==> rolls[i] == MaxPins
    requires e == Cursor(c.index + (j - k), c.total + 3 * MaxPins * (j - k))
    ensures Before(rolls, j) == e
  {
    if k < j {
      var d := Cursor(c.index + (j - 1 - k), c.total + 3 * MaxPins * (j - 1 - k));
      StrikeRun(rolls, k, c, j - 1, d);
      StrikeAdvance(rolls, j, d, e);
    } else {
      assert e == c;
    }
  }

  /** In a stretch of rolls alternating `a` and `b`, an even offset holds `a`
      and the one after it, if any, `b`. */
  lemma Alternating(rolls: seq<int>, start: nat, len: nat, a: int, b: int, m: nat)
    requires start + len <= |rolls| && 2 * m < len
    requires forall i :: start <= i < start + len ==> rolls[i] == if (i - start) % 2 == 0 then a else b
    ensures rolls[start + 2 * m] == a
    ensures 2 * m + 1 < len ==> rolls[start + 2 * m + 1] == b
  {
    assert (2 * m) % 2 == 0 && (2 * m + 1) % 2 == 1;
    assert rolls[start + 2 * m] == if (start + 2 * m - start) % 2 == 0 then a else b;
    if 2 * m + 1 < len {
      assert rolls[start + 2 * m + 1] == if (start + 2 * m + 1 - start) % 2 == 0 then a else b;
    }
  }

  /** `m` frames of `p` points each. */
  function Times(m: nat, p: int): int
  {
    if m == 0 then 0 else Times(m - 1, p) + p
  }

  lemma {:induction false} TimesIsProduct(m: nat, p: int)
    ensures Times(m, p) == m * p
  {
    if m > 0 {
      TimesIsProduct(m - 1, p);
    }
  }

  /** Open frames `k + 1` .. `j` of `a` then `b` pins add `a + b` each. */
  lemma {:induction false} OpenRun(rolls: seq<int>, k: nat, c: Cursor, j: nat, a: int, b: int, e: Cursor)
    requires k <= j && Before(rolls, k) == c && c.index + 2 * (j - k) <= |rolls|
    requires 0 <= a && 0 <= b && a + b < MaxPins
    requires forall i :: c.index <= i < c.index + 2 * (j - k) ==> rolls[i] == if (i - c.index) % 2 == 0 then a else b
    requires e == Cursor(c.index + 2 * (j - k), c.total + Times(j - k, a + b))
    ensures Before(rolls, j) == e
  {
    if k < j {
      var d := Cursor(c.index + 2 * (j - 1 - k), c.total + Times(j - 1 - k, a + b));
      OpenRun(rolls, k, c, j - 1, a, b, d);
      Alternating(rolls, c.index, 2 * (j - k), a, b, j - 1 - k);
      assert Times(j - k, a + b) == Times(j - 1 - k, a + b) + (a + b);
      OpenAdvance(rolls, j, d, e);
    } else {
      assert e == c;
    }
  }

  /** Spares in frames `k + 1` .. `j` of `a` then `10 - a` pins, each followed
      by `a`, add `10 + a` each. */
  lemma {:induction false} SpareRun(rolls: seq<int>, k: nat, c: Cursor, j: nat, a: int, e: Cursor)
    requires k <= j && Before(rolls, k) == c && c.index + 2 * (j - k) < |rolls|
    requires 0 <= a < MaxPins
    requires forall i :: c.index <= i <= c.index + 2 * (j - k) ==> rolls[i] == if (i - c.index) % 2 == 0 then a else MaxPins - a
    requires e == Cursor(c.index + 2 * (j - k), c.total + Times(j - k, MaxPins + a))
    ensures Before(rolls, j) == e
  {
    if k < j {
      var d := Cursor(c.index + 2 * (j - 1 - k), c.total + Times(j - 1 - k, MaxPins + a));
      SpareRun(rolls, k, c, j - 1, a, d);
      Alternating(rolls, c.index, 2 * (j - k) + 1, a, MaxPins - a, j - 1 - k);
      Alternating(rolls, c.index, 2 * (j - k) + 1, a, MaxPins - a, j - k);
      assert Times(j - k, MaxPins + a) == Times(j - 1 - k, MaxPins + a) + (MaxPins + a);
      SpareAdvance(rolls, j, d, e);
    } else {
      assert e == c;
    }
  }

  /** Once the log is used up, every later frame up to frame `n - 1` starts
      at the same cursor and is empty and unscored. */
  lemma {:induction false} EndRun(rolls: seq<int>, k: nat, c: Cursor, n: int)
    requires Before(rolls, k) == c && c.index == |rolls|
    ensures forall j :: k <= j < n ==> Before(rolls, j) == c && NormalFrame(j + 1, rolls, c).score.None?
    decreases n - k
  {
    if k < n {
      EndAdvance(rolls, k + 1, c);
      EndRun(rolls, k + 1, c, n);
    }
  }

  /** A Final frame of two throws leaving pins standing scores their sum. */
  lemma FinalOpenStep(rolls: seq<int>, n: int, c: Cursor)
    requires n >= 1 && Before(rolls, n - 1) == c && c.index + 2 <= |rolls|
    requires 0 <= rolls[c.index] && 0 <= rolls[c.index + 1] && rolls[c.index] + rolls[c.index + 1] < MaxPins
    ensures var f := FinalFrame(n, rolls, c);
      && f.score == Some(c.total + rolls[c.index] + rolls[c.index + 1]) && f.error.None?
      && f.rolls == rolls[c.index..c.index + 2] && Consumed(rolls, n) == c.index + 2
  {
    var t := rolls[c.index..c.index + 2];
    assert FinalThrows(rolls, c.index) == Throws(t, None);
    SumOfSmall(t);
  }

  /** A game whose Final frame is open ends with that frame's score. */
  lemma OpenFinish(rolls: seq<int>, n: int, c: Cursor, score: int)
    requires n >= 1 && AllInRange(rolls) && Before(rolls, n - 1) == c && c.index + 2 <= |rolls|
    requires rolls[c.index] + rolls[c.index + 1] < MaxPins
    requires score == c.total + rolls[c.index] + rolls[c.index + 1]
    ensures LastScore(Calculate(rolls, n)) == Some(score)
  {
    FinalOpenStep(rolls, n, c);
    LastScoreIsFinal(rolls, n, c, score);
  }

  /** A second throw above the standing pins ends the Final frame with both
      rolls, an error and no score. */
  lemma FinalOverflowStep(rolls: seq<int>, n: int, c: Cursor)
    requires n >= 1 && Before(rolls, n - 1) == c && c.index + 2 <= |rolls|
    requires 0 <= rolls[c.index] < MaxPins && rolls[c.index] + rolls[c.index + 1] > MaxPins
    ensures var f := FinalFrame(n, rolls, c);
      && f.rolls == rolls[c.index..c.index + 2] && f.score.None? && HasError(f)
      && Consumed(rolls, n) == c.index + 2
  {
    var m := FinalRollError(n, Fault(2, rolls[c.index + 1], MaxPins - rolls[c.index]));
    assert |m| > 0;
  }

  /** A Final frame opened by a strike or a spare gets a third throw and
      scores the sum of all three, even when the third is an error. */
  lemma FinalThreeStep(rolls: seq<int>, n: int, c: Cursor)
    requires n >= 1 && Before(rolls, n - 1) == c && c.index + 3 <= |rolls|
    requires || (rolls[c.index] == MaxPins && 0 <= rolls[c.index + 1] <= MaxPins)
             || (0 <= rolls[c.index] < MaxPins && rolls[c.index] + rolls[c.index + 1] == MaxPins)
    ensures var f := FinalFrame(n, rolls, c);
      && f.score == Some(c.total + rolls[c.index] + rolls[c.index + 1] + rolls[c.index + 2])
      && (HasError(f) <==> rolls[c.index + 2] > Reset(Reset(MaxPins - rolls[c.index]) - rolls[c.index + 1]))
      && Consumed(rolls, n) == c.index + 3
  {
    var t := rolls[c.index..c.index + 3];
    var standing := Reset(Reset(MaxPins - rolls[c.index]) - rolls[c.index + 1]);
    FinalThreeThrows(rolls, c.index);
    SumOfSmall(t);
    if rolls[c.index + 2] > standing {
      var m := FinalRollError(n, Fault(3, rolls[c.index + 2], standing));
      assert |m| > 0;
    }
  }

  /** After a strike or a spare the Final frame takes three throws, the third
      at fault exactly when it tops the standing pins. */
  lemma FinalThreeThrows(rolls: seq<int>, index: nat)
    requires index + 3 <= |rolls|
    requires || (rolls[index] == MaxPins && 0 <= rolls[index + 1] <= MaxPins)
             || (0 <= rolls[index] < MaxPins && rolls[index] + rolls[index + 1] == MaxPins)
    ensures var standing := Reset(Reset(MaxPins - rolls[index]) - rolls[index + 1]);
      && FinalThrows(rolls, index).taken == rolls[index..index + 3]
      && FinalThrows(rolls, index).fault
         == if rolls[index + 2] > standing then Some(Fault(3, rolls[index + 2], standing)) else None
  {
  }

  /** A game whose Final frame opens with a strike or a spare ends with the
      sum of its three throws added to the running total. */
  lemma ThreeFinish(rolls: seq<int>, n: int, c: Cursor, score: int)
    requires n >= 1 && AllInRange(rolls) && Before(rolls, n - 1) == c && c.index + 3 <= |rolls|
    requires rolls[c.index] == MaxPins || rolls[c.index] + rolls[c.index + 1] == MaxPins
    requires score == c.total + rolls[c.index] + rolls[c.index + 1] + rolls[c.index + 2]
    ensures LastScore(Calculate(rolls, n)) == Some(score)
  {
    FinalThreeStep(rolls, n, c);
    LastScoreIsFinal(rolls, n, c, score);
  }

  /** A Final frame with no rolls left is empty and unscored. */
  lemma FinalEndStep(rolls: seq<int>, n: int, c: Cursor)
    requires n >= 1 && Before(rolls, n - 1) == c && c.index == |rolls|
    ensures FinalFrame(n, rolls, c).score.None? && FinalFrame(n, rolls, c).error.None?
    ensures Consumed(rolls, n) == c.index
  {
  }
}
