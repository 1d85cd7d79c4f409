/** The current controller (`Game`): it keeps the committed roll log and the
    frames last computed for it, and accepts a roll only after a dry run of
    the calculator on the log extended by that roll reports no error.  The
    renderer call is dropped and the logger becomes the ghost list of the
    messages it would have printed. */
module Controller {
  import opened Wrappers
  import opened Core
  import opened Scoring
  import opened ScoringFacts
  import Logic

  /** The log after one `KnockDownPins(pins)` on `rolls`: extended by the
      roll when the dry run finds no error frame, unchanged otherwise. */
  function Commit(rolls: seq<int>, n: int, pins: int): seq<int>
  {
    var candidate := rolls + [pins];
    if AnyError(Calculate(candidate, n)) then rolls else candidate
  }

  /** The log after `KnockDownPins` was called with each of `input` in turn. */
  function Play(rolls: seq<int>, n: int, input: seq<int>): seq<int>
    decreases |input|
  {
    if input == [] then rolls else Play(Commit(rolls, n, input[0]), n, input[1..])
  }

  class Game {
    /** `_totalFrames`: set by the default constructor only. */
    const totalFrames: int
    const calculator: Logic.StandardScoreCalculator
    /** `_rolls`: the committed log. */
    var rolls: seq<int>
    /** `_lastCalculatedFrames`: the frames of the last accepted dry run. */
    var lastCalculatedFrames: seq<ScoreFrame>
    /** The messages handed to the logger, in order. */
    ghost var logged: seq<string>

    /** The committed log scores without an error frame, and the cache holds
        its frames once a roll has been accepted. */
    ghost predicate Valid()
      reads this
    {
      && !AnyError(Calculate(rolls, calculator.totalFrames))
      && (rolls == [] ==> lastCalculatedFrames == [])
      && (rolls != [] ==> lastCalculatedFrames == Calculate(rolls, calculator.totalFrames))
    }

    /** `new Game(totalFrames)`: the calculator gets the same frame count. */
    constructor (totalFrames: int := 10)
      ensures Valid()
      ensures this.totalFrames == totalFrames && calculator.totalFrames == totalFrames
      ensures rolls == [] && lastCalculatedFrames == [] && logged == []
    {
      this.totalFrames := totalFrames;
      calculator := new Logic.StandardScoreCalculator(totalFrames);
      rolls := [];
      lastCalculatedFrames := [];
      logged := [];
      new;
      EmptyLogClean(totalFrames);
    }

    /** The injecting constructor: `_totalFrames` keeps its default 0 and the
        game plays with whatever frame count the calculator was given. */
    constructor WithCalculator(calculator: Logic.StandardScoreCalculator)
      ensures Valid()
      ensures totalFrames == 0 && this.calculator == calculator
      ensures rolls == [] && lastCalculatedFrames == [] && logged == []
    {
      totalFrames := 0;
      this.calculator := calculator;
      rolls := [];
      lastCalculatedFrames := [];
      logged := [];
      new;
      EmptyLogClean(calculator.totalFrames);
    }

    /** `KnockDownPins`: a dry run on a copy of the log; on an error frame the
        first error message is logged and nothing else changes, otherwise the
        roll is appended and the dry run's frames are cached. */
    method KnockDownPins(pins: int)
      requires Valid()
      modifies this
      ensures Valid()
      ensures rolls == Commit(old(rolls), calculator.totalFrames, pins)
      ensures var candidate := Calculate(old(rolls) + [pins], calculator.totalFrames);
        if AnyError(candidate) then
          && rolls == old(rolls) && lastCalculatedFrames == old(lastCalculatedFrames)
          && logged == old(logged) + [FirstError(candidate).value.error.value]
        else
          && rolls == old(rolls) + [pins] && lastCalculatedFrames == candidate
          && logged == old(logged)
    {
      var tempRolls := rolls + [pins];
      var tempFrames := calculator.Calculate(tempRolls);
      var errorFrame := FirstError(tempFrames);
      if errorFrame.Some? {
        logged := logged + [errorFrame.value.error.value];
        return;
      }
      rolls := rolls + [pins];
      lastCalculatedFrames := tempFrames;
    }
  }

  // -----------------------------------------------------------------------
  // What the committed log satisfies

  /** A Normal frame built on an empty log takes nothing and has no error. */
  lemma EmptyNormalFrame(rolls: seq<int>, frameNum: int, c: Cursor)
    requires |rolls| == 0 && c.index == 0
    ensures NormalAdvance(rolls, c) == c
    ensures !HasError(NormalFrame(frameNum, rolls, c))
  {
    var t := NormalThrows(rolls, 0);
    assert t == Throws([], None);
    var p := NormalPoints(rolls, 0);
    assert p == None;
    assert NormalAdvance(rolls, c) == Cursor(c.index + |t.taken|, c.total + p.GetOr(0));
  }

  lemma {:induction false} EmptyNormalFrames(rolls: seq<int>, c: Cursor, frameNum: int, n: int)
    requires |rolls| == 0 && c.index == 0
    ensures var r := NormalFrames(rolls, c, frameNum, n);
      r.end == c && forall k :: 0 <= k < |r.frames| ==> !HasError(r.frames[k])
    decreases n - frameNum
  {
    if frameNum < n {
      EmptyNormalFrame(rolls, frameNum, c);
      EmptyNormalFrames(rolls, c, frameNum + 1, n);
      var r := NormalFrames(rolls, c, frameNum, n);
      var rest := NormalFrames(rolls, c, frameNum + 1, n);
      assert r.frames == [NormalFrame(frameNum, rolls, c)] + rest.frames;
      forall k | 0 <= k < |r.frames|
        ensures !HasError(r.frames[k])
      {
        if k > 0 {
          assert r.frames[k] == rest.frames[k - 1];
        }
      }
    }
  }

  /** A new game's empty log scores without an error, whatever the frame count. */
  lemma EmptyLogClean(n: int)
    ensures !AnyError(Calculate([], n))
  {
    EmptyLogFrames([], n);
  }

  lemma EmptyLogFrames(rolls: seq<int>, n: int)
    requires |rolls| == 0
    ensures !AnyError(Calculate(rolls, n))
  {
    var c := Cursor(0, 0);
    EmptyNormalFrames(rolls, c, 1, n);
    var normal := NormalFrames(rolls, c, 1, n);
    assert FinalThrows(rolls, 0) == Throws([], None);
    assert FinalAdvance(rolls, c).index == 0;
    assert !HasError(FinalFrame(n, rolls, c));
    CalculateInRange(rolls, n);
    var r := Calculate(rolls, n);
    assert r == normal.frames + [FinalFrame(n, rolls, c)];
    forall k | 0 <= k < |r|
      ensures !HasError(r[k])
    {
      if k < |normal.frames| {
        assert r[k] == normal.frames[k];
      }
    }
  }

  /** A log with a roll outside 0..10 always has an error frame. */
  lemma OutOfRangeRejected(rolls: seq<int>, n: int)
    requires !AllInRange(rolls)
    ensures AnyError(Calculate(rolls, n))
  {
    OutOfRangeOutput(rolls, n);
    assert HasError(Calculate(rolls, n)[0]);
  }

  /** A log the N frames do not consume entirely always has an error frame. */
  lemma LeftoverRejected(rolls: seq<int>, n: int)
    requires n >= 1 && AllInRange(rolls) && Consumed(rolls, n) < |rolls|
    ensures AnyError(Calculate(rolls, n))
  {
    FrameLayout(rolls, n);
    assert HasError(Calculate(rolls, n)[n]);
  }

  /** A log that scores without an error frame holds only rolls in 0..10 and
      the N frames consume all of it, so it yields exactly N frames. */
  lemma CleanLog(rolls: seq<int>, n: int)
    requires n >= 1 && !AnyError(Calculate(rolls, n))
    ensures AllInRange(rolls)
    ensures Consumed(rolls, n) == |rolls|
    ensures |Calculate(rolls, n)| == n
  {
    if !AllInRange(rolls) {
      OutOfRangeRejected(rolls, n);
      assert false;
    }
    if Consumed(rolls, n) < |rolls| {
      LeftoverRejected(rolls, n);
      assert false;
    }
    FrameLayout(rolls, n);
  }

  /** Each call keeps the log clean, never shrinks it and adds at most the
      one roll it was given. */
  lemma CommitClean(rolls: seq<int>, n: int, pins: int)
    requires !AnyError(Calculate(rolls, n))
    ensures !AnyError(Calculate(Commit(rolls, n, pins), n))
    ensures Commit(rolls, n, pins) == rolls || Commit(rolls, n, pins) == rolls + [pins]
  {
  }

  /** Every log a game reaches from a new one, whatever rolls are entered,
      is clean, holds at most one roll per call, and has no
      roll outside 0..10 or beyond the Final frame. */
  lemma {:induction false} PlayClean(n: int, input: seq<int>)
    requires n >= 1
    ensures var log := Play([], n, input);
      && !AnyError(Calculate(log, n)) && |log| <= |input|
      && AllInRange(log) && Consumed(log, n) == |log|
  {
    EmptyLogClean(n);
    PlayKeepsClean([], n, input);
    CleanLog(Play([], n, input), n);
  }

  lemma {:induction false} PlayKeepsClean(rolls: seq<int>, n: int, input: seq<int>)
    requires !AnyError(Calculate(rolls, n))
    ensures var log := Play(rolls, n, input);
      !AnyError(Calculate(log, n)) && |rolls| <= |log| <= |rolls| + |input| && log[..|rolls|] == rolls
    decreases |input|
  {
    if input != [] {
      var next := Commit(rolls, n, input[0]);
      CommitClean(rolls, n, input[0]);
      PlayKeepsClean(next, n, input[1..]);
      var log := Play(rolls, n, input);
      assert log[..|rolls|] == log[..|next|][..|rolls|];
    }
  }

  /** A rejected roll stays rejected: entering it again any number of times
      leaves the log as it was. */
  lemma {:induction false} RejectedRepeat(rolls: seq<int>, n: int, pins: int, times: nat)
    requires AnyError(Calculate(rolls + [pins], n))
    ensures Play(rolls, n, seq(times, _ => pins)) == rolls
    decreases times
  {
    if times > 0 {
      var input := seq(times, _ => pins);
      assert input[0] == pins && input[1..] == seq(times - 1, _ => pins);
      RejectedRepeat(rolls, n, pins, times - 1);
    }
  }
}
