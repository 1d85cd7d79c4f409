/** The legacy controller (`Game` of the first console program): it rejects a
    pin count outside 0..10 before any calculation, then accepts a roll only
    after a dry run of the legacy calculator on the log extended by that roll
    reports no error frame.  The renderer call is dropped and the logger
    becomes the ghost list of the messages it would have printed. */
module LegacyController {
  import opened Wrappers
  import opened Decimal
  import opened LegacyScoring
  import Scoring
  import LegacyLogic
  import LegacyFacts

  /** The message logged for a pin count outside 0..10. */
  function InputError(pins: int): string
  {
    "[Input Error] Pins must be between 0 and 10. (Input: " + IntToString(pins) + ")"
  }

  /** The log after one `KnockDownPins(pins)` on `rolls`. */
  function Commit(rolls: seq<int>, pins: int): seq<int>
  {
    if pins < 0 || pins > MaxPins then rolls
    else if AnyFailed(Calculate(rolls + [pins])) then rolls
    else rolls + [pins]
  }

  /** The log after `KnockDownPins` was called with each of `input` in turn. */
  function Play(rolls: seq<int>, input: seq<int>): seq<int>
    decreases |input|
  {
    if input == [] then rolls else Play(Commit(rolls, input[0]), input[1..])
  }

  class Game {
    const calculator: LegacyLogic.StandardScoreCalculator
    /** `_rolls`: the committed log. */
    var rolls: seq<int>
    /** `_lastCalculatedFrames`: the frames of the last accepted dry run. */
    var lastCalculatedFrames: seq<LegacyFrame>
    /** The messages handed to the logger, in order. */
    ghost var logged: seq<string>

    /** The committed log holds only rolls in 0..10 and scores without an
        error frame, and the cache holds its frames once a roll was accepted. */
    ghost predicate Valid()
      reads this
    {
      && Scoring.AllInRange(rolls)
      && !AnyFailed(Calculate(rolls))
      && (rolls == [] ==> lastCalculatedFrames == [])
      && (rolls != [] ==> lastCalculatedFrames == Calculate(rolls))
    }

    /** `new Game()`: the standard calculator. */
    constructor ()
      ensures Valid()
      ensures rolls == [] && lastCalculatedFrames == [] && logged == []
    {
      calculator := new LegacyLogic.StandardScoreCalculator();
      rolls := [];
      lastCalculatedFrames := [];
      logged := [];
      new;
      EmptyLogClean();
    }

    /** The injecting constructor. */
    constructor WithCalculator(calculator: LegacyLogic.StandardScoreCalculator)
      ensures Valid()
      ensures this.calculator == calculator
      ensures rolls == [] && lastCalculatedFrames == [] && logged == []
    {
      this.calculator := calculator;
      rolls := [];
      lastCalculatedFrames := [];
      logged := [];
      new;
      EmptyLogClean();
    }

    /** `KnockDownPins`: a pin count outside 0..10 is logged and ignored; else
        a dry run on a copy of the log; on an error frame its message is
        logged and nothing else changes, otherwise the roll is appended and
        the dry run's frames are cached. */
    method KnockDownPins(pins: int)
      requires Valid()
      modifies this
      ensures Valid()
      ensures rolls == Commit(old(rolls), pins)
      ensures pins < 0 || pins > MaxPins ==>
        && rolls == old(rolls) && lastCalculatedFrames == old(lastCalculatedFrames)
        && logged == old(logged) + [InputError(pins)]
      ensures 0 <= pins <= MaxPins ==>
        var candidate := Calculate(old(rolls) + [pins]);
        if AnyFailed(candidate) then
          && rolls == old(rolls) && lastCalculatedFrames == old(lastCalculatedFrames)
          && logged == old(logged) + [FirstFailed(candidate).value.error.value]
        else
          && rolls == old(rolls) + [pins] && lastCalculatedFrames == candidate
          && logged == old(logged)
    {
      if pins < 0 || pins > MaxPins {
        logged := logged + [InputError(pins)];
        return;
      }

      var tempRolls := rolls + [pins];
      var tempFrames := calculator.Calculate(tempRolls);
      var errorFrame := FirstFailed(tempFrames);
      if errorFrame.Some? {
        logged := logged + [errorFrame.value.error.value];
        return;
      }
      AppendInRange(rolls, pins);
      rolls := rolls + [pins];
      lastCalculatedFrames := tempFrames;
    }
  }

  // -----------------------------------------------------------------------
  // What the committed log satisfies

  /** A Normal frame built on an empty log takes nothing and is empty. */
  lemma EmptyStep(rolls: seq<int>, frameNum: int, c: Scoring.Cursor)
    requires |rolls| == 0 && c.index == 0
    ensures NormalStep(frameNum, rolls, c) == Step(NewFrame(frameNum), c, false)
  {
  }

  lemma {:induction false} EmptyNormalFrames(rolls: seq<int>, c: Scoring.Cursor, frameNum: int)
    requires |rolls| == 0 && c.index == 0
    ensures var r := NormalFrames(rolls, c, frameNum);
      r.end == c && forall k :: 0 <= k < |r.frames| ==> !Failed(r.frames[k])
    decreases MaxFrames - frameNum
  {
    if frameNum < MaxFrames {
      EmptyStep(rolls, frameNum, c);
      EmptyNormalFrames(rolls, c, frameNum + 1);
      var r := NormalFrames(rolls, c, frameNum);
      var rest := NormalFrames(rolls, c, frameNum + 1);
      assert r.frames == [NewFrame(frameNum)] + rest.frames;
      forall k | 0 <= k < |r.frames|
        ensures !Failed(r.frames[k])
      {
        if k > 0 {
          assert r.frames[k] == rest.frames[k - 1];
        }
      }
    }
  }

  /** A new game's empty log scores without an error frame. */
  lemma EmptyLogClean()
    ensures Scoring.AllInRange([]) && !AnyFailed(Calculate([]))
  {
    EmptyLogFrames([]);
  }

  lemma EmptyLogFrames(rolls: seq<int>)
    requires |rolls| == 0
    ensures !AnyFailed(Calculate(rolls))
  {
    EmptyNormalFrames(rolls, Scoring.Cursor(0, 0), 1);
  }

  lemma AppendInRange(rolls: seq<int>, pins: int)
    requires Scoring.AllInRange(rolls) && 0 <= pins <= MaxPins
    ensures Scoring.AllInRange(rolls + [pins])
  {
    assert forall i :: 0 <= i < |rolls| ==> (rolls + [pins])[i] == rolls[i];
  }

  /** Each call keeps the log in range and clean, never shrinks it and adds
      at most the one roll it was given. */
  lemma CommitClean(rolls: seq<int>, pins: int)
    requires Scoring.AllInRange(rolls) && !AnyFailed(Calculate(rolls))
    ensures Scoring.AllInRange(Commit(rolls, pins)) && !AnyFailed(Calculate(Commit(rolls, pins)))
    ensures Commit(rolls, pins) == rolls || Commit(rolls, pins) == rolls + [pins]
  {
    if 0 <= pins <= MaxPins {
      AppendInRange(rolls, pins);
    }
  }

  /** Every log a game reaches from a new one holds only rolls in 0..10,
      scores without an error frame and holds at most one roll per call. */
  lemma {:induction false} PlayClean(input: seq<int>)
    ensures var log := Play([], input);
      Scoring.AllInRange(log) && !AnyFailed(Calculate(log)) && |log| <= |input|
  {
    EmptyLogClean();
    PlayKeepsClean([], input);
  }

  lemma {:induction false} PlayKeepsClean(rolls: seq<int>, input: seq<int>)
    requires Scoring.AllInRange(rolls) && !AnyFailed(Calculate(rolls))
    ensures var log := Play(rolls, input);
      && Scoring.AllInRange(log) && !AnyFailed(Calculate(log))
      && |rolls| <= |log| <= |rolls| + |input| && log[..|rolls|] == rolls
    decreases |input|
  {
    if input != [] {
      var next := Commit(rolls, input[0]);
      CommitClean(rolls, input[0]);
      PlayKeepsClean(next, input[1..]);
      var log := Play(rolls, input);
      assert log[..|rolls|] == log[..|next|][..|rolls|];
    }
  }

  /** A rejected pin count stays rejected: entering it again any number of
      times leaves the log as it was. */
  lemma {:induction false} RejectedRepeat(rolls: seq<int>, pins: int, times: nat)
    requires pins < 0 || pins > MaxPins || AnyFailed(Calculate(rolls + [pins]))
    ensures Play(rolls, seq(times, _ => pins)) == rolls
    decreases times
  {
    if times > 0 {
      var input := seq(times, _ => pins);
      assert input[0] == pins && input[1..] == seq(times - 1, _ => pins);
      RejectedRepeat(rolls, pins, times - 1);
    }
  }

  /** Without a check for rolls after frame 10, a thirteenth strike after a
      perfect game is accepted into the log. */
  lemma ExtraRollAccepted(rolls: seq<int>)
    requires |rolls| == 12 && forall i :: 0 <= i < |rolls| ==> rolls[i] == MaxPins
    ensures Commit(rolls, MaxPins) == rolls + [MaxPins]
  {
    var longer := rolls + [MaxPins];
    assert forall i :: 0 <= i < |longer| ==> longer[i] == MaxPins;
    LegacyFacts.NoTrailingCheck(longer);
  }
}
