/**
 * The battle arena: a 3-2-1 countdown, then one animation frame after
 * another moves every racer by a random speed, clamps its progress to
 * [0, 100] and declares the lowest-index racer that reaches 100 the winner.
 * The random draws of a frame are inputs.
 */
module BattleArena {
  import opened Types

  /** The countdown starts here. */
  const CountdownStart: nat := 3
  /** Progress at which a racer has finished. */
  const FinishLine: real := 100.0
  const BoostSpeed: real := 3.0
  const TripSpeed: real := -0.5

  /** The draws `Math.random()` yields for one racer in one frame. */
  datatype Draw = Draw(chaos: real, r: real)

  /** The countdown after one step: down by one while positive, null after zero, null for good. */
  function NextCountdown(countdown: Option<nat>): (next: Option<nat>)
    ensures next.Some? ==> countdown.Some? && next.value + 1 == countdown.value
    ensures next.None? <==> countdown.None? || countdown == Some(0)
  {
    match countdown
    case None => None
    case Some(n) => if n > 0 then Some(n - 1) else None
  }

  /** The countdown after `k` steps. */
  function CountdownAfter(countdown: Option<nat>, k: nat): Option<nat>
    decreases k
  {
    if k == 0 then countdown else CountdownAfter(NextCountdown(countdown), k - 1)
  }

  /** From `n`, the countdown reads `n - k` for `k <= n` steps and is null afterwards. */
  lemma {:induction false} CountdownSchedule(n: nat, k: nat)
    ensures CountdownAfter(Some(n), k) == if k <= n then Some(n - k) else None
  {
    if k > 0 {
      if n > 0 {
        CountdownSchedule(n - 1, k - 1);
      } else {
        NullIsTerminal(k - 1);
      }
    }
  }

  /** Once null, the countdown stays null. */
  lemma {:induction false} NullIsTerminal(k: nat)
    ensures CountdownAfter(None, k) == None
  {
    if k > 0 {
      NullIsTerminal(k - 1);
    }
  }

  /** From 3, the race starts (the 0 -> null step) on the fourth step and on no other. */
  lemma RaceStartsOnFourthStep(k: nat)
    requires k >= 1
    ensures CountdownAfter(Some(CountdownStart), k - 1) == Some(0) <==> k == CountdownStart + 1
  {
    CountdownSchedule(CountdownStart, k - 1);
  }

  /** The speed rule: a boost above 0.98, a trip below 0.02, else `r * 0.5 + 0.2`. */
  function Speed(d: Draw): (s: real)
    ensures IsUniform(d.r) ==> (s == BoostSpeed <==> d.chaos > 0.98)
    ensures IsUniform(d.r) ==> (s < 0.0 <==> d.chaos < 0.02)
  {
    if d.chaos > 0.98 then BoostSpeed
    else if d.chaos < 0.02 then TripSpeed
    else d.r * 0.5 + 0.2
  }

  /** Speeds lie in [-0.5, 3.0]; a baseline speed lies in [0.2, 0.7). */
  lemma SpeedBounds(d: Draw)
    requires IsUniform(d.r)
    ensures TripSpeed <= Speed(d) <= BoostSpeed
    ensures 0.02 <= d.chaos <= 0.98 ==> 0.2 <= Speed(d) < 0.7
  {
  }

  /** `Math.max(0, Math.min(100, x))`. */
  function Clamp(x: real): (y: real)
    ensures 0.0 <= y <= FinishLine
    ensures 0.0 <= x <= FinishLine ==> y == x
    ensures y == FinishLine <==> x >= FinishLine
    ensures y == 0.0 <==> x <= 0.0
  {
    if x < 0.0 then 0.0 else if x > FinishLine then FinishLine else x
  }

  /** Every racer's progress after a frame with the given draws. */
  function Advance(progress: seq<real>, draws: seq<Draw>): (r: seq<real>)
    requires |draws| == |progress|
    ensures |r| == |progress|
    ensures forall i :: 0 <= i < |r| ==> 0.0 <= r[i] <= FinishLine
  {
    seq(|progress|, i requires 0 <= i < |progress| => Clamp(progress[i] + Speed(draws[i])))
  }

  /** The lowest index whose progress has reached the finish line, if any. */
  function FirstFinisher(progress: seq<real>): (w: Option<nat>)
    ensures w.Some? ==> w.value < |progress| && progress[w.value] >= FinishLine
    ensures w.Some? ==> forall j :: 0 <= j < w.value ==> progress[j] < FinishLine
    ensures w.None? ==> forall j :: 0 <= j < |progress| ==> progress[j] < FinishLine
  {
    if progress == [] then None
    else
      var earlier := FirstFinisher(progress[..|progress| - 1]);
      if earlier.Some? then earlier
      else if progress[|progress| - 1] >= FinishLine then Some(|progress| - 1)
      else None
  }

  /** When several racers finish in one frame, the winner is the lowest-index one. */
  lemma TieGoesToLowestIndex(progress: seq<real>, draws: seq<Draw>, i: nat, j: nat)
    requires |draws| == |progress| && i < j < |progress|
    requires Advance(progress, draws)[i] >= FinishLine && Advance(progress, draws)[j] >= FinishLine
    ensures FirstFinisher(Advance(progress, draws)).Some?
    ensures FirstFinisher(Advance(progress, draws)).value <= i
  {
  }

  /**
   * One animation frame on the copied progress array: move every racer,
   * then note the first one at the finish line. Every racer is moved even
   * after a winner is found; another frame is wanted only if nobody finished.
   */
  method UpdateRace(newProgress: array<real>, draws: seq<Draw>) returns (winner: Option<nat>, scheduleNext: bool)
    requires |draws| == newProgress.Length
    modifies newProgress
    ensures newProgress[..] == Advance(old(newProgress[..]), draws)
    ensures winner == FirstFinisher(newProgress[..])
    ensures scheduleNext <==> winner.None?
  {
    var raceFinished := false;
    winner := None;
    for i := 0 to newProgress.Length
      invariant forall k :: 0 <= k < i ==> newProgress[k] == Clamp(old(newProgress[k]) + Speed(draws[k]))
      invariant forall k :: i <= k < newProgress.Length ==> newProgress[k] == old(newProgress[k])
      invariant winner == FirstFinisher(newProgress[..i])
      invariant raceFinished <==> winner.Some?
    {
      var chaos := draws[i].chaos;
      var speed := draws[i].r * 0.5 + 0.2;
      if chaos > 0.98 {
        speed := BoostSpeed;
      } else if chaos < 0.02 {
        speed := TripSpeed;
      }
      var moved := newProgress[i] + speed;
      var capped := if moved < FinishLine then moved else FinishLine;
      newProgress[i] := if capped > 0.0 then capped else 0.0;
      assert newProgress[..i + 1][..i] == newProgress[..i];
      if newProgress[i] >= FinishLine && !raceFinished {
        raceFinished := true;
        winner := Some(i);
      }
    }
    assert newProgress[..newProgress.Length] == newProgress[..];
    scheduleNext := !raceFinished;
  }

  /** One arena: its racers, their progress, the countdown and the outcome. */
  class Race {
    const candidates: seq<Place>
    var progress: seq<real>
    var countdown: Option<nat>
    var winnerIndex: Option<nat>
    /** An animation frame is pending. */
    var frameScheduled: bool
    /** The place handed to `onFinish`, once there is one. */
    var finishedWith: Option<Place>

    /**
     * One progress entry per racer, each in [0, 100]; frames run only after
     * the countdown and only while nobody has finished; nobody wins during
     * the countdown; a winner is a racer
     * at the finish line and is the place handed over.
     */
    ghost predicate Valid()
      reads this
    {
      && |progress| == |candidates|
      && (forall i :: 0 <= i < |progress| ==> 0.0 <= progress[i] <= FinishLine)
      && (frameScheduled ==> countdown.None? && winnerIndex.None?)
      && (countdown.Some? ==> winnerIndex.None?)
      && (winnerIndex.None? ==> finishedWith.None? && forall i :: 0 <= i < |progress| ==> progress[i] < FinishLine)
      && (winnerIndex.Some? ==>
            && winnerIndex.value < |candidates|
            && progress[winnerIndex.value] == FinishLine
            && finishedWith == Some(candidates[winnerIndex.value]))
    }

    /** The arena as it opens: everybody at 0, the countdown at 3, nothing scheduled. */
    constructor (candidates: seq<Place>)
      ensures Valid()
      ensures this.candidates == candidates
      ensures |progress| == |candidates| && forall i :: 0 <= i < |progress| ==> progress[i] == 0.0
      ensures countdown == Some(CountdownStart) && winnerIndex == None && !frameScheduled
    {
      this.candidates := candidates;
      progress := seq(|candidates|, _ => 0.0);
      countdown := Some(CountdownStart);
      winnerIndex := None;
      frameScheduled := false;
      finishedWith := None;
    }

    /** One run of the countdown effect: count down, or on zero clear it and request the first frame. */
    method CountdownStep() returns (raceStarted: bool)
      requires Valid()
      modifies this`countdown, this`frameScheduled
      ensures Valid()
      ensures countdown == NextCountdown(old(countdown))
      ensures raceStarted <==> old(countdown) == Some(0)
      ensures frameScheduled == (old(frameScheduled) || raceStarted)
    {
      raceStarted := false;
      match countdown {
        case Some(n) =>
          if n > 0 {
            countdown := Some(n - 1);
          } else {
            countdown := None;
            frameScheduled := true;
            raceStarted := true;
          }
        case None =>
      }
    }

    /** One animation frame: a copy of the progress is moved, becomes the progress, and a finisher wins. */
    method Frame(draws: seq<Draw>)
      requires Valid() && frameScheduled && |draws| == |candidates|
      modifies this`progress, this`winnerIndex, this`frameScheduled, this`finishedWith
      ensures Valid()
      ensures progress == Advance(old(progress), draws)
      ensures winnerIndex == FirstFinisher(progress)
      ensures frameScheduled <==> winnerIndex.None?
      ensures finishedWith == if winnerIndex.Some? then Some(candidates[winnerIndex.value]) else None
    {
      var newProgress := new real[|progress|](i requires 0 <= i < |progress| reads this => progress[i]);
      assert newProgress[..] == progress;
      var winner, scheduleNext := UpdateRace(newProgress, draws);
      progress := newProgress[..];
      winnerIndex := winner;
      frameScheduled := scheduleNext;
      if winner.Some? {
        finishedWith := Some(candidates[winner.value]);
      }
    }
  }
}
