/**
 * The roulette spinner: a cursor steps through the places on a timer for a
 * random number of ticks, slowing down over the last ticks, and then a
 * winner is recorded. The random draws are inputs; the timer chain is a
 * sequence of explicit `Spin` steps.
 */
module RouletteModal {
  import opened Types

  const LoadingTexts: seq<string> := [
    "Cooking the results...",
    "Querying the vibe council...",
    "Checking if it's bussing...",
    "Mogging the menu...",
    "Consulting the lunch oracle..."
  ]
  /** The delay before the first tick, in milliseconds. */
  const BaseDelay: real := 60.0
  /** The factor the delay grows by on each of the last ticks. */
  const Slowdown: real := 1.25
  const MinSpins: nat := 30
  const SpinSpread: nat := 20
  /** Ticks whose count exceeds `totalSpins - SlowWindow` (and that are not the last) slow down. */
  const SlowWindow: nat := 10
  /** The loading text changes on every tick whose count is a multiple of this. */
  const TextPeriod: nat := 5

  /** `Math.floor(rand * n)`: an index below `n`. */
  function PickIndex(rand: real, n: nat): (i: nat)
    requires IsUniform(rand) && n > 0
    ensures i < n
  {
    assert 0.0 <= rand * n as real < n as real by {
      assert rand * n as real <= 1.0 * n as real;
      assert rand * n as real != n as real;
    }
    (rand * n as real).Floor
  }

  /** `30 + Math.floor(Math.random() * 20)`: between 30 and 49 ticks. */
  function TotalSpins(rand: real): (total: nat)
    requires IsUniform(rand)
    ensures MinSpins <= total < MinSpins + SpinSpread
  {
    MinSpins + PickIndex(rand, SpinSpread)
  }

  /** The tick with this count is not the last and lies in the slow window. */
  predicate SlowsDown(count: nat, total: nat)
  {
    total - SlowWindow < count < total
  }

  /** How many of the ticks 1..k slow down. */
  function SlowedTicks(k: nat, total: nat): nat
  {
    if k == 0 then 0 else SlowedTicks(k - 1, total) + (if SlowsDown(k, total) then 1 else 0)
  }

  function Pow(b: real, e: nat): real
  {
    if e == 0 then 1.0 else b * Pow(b, e - 1)
  }

  /** The delay after `k` ticks of a run of `total` ticks. */
  function DelayAfter(k: nat, total: nat): (delay: real)
    ensures delay >= BaseDelay
  {
    PowAtLeastOne(SlowedTicks(k, total));
    BaseDelay * Pow(Slowdown, SlowedTicks(k, total))
  }

  /** No tick slows down before the window, each tick in it does, and the window holds nine ticks. */
  lemma {:induction false} SlowedTicksCount(k: nat, total: nat)
    requires total >= SlowWindow
    ensures SlowedTicks(k, total) ==
      if k <= total - SlowWindow then 0
      else if k < total then k - (total - SlowWindow)
      else SlowWindow - 1
  {
    if k > 0 {
      SlowedTicksCount(k - 1, total);
    }
  }

  lemma {:induction false} PowAtLeastOne(e: nat)
    ensures Pow(Slowdown, e) >= 1.0
  {
    if e > 0 {
      PowAtLeastOne(e - 1);
    }
  }

  /** The delay starts at 60 ms and never decreases from one tick to the next. */
  lemma DelayNeverDecreases(k: nat, total: nat)
    ensures DelayAfter(0, total) == BaseDelay
    ensures BaseDelay <= DelayAfter(k, total) <= DelayAfter(k + 1, total)
  {
    PowAtLeastOne(SlowedTicks(k, total));
  }

  /** The place the cursor shows when the spinner stops: the one the winner was evidently meant to be. */
  function IntendedWinner(places: seq<Place>, startIndex: nat, ticks: nat): (w: Place)
    requires startIndex < |places|
    ensures w in places
  {
    places[(startIndex + ticks) % |places|]
  }

  /**
   * Among title-distinct places, the place recorded from the index captured
   * at the start agrees with the place shown at the end exactly when the
   * number of ticks is a multiple of the number of places.
   */
  lemma RecordedIsShownIff(places: seq<Place>, startIndex: nat, ticks: nat)
    requires DistinctTitles(places) && startIndex < |places|
    ensures places[startIndex] == IntendedWinner(places, startIndex, ticks) <==> ticks % |places| == 0
  {
    var n := |places|;
    var q, shift := ticks / n, ticks % n;
    var x := startIndex + ticks;
    assert x == q * n + (startIndex + shift);
    if startIndex + shift < n {
      ModUnique(x, n, q, startIndex + shift);
    } else {
      assert x == (q + 1) * n + (startIndex + shift - n);
      ModUnique(x, n, q + 1, startIndex + shift - n);
      assert places[startIndex + shift - n].title != places[startIndex].title;
    }
    if shift != 0 && startIndex + shift < n {
      assert places[startIndex + shift].title != places[startIndex].title;
    }
  }

  function ThreePlaces(): seq<Place>
  {
    [Place("A", None, None, None, None, None),
     Place("B", None, None, None, None, None),
     Place("C", None, None, None, None, None)]
  }

  /** The spinner modal: the displayed cursor, the outcome, and the locals of its spin effect. */
  class Spinner {
    const places: seq<Place>
    /** The cursor on screen. */
    var currentIndex: nat
    var isSpinning: bool
    var winner: Option<Place>
    var loadingText: string
    /** The current delay between ticks. */
    var speed: real
    var spinCount: nat
    var totalSpins: nat
    /** The cursor as the spin effect's closure saw it when the effect ran. */
    var capturedIndex: nat
    /** A tick is pending on the timer. */
    var tickScheduled: bool

    /**
     * The cursor is `spinCount` steps past the captured one; the delay is the
     * base delay times 1.25 per slowed tick so far; ticks are pending exactly
     * until `totalSpins` have run; the winner is set only after the last tick.
     */
    ghost predicate Valid()
      reads this
    {
      && loadingText in LoadingTexts
      && spinCount <= totalSpins
      && speed == DelayAfter(spinCount, totalSpins)
      && (tickScheduled <==> |places| > 0 && spinCount < totalSpins)
      && (|places| == 0 ==> currentIndex == 0 && spinCount == 0 && isSpinning && winner.None?)
      && (|places| > 0 ==>
            && MinSpins <= totalSpins
            && capturedIndex < |places|
            && currentIndex == (capturedIndex + spinCount) % |places|
            && (spinCount < totalSpins ==> isSpinning && winner.None?)
            && (spinCount == totalSpins ==> !isSpinning && winner == Some(places[capturedIndex])))
    }

    /**
     * The modal mounts and its spin effect runs once: with no places nothing
     * is scheduled; otherwise the tick budget is drawn and the first tick is
     * scheduled after 60 ms.
     */
    constructor (places: seq<Place>, rand: real)
      requires IsUniform(rand)
      ensures Valid()
      ensures this.places == places && currentIndex == 0 && capturedIndex == 0
      ensures isSpinning && winner == None && loadingText == LoadingTexts[0]
      ensures speed == BaseDelay && spinCount == 0
      ensures tickScheduled <==> |places| > 0
      ensures |places| > 0 ==> totalSpins == TotalSpins(rand)
    {
      this.places := places;
      currentIndex := 0;
      isSpinning := true;
      winner := None;
      loadingText := LoadingTexts[0];
      speed := BaseDelay;
      spinCount := 0;
      capturedIndex := 0;
      totalSpins := 0;
      tickScheduled := false;
      new;
      if |places| == 0 {
        return;
      }
      capturedIndex := currentIndex;
      totalSpins := TotalSpins(rand);
      tickScheduled := true;
    }

    /**
     * One tick: advance the cursor, count the tick, change the loading text on
     * every fifth tick, then either slow down and schedule the next tick or,
     * after the last one, stop and record the place at the captured index.
     */
    method Spin(textRand: real) returns (scheduleNext: bool)
      requires Valid() && tickScheduled && IsUniform(textRand)
      modifies this`currentIndex, this`spinCount, this`loadingText, this`speed
      modifies this`tickScheduled, this`isSpinning, this`winner
      ensures Valid()
      ensures currentIndex == (old(currentIndex) + 1) % |places|
      ensures spinCount == old(spinCount) + 1
      ensures loadingText ==
        if spinCount % TextPeriod == 0 then LoadingTexts[PickIndex(textRand, |LoadingTexts|)] else old(loadingText)
      ensures scheduleNext <==> spinCount < totalSpins
      ensures tickScheduled == scheduleNext
      ensures speed == if SlowsDown(spinCount, totalSpins) then old(speed) * Slowdown else old(speed)
      ensures scheduleNext ==> isSpinning && winner == None
      ensures !scheduleNext ==> !isSpinning && winner == Some(places[capturedIndex])
    {
      currentIndex := (currentIndex + 1) % |places|;
      spinCount := spinCount + 1;
      if spinCount % TextPeriod == 0 {
        loadingText := LoadingTexts[PickIndex(textRand, |LoadingTexts|)];
      }
      if spinCount < totalSpins {
        if spinCount > totalSpins - SlowWindow {
          speed := speed * Slowdown;
        }
        scheduleNext := true;
      } else {
        var finalWinner := places[capturedIndex];
        isSpinning := false;
        winner := Some(finalWinner);
        scheduleNext := false;
      }
      tickScheduled := scheduleNext;
      assert currentIndex == (capturedIndex + spinCount) % |places| by {
        ModSuccessor(capturedIndex + old(spinCount), |places|);
      }
    }

    /**
     * The timer chain from a pending tick to the end: exactly `totalSpins`
     * ticks run in all, nothing is scheduled after the last, the cursor shows
     * the intended winner, and the recorded winner is the captured place.
     */
    method RunToCompletion(textDraws: seq<real>)
      requires Valid() && tickScheduled && |textDraws| >= totalSpins
      requires forall i :: 0 <= i < |textDraws| ==> IsUniform(textDraws[i])
      modifies this`currentIndex, this`spinCount, this`loadingText, this`speed
      modifies this`tickScheduled, this`isSpinning, this`winner
      ensures Valid()
      ensures spinCount == totalSpins && !tickScheduled && !isSpinning
      ensures places[currentIndex] == IntendedWinner(places, capturedIndex, totalSpins)
      ensures winner == Some(places[capturedIndex])
      ensures speed == BaseDelay * Pow(Slowdown, SlowWindow - 1)
    {
      var more := true;
      while more
        invariant Valid()
        invariant more == tickScheduled
        decreases totalSpins - spinCount
      {
        more := Spin(textDraws[spinCount]);
      }
      SlowedTicksCount(totalSpins, totalSpins);
    }
  }

  /**
   * The spinner as written, run on three places with a spin draw of 0.05
   * (31 ticks): the cursor stops on "B" while the recorded winner is "A".
   */
  method SpinnerRecordsStaleCursor() returns (shown: string, recorded: string)
    ensures shown == "B" && recorded == "A"
  {
    var spinner := new Spinner(ThreePlaces(), 0.05);
    assert spinner.totalSpins == 31;
    spinner.RunToCompletion(seq(31, _ => 0.0));
    shown := spinner.places[spinner.currentIndex].title;
    recorded := spinner.winner.value.title;
  }

  /** A remainder is determined by any quotient-remainder decomposition. */
  lemma ModUnique(x: int, n: int, q: int, r: int)
    requires n > 0 && 0 <= r < n && x == q * n + r
    ensures x % n == r
  {
    var q0, r0 := x / n, x % n;
    var d := q - q0;
    assert d * n == q * n - q0 * n;
    if d >= 1 {
      MulAtLeast(d, n);
    } else if d <= -1 {
      assert (-d) * n == -(d * n);
      MulAtLeast(-d, n);
    }
  }

  lemma MulAtLeast(d: int, n: int)
    requires d >= 1 && n > 0
    ensures d * n >= n
  {
    assert d * n == (d - 1) * n + n;
    assert (d - 1) * n >= 0;
  }

  /** Stepping a reduced cursor is stepping the unreduced count. */
  lemma ModSuccessor(a: nat, n: nat)
    requires n > 0
    ensures (a % n + 1) % n == (a + 1) % n
  {
    var q, r := a / n, a % n;
    if r + 1 < n {
      ModUnique(a + 1, n, q, r + 1);
      ModUnique(r + 1, n, 0, r + 1);
    } else {
      assert a + 1 == (q + 1) * n + 0;
      ModUnique(a + 1, n, q + 1, 0);
      ModUnique(r + 1, n, 1, 0);
    }
  }
}
