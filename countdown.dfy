/**
 * The countdown: a timer that, once started, counts 10 down to 0 either in
 * equal seconds (Normal) or with per-number dwell times that shrink
 * (Accelerated) or grow (Decelerated); the edge-triggered "finished" flag;
 * and the fade phases of each displayed number.
 *
 * Time is exact `real` seconds. The engine timer (one-shot mode) is kept as
 * its elapsed time, clamped to its duration: remaining = duration - elapsed,
 * finished when elapsed >= duration.
 */
module Countdown {
  import opened Wrappers
  import Server

  datatype CountdownMode = Normal | Accelerated | Decelerated

  /** Elapsed seconds after which an Accelerated or Decelerated countdown finishes. */
  const FinishThreshold: real := 15.5

  /** The least integer not below x (f32::ceil on exact reals). */
  function Ceil(x: real): (r: int)
    ensures r as real - 1.0 < x <= r as real
  {
    if x.Floor as real == x then x.Floor else x.Floor + 1
  }

  /** The ten dwell times, linearly interpolated from `first` (number 10) to `last` (number 1). */
  function DwellTimes(first: real, last: real): (r: seq<real>)
    ensures |r| == 10 && r[0] == first && r[9] == last
  {
    seq(10, i requires 0 <= i < 10 => first + (last - first) * ((i as real) / 9.0))
  }

  /** The entries of an interpolated table are evenly spaced: equal distances give equal differences. */
  lemma EvenSteps(first: real, last: real)
    ensures var r := DwellTimes(first, last);
      forall i, j :: 0 <= i < j < 10 ==> r[j] - r[i] == (last - first) * ((j - i) as real) / 9.0
  {
    var r := DwellTimes(first, last);
    forall i, j | 0 <= i < j < 10 ensures r[j] - r[i] == (last - first) * ((j - i) as real) / 9.0 {
      var d := last - first;
      assert r[j] - r[i] == d * ((j as real) / 9.0) - d * ((i as real) / 9.0);
      assert d * ((j as real) / 9.0) - d * ((i as real) / 9.0) == d * ((j as real) / 9.0 - (i as real) / 9.0);
      assert (j as real) / 9.0 - (i as real) / 9.0 == ((j - i) as real) / 9.0;
    }
  }

  /** The Accelerated table: 1.8 s for number 10 down to 1.3 s for number 1. */
  function AcceleratedTimes(): seq<real>
  {
    DwellTimes(1.8, 1.3)
  }

  /** The Decelerated table: 1.3 s for number 10 up to 1.8 s for number 1. */
  function DeceleratedTimes(): seq<real>
  {
    DwellTimes(1.3, 1.8)
  }

  function Sum(s: seq<real>): real
  {
    if s == [] then 0.0 else Sum(s[..|s| - 1]) + s[|s| - 1]
  }

  /**
   * The position, from k on, of the first dwell interval still running at
   * time t, where acc is the time taken by the intervals before k: the first
   * whose running total exceeds t; |times| when all have run.
   */
  function Passed(times: seq<real>, t: real, k: nat, acc: real): (r: nat)
    requires k <= |times|
    ensures k <= r <= |times|
    decreases |times| - k
  {
    if k == |times| then k
    else if t < acc + times[k] then k
    else Passed(times, t, k + 1, acc + times[k])
  }

  /** The number shown from the remaining seconds: its ceiling while positive, else 0. */
  function NormalNumber(remaining: real): (r: int)
    ensures r >= 0
    ensures remaining > 0.0 ==> r as real - 1.0 < remaining <= r as real
    ensures remaining <= 0.0 ==> r == 0
  {
    if remaining > 0.0 then Ceil(remaining) else 0
  }

  /** The number shown by a dwell table at elapsed time t: 10 minus the intervals fully run. */
  function SteppedNumber(times: seq<real>, t: real): (r: int)
    requires |times| == 10
    ensures 0 <= r <= 10
  {
    var k := Passed(times, t, 0, 0.0);
    if k < |times| then 10 - k else 0
  }

  function TimesFor(mode: CountdownMode): seq<real>
  {
    if mode == Accelerated then AcceleratedTimes() else DeceleratedTimes()
  }

  /** get_accelerated_number as a function of the mode, the total elapsed time and the remaining seconds. */
  function DisplayedNumber(mode: CountdownMode, elapsed: real, remaining: real): int
  {
    if mode == Normal || elapsed <= 0.0 then NormalNumber(remaining)
    else SteppedNumber(TimesFor(mode), elapsed)
  }

  /** calculate_accelerated_times: the table built entry by entry. */
  method CalculateAcceleratedTimes() returns (times: seq<real>)
    ensures times == AcceleratedTimes()
  {
    times := [];
    var initialTime, finalTime := 1.8, 1.3;
    for i := 0 to 10
      invariant times == DwellTimes(initialTime, finalTime)[..i]
    {
      var progress := (i as real) / 9.0;
      var time := initialTime + (finalTime - initialTime) * progress;
      ghost var table := DwellTimes(initialTime, finalTime);
      assert table[i] == time;
      assert table[..i + 1] == table[..i] + [time];
      times := times + [time];
    }
  }

  /** calculate_decelerated_times: the table built entry by entry. */
  method CalculateDeceleratedTimes() returns (times: seq<real>)
    ensures times == DeceleratedTimes()
  {
    times := [];
    var initialTime, finalTime := 1.3, 1.8;
    for i := 0 to 10
      invariant times == DwellTimes(initialTime, finalTime)[..i]
    {
      var progress := (i as real) / 9.0;
      var time := initialTime + (finalTime - initialTime) * progress;
      ghost var table := DwellTimes(initialTime, finalTime);
      assert table[i] == time;
      assert table[..i + 1] == table[..i] + [time];
      times := times + [time];
    }
  }

  /** The accumulator loop of get_accelerated_number over one dwell table. */
  method DwellCountdown(targetTimes: seq<real>, elapsed: real) returns (r: int)
    requires |targetTimes| == 10
    ensures r == SteppedNumber(targetTimes, elapsed)
  {
    var accumulatedTime := 0.0;
    for number := 0 to |targetTimes|
      invariant Passed(targetTimes, elapsed, 0, 0.0) == Passed(targetTimes, elapsed, number, accumulatedTime)
    {
      accumulatedTime := accumulatedTime + targetTimes[number];
      if elapsed < accumulatedTime {
        return 10 - number;
      }
    }
    return 0;
  }

  /** The phases of a displayed number's fade; they only move forward. */
  datatype FadePhase = FadeIn | Display | FadeOut | Complete

  function Rank(p: FadePhase): nat
  {
    match p
    case FadeIn => 0
    case Display => 1
    case FadeOut => 2
    case Complete => 3
  }

  function Clamp(x: real): (r: real)
    ensures 0.0 <= r <= 1.0
    ensures 0.0 <= x <= 1.0 ==> r == x
  {
    if x < 0.0 then 0.0 else if x > 1.0 then 1.0 else x
  }

  /** The fade state of one displayed countdown number. */
  class FadeComponent {
    const fadeInDuration: real
    const fadeOutDuration: real
    const displayDuration: real
    var currentTime: real
    var phase: FadePhase

    ghost predicate Valid()
      reads this
    {
      fadeInDuration > 0.0 && fadeOutDuration > 0.0 && displayDuration > 0.0 && currentTime >= 0.0
    }

    /** The fade spawn_countdown_text attaches: 0.3 s in, 0.4 s shown, 0.3 s out. */
    constructor ()
      ensures Valid()
      ensures fadeInDuration == 0.3 && displayDuration == 0.4 && fadeOutDuration == 0.3
      ensures currentTime == 0.0 && phase == FadeIn
    {
      fadeInDuration, fadeOutDuration, displayDuration := 0.3, 0.3, 0.4;
      currentTime := 0.0;
      phase := FadeIn;
    }

    /** One frame of fade_system for this entity: the alpha applied and whether it is to be despawned. */
    method Advance(delta: real) returns (alpha: real, despawn: bool)
      requires Valid() && delta >= 0.0
      modifies this
      ensures Valid()
      ensures Rank(old(phase)) <= Rank(phase) <= Rank(old(phase)) + 1
      ensures old(phase) == Complete ==> phase == Complete && alpha == 0.0
      ensures 0.0 <= alpha <= 1.0
      ensures despawn <==> phase == Complete
      ensures old(phase) == FadeIn ==>
        if old(currentTime) + delta >= fadeInDuration
        then phase == Display && currentTime == 0.0 && alpha == 1.0
        else phase == FadeIn && currentTime == old(currentTime) + delta
             && alpha == (old(currentTime) + delta) / fadeInDuration
      ensures old(phase) == Display ==>
        alpha == 1.0 &&
        if old(currentTime) + delta >= displayDuration
        then phase == FadeOut && currentTime == 0.0
        else phase == Display && currentTime == old(currentTime) + delta
      ensures old(phase) == FadeOut ==>
        currentTime == old(currentTime) + delta &&
        if old(currentTime) + delta >= fadeOutDuration
        then phase == Complete && alpha == 0.0
        else phase == FadeOut && alpha == 1.0 - (old(currentTime) + delta) / fadeOutDuration
      ensures old(phase) == Complete ==> currentTime == old(currentTime) + delta
    {
      currentTime := currentTime + delta;
      var raw: real;
      match phase {
        case FadeIn =>
          if currentTime >= fadeInDuration {
            phase := Display;
            currentTime := 0.0;
            raw := 1.0;
          } else {
            raw := currentTime / fadeInDuration;
          }
        case Display =>
          if currentTime >= displayDuration {
            phase := FadeOut;
            currentTime := 0.0;
          }
          raw := 1.0;
        case FadeOut =>
          if currentTime >= fadeOutDuration {
            phase := Complete;
            raw := 0.0;
          } else {
            raw := 1.0 - currentTime / fadeOutDuration;
          }
        case Complete =>
          raw := 0.0;
      }
      alpha := Clamp(raw);
      despawn := phase == Complete;
    }
  }

  class CountdownTimer {
    /** The countdown's length in seconds; also the engine timer's duration. */
    const initialSeconds: real
    /** The engine timer's elapsed seconds, clamped to its duration. */
    var timerElapsed: real
    var isActive: bool
    var lastDisplayedNumber: int
    var justFinished: bool
    var currentNumberStartTime: real
    var totalElapsedTime: real
    const mode: CountdownMode
    /** "finished" notices emitted since the last start. */
    ghost var notices: nat

    ghost predicate Valid()
      reads this
    {
      && 0.0 <= timerElapsed <= initialSeconds
      && (isActive ==> !justFinished && notices == 0)
      && (justFinished ==> notices == 0)
      && notices <= 1
    }

    /** CountdownTimer::new: inactive, nothing shown yet. */
    constructor (seconds: real, mode: CountdownMode)
      requires seconds >= 0.0
      ensures Valid()
      ensures initialSeconds == seconds && timerElapsed == 0.0 && this.mode == mode
      ensures !isActive && lastDisplayedNumber == -1 && !justFinished
      ensures currentNumberStartTime == 0.0 && totalElapsedTime == 0.0
    {
      initialSeconds := seconds;
      timerElapsed := 0.0;
      isActive := false;
      lastDisplayedNumber := -1;
      justFinished := false;
      currentNumberStartTime := 0.0;
      totalElapsedTime := 0.0;
      this.mode := mode;
      notices := 0;
    }

    /** Reset the timer and activate. */
    method Start()
      requires Valid()
      modifies this
      ensures Valid()
      ensures isActive && timerElapsed == 0.0 && lastDisplayedNumber == -1 && !justFinished
      ensures currentNumberStartTime == 0.0 && totalElapsedTime == 0.0 && notices == 0
    {
      timerElapsed := 0.0;
      isActive := true;
      lastDisplayedNumber := -1;
      justFinished := false;
      currentNumberStartTime := 0.0;
      totalElapsedTime := 0.0;
      notices := 0;
    }

    /** Deactivate; the engine timer keeps its elapsed time. */
    method Stop()
      requires Valid()
      modifies this`isActive, this`lastDisplayedNumber, this`justFinished
      modifies this`currentNumberStartTime, this`totalElapsedTime
      ensures Valid()
      ensures !isActive && lastDisplayedNumber == -1 && !justFinished
      ensures currentNumberStartTime == 0.0 && totalElapsedTime == 0.0
      ensures timerElapsed == old(timerElapsed) && notices == old(notices)
    {
      isActive := false;
      lastDisplayedNumber := -1;
      justFinished := false;
      currentNumberStartTime := 0.0;
      totalElapsedTime := 0.0;
    }

    /** The timer's remaining seconds while active, the full length otherwise. */
    function RemainingSeconds(): (r: real)
      reads this
      requires Valid()
      ensures 0.0 <= r <= initialSeconds
      ensures isActive ==> r + timerElapsed == initialSeconds
      ensures !isActive ==> r == initialSeconds
    {
      if isActive then initialSeconds - timerElapsed else initialSeconds
    }

    /** get_accelerated_number: the number to display now. */
    method GetAcceleratedNumber() returns (r: int)
      requires Valid()
      ensures r == DisplayedNumber(mode, totalElapsedTime, RemainingSeconds())
      ensures mode != Normal && totalElapsedTime > 0.0 ==> 0 <= r <= 10
    {
      if mode == Normal || totalElapsedTime <= 0.0 {
        var remaining := RemainingSeconds();
        return if remaining > 0.0 then Ceil(remaining) else 0;
      }
      var targetTimes: seq<real>;
      if mode == Accelerated {
        targetTimes := CalculateAcceleratedTimes();
      } else {
        targetTimes := CalculateDeceleratedTimes();
      }
      r := DwellCountdown(targetTimes, totalElapsedTime);
    }

    /**
     * The number countdown_system shows this frame: the ceiling of the
     * remaining seconds in Normal mode, get_accelerated_number otherwise.
     */
    method NumberToShow() returns (n: int)
      requires Valid()
      ensures n == DisplayedNumber(mode, totalElapsedTime, RemainingSeconds())
      ensures isActive ==> n == DisplayedNumber(mode, totalElapsedTime, initialSeconds - timerElapsed)
      ensures mode == Normal ==> (n == 0 <==> RemainingSeconds() <= 0.0)
    {
      if mode == Normal {
        var remaining := RemainingSeconds();
        n := if remaining > 0.0 then Ceil(remaining) else 0;
      } else {
        n := GetAcceleratedNumber();
      }
    }

    /**
     * countdown_system: one frame of `delta` seconds. Returns the number whose
     * text is (re)spawned this frame, if the displayed number changed.
     */
    method Tick(delta: real) returns (shown: Option<int>)
      requires Valid() && delta >= 0.0
      modifies this`timerElapsed, this`isActive, this`lastDisplayedNumber, this`justFinished
      modifies this`currentNumberStartTime, this`totalElapsedTime
      ensures Valid()
      ensures notices == old(notices)
      ensures !old(isActive) ==>
        && shown == None && !isActive
        && timerElapsed == old(timerElapsed) && lastDisplayedNumber == old(lastDisplayedNumber)
        && justFinished == old(justFinished) && currentNumberStartTime == old(currentNumberStartTime)
        && totalElapsedTime == old(totalElapsedTime)
      ensures old(isActive) ==>
        var elapsed := old(totalElapsedTime) + delta;
        var timer := if old(timerElapsed) + delta < initialSeconds then old(timerElapsed) + delta else initialSeconds;
        var number := DisplayedNumber(mode, elapsed, initialSeconds - timerElapsed);
        var finish := if mode != Normal then elapsed >= FinishThreshold else timer >= initialSeconds;
        && timerElapsed == timer
        && shown == (if number != old(lastDisplayedNumber) then Some(number) else None)
        && (finish ==>
              && !isActive && justFinished && lastDisplayedNumber == -1
              && totalElapsedTime == 0.0 && currentNumberStartTime == 0.0)
        && (!finish ==>
              && isActive && !justFinished && lastDisplayedNumber == number
              && totalElapsedTime == elapsed
              && currentNumberStartTime ==
                   (if number != old(lastDisplayedNumber) then elapsed else old(currentNumberStartTime)))
    {
      if !isActive {
        return None;
      }
      var elapsed := totalElapsedTime + delta;
      var timer := if timerElapsed + delta < initialSeconds then timerElapsed + delta else initialSeconds;
      timerElapsed := timer;
      totalElapsedTime := elapsed;
      var currentNumber := NumberToShow();
      assert currentNumber == DisplayedNumber(mode, elapsed, initialSeconds - timerElapsed);
      assert lastDisplayedNumber == old(lastDisplayedNumber);
      shown := Settle(currentNumber);
    }

    /**
     * The second half of countdown_system's frame: respawn the number when it
     * changed, then end the countdown if its finish condition holds (15.5 s of
     * elapsed time in the stepped modes, the engine timer finished in Normal).
     */
    method Settle(currentNumber: int) returns (shown: Option<int>)
      requires Valid() && isActive
      modifies this`isActive, this`lastDisplayedNumber, this`justFinished
      modifies this`currentNumberStartTime, this`totalElapsedTime
      ensures Valid()
      ensures shown == (if currentNumber != old(lastDisplayedNumber) then Some(currentNumber) else None)
      ensures var finish := if mode != Normal then old(totalElapsedTime) >= FinishThreshold
                            else timerElapsed >= initialSeconds;
        && (finish ==>
              && !isActive && justFinished && lastDisplayedNumber == -1
              && totalElapsedTime == 0.0 && currentNumberStartTime == 0.0)
        && (!finish ==>
              && isActive && !justFinished && lastDisplayedNumber == currentNumber
              && totalElapsedTime == old(totalElapsedTime)
              && currentNumberStartTime ==
                   (if currentNumber != old(lastDisplayedNumber) then totalElapsedTime else old(currentNumberStartTime)))
    {
      shown := None;
      if currentNumber != lastDisplayedNumber {
        shown := Some(currentNumber);
        lastDisplayedNumber := currentNumber;
        currentNumberStartTime := totalElapsedTime;
      }
      var shouldFinish := if mode != Normal then totalElapsedTime >= FinishThreshold
                          else timerElapsed >= initialSeconds;
      if shouldFinish && isActive {
        Stop();
        justFinished := true;
      }
    }

    /**
     * countdown_finished_system: consume the finished flag, producing the
     * "finished" notice when the response channel exists.
     */
    method ConsumeFinished(channelPresent: bool) returns (notice: Option<Server.WsResponse>)
      requires Valid()
      modifies this
      ensures Valid() && !justFinished
      ensures notice == (if old(justFinished) && channelPresent
                         then Some(Server.CountdownResponse("finished")) else None)
      ensures notices == old(notices) + (if notice.Some? then 1 else 0)
      ensures isActive == old(isActive) && timerElapsed == old(timerElapsed)
      ensures lastDisplayedNumber == old(lastDisplayedNumber) && totalElapsedTime == old(totalElapsedTime)
      ensures currentNumberStartTime == old(currentNumberStartTime)
    {
      notice := None;
      if justFinished {
        justFinished := false;
        if channelPresent {
          notice := Some(Server.CountdownResponse("finished"));
          notices := notices + 1;
        }
      }
    }
  }
}
