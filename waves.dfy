/**
 * The wave timer: a resource holding the seconds played, advanced by every
 * frame's delta, and the wave readout that shows it as space-padded minutes
 * and seconds.
 */
module Waves {
  import opened Ecs
  import opened TimeText

  /** The seconds a run of frames adds up to, from the timer's start at zero. */
  function Elapsed(frames: seq<real>): real {
    if frames == [] then 0.0 else Elapsed(frames[..|frames| - 1]) + frames[|frames| - 1]
  }

  /** The `WaveTimer` resource. */
  class WaveTimer {
    var seconds: real
    /** The frame deltas added since the timer was inserted. */
    ghost var frames: seq<real>

    ghost predicate Valid()
      reads this
    {
      seconds == Elapsed(frames)
    }

    /** The plugin inserts the timer at zero. */
    constructor ()
      ensures Valid() && frames == [] && seconds == 0.0
    {
      seconds := 0.0;
      frames := [];
    }

    /** `increment_timer`: the frame's delta added to the timer. */
    method IncrementTimer(dt: real)
      requires Valid()
      modifies this
      ensures Valid() && frames == old(frames) + [dt]
      ensures seconds == old(seconds) + dt
    {
      seconds := seconds + dt;
      frames := frames + [dt];
      assert frames[..|frames| - 1] == old(frames);
    }
  }

  /**
   * While every delta is not negative the timer never runs backwards: a
   * longer run of the same frames shows at least as many seconds, and the
   * whole seconds the readouts show never decrease.
   */
  lemma {:induction false} ElapsedNonDecreasing(frames: seq<real>, i: nat, j: nat)
    requires forall k | 0 <= k < |frames| :: frames[k] >= 0.0
    requires i <= j <= |frames|
    ensures 0.0 <= Elapsed(frames[..i]) <= Elapsed(frames[..j])
    ensures TruncateToI32(Elapsed(frames[..i])) <= TruncateToI32(Elapsed(frames[..j]))
    decreases j, i
  {
    if j == 0 {
      assert frames[..i] == frames[..0] == [];
    } else if i == j {
      ElapsedNonDecreasing(frames, 0, j);
    } else {
      ElapsedNonDecreasing(frames, i, j - 1);
      assert frames[..j][..j - 1] == frames[..j - 1];
    }
    TruncateMonotone(Elapsed(frames[..i]), Elapsed(frames[..j]));
  }

  /** `update_time_text` of the wave readout: `{minutes:2}:{seconds:2}`. */
  function WavesTimeText(timer: real): string {
    Clock(TruncateToI32(timer), ' ')
  }

  /**
   * The minutes and seconds the wave readout shows: for a timer that is not
   * negative the seconds lie in 0..59 and minutes * 60 + seconds is the
   * whole seconds played.
   */
  lemma WavesSplit(timer: real)
    requires timer >= 0.0
    ensures var t := TruncateToI32(timer);
      && 0 <= Rem(t, 60) <= 59 && Quot(t, 60) * 60 + Rem(t, 60) == t
      && t as real <= timer
  {
    SplitMinutes(TruncateToI32(timer));
  }

  /** Sixty-five seconds read " 1: 5". */
  lemma WavesExample()
    ensures WavesTimeText(65.0) == " 1: 5"
  {
    assert TruncateToI32(65.0) == 65;
    SplitMinutes(65);
    assert Digits(1) == "1" && Digits(5) == "5";
  }

  /**
   * Under a hundred minutes the wave readout is five characters with the
   * ':' at index 2, and each field is a space or a digit.
   */
  lemma WavesShape(timer: real)
    requires 0.0 <= timer < 6000.0
    ensures var r := WavesTimeText(timer);
      && |r| == 5 && r[2] == ':'
      && forall i | 0 <= i < 5 && i != 2 :: r[i] == ' ' || IsDigit(r[i])
  {
    ClockShape(TruncateToI32(timer), ' ');
  }

  /** The wave readout reads back as the minutes and seconds of the whole seconds played. */
  lemma WavesReadsBack(timer: real)
    requires 0.0 <= timer < (I32Max + 1) as real
    ensures var t := TruncateToI32(timer);
      && ParseClock(WavesTimeText(timer)) == Some((t / 60, t % 60))
      && (t / 60) * 60 + t % 60 == t
      && t as real <= timer < (t + 1) as real
  {
    ClockReadsBack(TruncateToI32(timer), ' ');
  }
}
