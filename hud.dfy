/**
 * The HUD's timer label: the wave timer shown as zero-padded minutes and
 * seconds.
 */
module Hud {
  import opened Ecs
  import opened TimeText
  import Waves

  /** `update_time_text` of the HUD: `{minutes:0>2}:{seconds:0>2}`. */
  function HudTimeText(timer: real): string {
    Clock(TruncateToI32(timer), '0')
  }

  /**
   * The minutes and seconds the HUD shows: for a timer that is not negative
   * the seconds lie in 0..59 and minutes * 60 + seconds is the whole
   * seconds played.
   */
  lemma HudSplit(timer: real)
    requires timer >= 0.0
    ensures var t := TruncateToI32(timer);
      && 0 <= Rem(t, 60) <= 59 && Quot(t, 60) * 60 + Rem(t, 60) == t
      && Quot(t, 60) == t / 60 && Rem(t, 60) == t % 60
  {
    SplitMinutes(TruncateToI32(timer));
  }

  /**
   * Sixty-five seconds read "01:05". A negative timer is not padded past its
   * sign: minus sixty-five seconds read "-1:-5".
   */
  lemma HudExamples()
    ensures HudTimeText(65.0) == "01:05"
    ensures HudTimeText(-65.0) == "-1:-5"
  {
    assert TruncateToI32(65.0) == 65;
    assert TruncateToI32(-65.0) == -65;
    SplitMinutes(65);
    SplitMinutes(-65);
    assert Digits(1) == "1" && Digits(5) == "5";
  }

  /**
   * Under a hundred minutes the HUD label is five digits-or-':' characters
   * with the ':' at index 2.
   */
  lemma HudShape(timer: real)
    requires 0.0 <= timer < 6000.0
    ensures var r := HudTimeText(timer);
      && |r| == 5 && r[2] == ':'
      && forall i | 0 <= i < 5 && i != 2 :: IsDigit(r[i])
  {
    ClockShape(TruncateToI32(timer), '0');
  }

  /** The HUD label reads back as the minutes and seconds of the whole seconds played. */
  lemma HudReadsBack(timer: real)
    requires 0.0 <= timer < (I32Max + 1) as real
    ensures var t := TruncateToI32(timer);
      && ParseClock(HudTimeText(timer)) == Some((t / 60, t % 60))
      && (t / 60) * 60 + t % 60 == t
      && t as real <= timer < (t + 1) as real
  {
    ClockReadsBack(TruncateToI32(timer), '0');
  }

  /** The HUD label and the wave readout show the same time, padded differently. */
  lemma ReadoutsAgree(timer: real)
    requires 0.0 <= timer < (I32Max + 1) as real
    ensures ParseClock(HudTimeText(timer)) == ParseClock(Waves.WavesTimeText(timer))
  {
    HudReadsBack(timer);
    Waves.WavesReadsBack(timer);
  }
}
