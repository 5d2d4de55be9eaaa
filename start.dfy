/**
  start.py: a clock helper that bins with floor division instead of `round`,
  and the if-chain that phrases the clock hour, with the distance rounded to
  one decimal first. In this file hours 1-5 are announced as left and 7-11 as
  right, the opposite of pathfinder/message.py.
 */
module Start {
  import opened PyMath
  import opened Phrases

  /** `angle_to_clock_direction` of start.py: `((angle + 15) % 360) // 30`, with 0 reported as 12. */
  function ClockDirection(angle: real): (clock: int)
    ensures 1 <= clock <= 12
  {
    var result := (Mod360(angle + 15.0) / 30.0).Floor;
    if result == 0 then 12 else result
  }

  /** The bins are centred on the hour marks: hour k, for k in 1..11, covers [30k - 15, 30k + 15) of normalised angles. */
  lemma ClockBin(angle: real, k: int)
    requires 1 <= k <= 11
    ensures 30.0 * k as real - 15.0 <= Mod360(angle) < 30.0 * k as real + 15.0 <==> ClockDirection(angle) == k
  {
    Mod360Shift15(angle);
    var t := Mod360(angle + 15.0) / 30.0;
    assert t.Floor as real <= t < t.Floor as real + 1.0;
  }

  /** Hour 12 covers the rest: [345, 360) and [0, 15). */
  lemma ClockTwelve(angle: real)
    ensures Mod360(angle) < 15.0 || Mod360(angle) >= 345.0 <==> ClockDirection(angle) == 12
  {
    Mod360Shift15(angle);
    var t := Mod360(angle + 15.0) / 30.0;
    assert t.Floor as real <= t < t.Floor as real + 1.0;
  }

  /** A full turn does not change the clock hour. */
  lemma ClockPeriodic(angle: real)
    ensures ClockDirection(angle + 360.0) == ClockDirection(angle)
  {
    assert angle + 360.0 + 15.0 == (angle + 15.0) + 360.0;
    Mod360Periodic(angle + 15.0);
  }

  /** 0 degrees is 12 o'clock, 30 is 1, 90 is 3, and -90 is 9. */
  lemma ClockSamples()
    ensures ClockDirection(0.0) == 12
    ensures ClockDirection(30.0) == 1
    ensures ClockDirection(90.0) == 3
    ensures ClockDirection(-90.0) == 9
  {
    Mod360Fixed(15.0);
    Mod360Fixed(45.0);
    Mod360Fixed(105.0);
    Mod360Unique(-75.0, 285.0, -1);
  }

  /** The phrase chain of start.py, after `distance = round(distance, 1)`. */
  function Phrase(clock: int, distance: real): (r: Instruction)
    ensures r.distance == Round1(distance)
  {
    var d := Round1(distance);
    if clock == 12 then GoStaright(d)
    else if clock < 3 then TurnLeftTo(clock, d)
    else if clock == 3 then TurnLeft(d)
    else if clock < 6 then TurnLeftTo(clock, d)
    else if clock == 6 then TurnAround(d)
    else if clock < 9 then TurnRightTo(clock, d)
    else if clock == 9 then TurnRight(d)
    else TurnRightTo(clock, d)
  }

  /**
    For each hour: 12 goes straight, 3 and 9 turn left and right without the
    hour, 6 turns around without the hour, and the other hours name
    themselves, 1-5 on the left and 7-11 on the right.
   */
  lemma PhraseTable(clock: int, distance: real)
    requires 1 <= clock <= 12
    ensures clock == 12 ==> Phrase(clock, distance) == GoStaright(Round1(distance))
    ensures clock == 3 ==> Phrase(clock, distance) == TurnLeft(Round1(distance))
    ensures clock == 6 ==> Phrase(clock, distance) == TurnAround(Round1(distance))
    ensures clock == 9 ==> Phrase(clock, distance) == TurnRight(Round1(distance))
    ensures clock in {1, 2, 4, 5} ==> Phrase(clock, distance) == TurnLeftTo(clock, Round1(distance))
    ensures clock in {7, 8, 10, 11} ==> Phrase(clock, distance) == TurnRightTo(clock, Round1(distance))
    ensures clock == 12 <==> SideOf(Phrase(clock, distance)) == Ahead
    ensures 1 <= clock <= 5 <==> SideOf(Phrase(clock, distance)) == Left
    ensures clock == 6 <==> SideOf(Phrase(clock, distance)) == Behind
    ensures 7 <= clock <= 11 <==> SideOf(Phrase(clock, distance)) == Right
  {
  }

  /** The side start.py announces for a normalised angle: left on [15, 165), behind on [165, 195), right on [195, 345). */
  function AngleSide(m: real): Side {
    if 15.0 <= m < 165.0 then Left
    else if 165.0 <= m < 195.0 then Behind
    else if 195.0 <= m < 345.0 then Right
    else Ahead
  }

  /** Binning an angle and phrasing its hour announces the side `AngleSide` gives. */
  lemma PhraseSideOfAngle(angle: real, distance: real)
    ensures SideOf(Phrase(ClockDirection(angle), distance)) == AngleSide(Mod360(angle))
  {
    var clock := ClockDirection(angle);
    if clock == 12 {
      ClockTwelve(angle);
    } else {
      ClockBin(angle, clock);
    }
    PhraseTable(clock, distance);
  }
}
