/**
  src/navigate.py: the same `angle_to_clock_direction` expression as
  pathfinder/message.py (`Messages.ClockDirection`), and an older `message`
  that does not round, misspells "straight" for hour 12, and words every
  left-hand hour as a right turn.
 */
module SrcNavigate {
  import opened Phrases
  import Messages
  import PyMath

  /** `message(clock, distance)` of src/navigate.py: the distance is used as given. */
  function Message(clock: int, distance: real): (r: Instruction)
    ensures r.distance == distance
    ensures SideOf(r) != Left
  {
    if clock == 12 then GoStaright(distance)
    else if clock == 1 || clock == 11 then GoStraightAlong(distance, clock)
    else if clock == 2 || clock == 4 then TurnRightTo(clock, distance)
    else if clock == 3 then TurnRight(distance)
    else if clock == 5 || clock == 7 then TurnAroundTo(clock, distance)
    else if clock == 6 then TurnAround(distance)
    else if clock == 8 || clock == 10 then TurnRightTo(clock, distance)
    else TurnRight(distance)
  }

  /**
    Hours 3 and 9 get the same sentence, as does every value outside 1..12,
    and hours 8 and 10 read "Turn right to": the left half of the clock face
    is announced as right.
   */
  lemma LeftAnnouncedAsRight(clock: int, distance: real)
    ensures Message(3, distance) == Message(9, distance) == TurnRight(distance)
    ensures clock == 8 || clock == 10 ==> Message(clock, distance) == TurnRightTo(clock, distance)
    ensures clock < 1 || clock > 12 ==> Message(clock, distance) == TurnRight(distance)
  {
  }

  /**
    Against pathfinder/message.py: given the already-rounded distance, the
    sentence is the same for hours 1 to 7 and 11, the misspelled twin for 12,
    and the mirror-side wording for 8, 9 and 10.
   */
  lemma AgreesWithPathfinderMessage(clock: int, distance: real)
    requires 1 <= clock <= 12
    ensures var mine := Message(clock, PyMath.Round1(distance));
            var theirs := Messages.Message(clock, distance);
            && (1 <= clock <= 7 || clock == 11 ==> mine == theirs)
            && (clock == 12 ==> mine == GoStaright(theirs.distance) && theirs == GoStraight(theirs.distance))
            && (8 <= clock <= 10 ==> SideOf(mine) == Right && SideOf(theirs) == Left && mine.distance == theirs.distance)
  {
  }
}
