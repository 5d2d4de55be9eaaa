/**
  The spoken instructions the direction helpers produce. Every constructor is
  one f-string template of the source, so two instructions are equal exactly
  when they would print the same sentence.
 */
module Phrases {

  datatype Instruction =
      /** "Go straight and walk {distance} meters." */
    | GoStraight(distance: real)
      /** "Go staright and walk {distance} meters." (the misspelled copy) */
    | GoStaright(distance: real)
      /** "Go straight and walk {distance} meters along {clock} o'clock." */
    | GoStraightAlong(distance: real, clock: int)
      /** "Turn right to {clock} o'clock and walk {distance} meters." */
    | TurnRightTo(clock: int, distance: real)
      /** "Turn right and walk {distance} meters." */
    | TurnRight(distance: real)
      /** "Turn around to {clock} o'clock and walk {distance} meters." */
    | TurnAroundTo(clock: int, distance: real)
      /** "Turn around and walk {distance} meters." */
    | TurnAround(distance: real)
      /** "Turn left to {clock} o'clock and walk {distance} meters." */
    | TurnLeftTo(clock: int, distance: real)
      /** "Turn left and walk {distance} meters." */
    | TurnLeft(distance: real)

  /** Which way an instruction sends the listener. */
  datatype Side = Ahead | Right | Behind | Left

  /** The side an instruction names. */
  function SideOf(i: Instruction): Side {
    match i
    case GoStraight(_) | GoStaright(_) | GoStraightAlong(_, _) => Ahead
    case TurnRightTo(_, _) | TurnRight(_) => Right
    case TurnAroundTo(_, _) | TurnAround(_) => Behind
    case TurnLeftTo(_, _) | TurnLeft(_) => Left
  }

  /** Left and right exchanged. */
  function SwapSides(s: Side): Side {
    match s
    case Right => Left
    case Left => Right
    case _ => s
  }

  /**
    The mirror image of an instruction: left and right exchanged, and a clock
    hour h reflected to 12 - h.
   */
  function Mirror(i: Instruction): (r: Instruction)
    ensures SideOf(r) == SwapSides(SideOf(i))
    ensures r.distance == i.distance
  {
    match i
    case GoStraight(d) => GoStraight(d)
    case GoStaright(d) => GoStaright(d)
    case GoStraightAlong(d, c) => GoStraightAlong(d, 12 - c)
    case TurnRightTo(c, d) => TurnLeftTo(12 - c, d)
    case TurnRight(d) => TurnLeft(d)
    case TurnAroundTo(c, d) => TurnAroundTo(12 - c, d)
    case TurnAround(d) => TurnAround(d)
    case TurnLeftTo(c, d) => TurnRightTo(12 - c, d)
    case TurnLeft(d) => TurnRight(d)
  }
}
