/**
  pathfinder/message.py, whose `angle_to_clock_direction` and `message` are
  repeated character for character in pose_estimation/src/navigate.py: the
  clock-face bin of a relative angle, the instruction for a clock hour and a
  distance, and `generate_directions`, which turns a path into one
  instruction per hop.
 */
module Messages {
  import opened PyMath
  import opened Geometry
  import opened Phrases

  /** `np.degrees(np.arctan2(dy, dx))`: the direction of the vector (dx, dy) in degrees. */
  type Bearing = (real, real) -> real

  /**
    `angle_to_clock_direction`: `round(((angle + 15) % 360) / 30)`, with 0
    reported as 12.
   */
  function ClockDirection(angle: real): (clock: int)
    ensures 1 <= clock <= 12
  {
    var result := RoundHalfEven(Mod360(angle + 15.0) / 30.0);
    if result == 0 then 12 else result
  }

  /** A full turn does not change the clock hour. */
  lemma ClockPeriodic(angle: real)
    ensures ClockDirection(angle + 360.0) == ClockDirection(angle)
  {
    assert angle + 360.0 + 15.0 == (angle + 15.0) + 360.0;
    Mod360Periodic(angle + 15.0);
  }

  /**
    Away from the bin edges, hour k covers the open interval
    (30(k-1), 30k) of normalised angles: the bins start at the hour mark
    instead of being centred on it.
   */
  lemma ClockSector(angle: real, k: int)
    requires 1 <= k <= 12
    requires 30.0 * (k - 1) as real < Mod360(angle) < 30.0 * k as real
    ensures ClockDirection(angle) == k
  {
    Mod360Shift15(angle);
    var m := Mod360(angle);
    if m < 345.0 {
      RoundHalfEvenNearest((m + 15.0) / 30.0, k);
    } else {
      RoundHalfEvenNearest((m - 345.0) / 30.0, 0);
    }
  }

  /**
    On an hour mark 30k, `round` meets an exact half and picks the even
    neighbour: the mark goes to hour k when k is even (0 reads as 12) and to
    k + 1 when k is odd.
   */
  lemma ClockTie(angle: real, k: int)
    requires 0 <= k < 12
    requires Mod360(angle) == 30.0 * k as real
    ensures ClockDirection(angle) == if k % 2 == 0 then (if k == 0 then 12 else k) else k + 1
  {
    Mod360Shift15(angle);
    assert Mod360(angle + 15.0) / 30.0 == k as real + 0.5;
    RoundHalfEvenTie(k);
  }

  /** Straight ahead is 12; 30, 90 and 180 degrees go to the even hours 2, 4 and 6; -90 degrees goes to 10. */
  lemma ClockSamples()
    ensures ClockDirection(0.0) == 12
    ensures ClockDirection(30.0) == 2
    ensures ClockDirection(90.0) == 4
    ensures ClockDirection(180.0) == 6
    ensures ClockDirection(-90.0) == 10
  {
    Mod360Fixed(0.0);
    ClockTie(0.0, 0);
    Mod360Fixed(30.0);
    ClockTie(30.0, 1);
    Mod360Fixed(90.0);
    ClockTie(90.0, 3);
    Mod360Fixed(180.0);
    ClockTie(180.0, 6);
    Mod360Unique(-90.0, 270.0, -1);
    ClockTie(-90.0, 9);
  }

  /**
    `message(clock, distance)`: the distance rounded to one decimal and the
    template chosen by the clock hour; any hour outside 1..12 falls through
    to the final "Turn left" branch.
   */
  function Message(clock: int, distance: real): (r: Instruction)
    ensures r.distance == Round1(distance)
  {
    var d := Round1(distance);
    if clock == 12 then GoStraight(d)
    else if clock == 1 || clock == 11 then GoStraightAlong(d, clock)
    else if clock == 2 || clock == 4 then TurnRightTo(clock, d)
    else if clock == 3 then TurnRight(d)
    else if clock == 5 || clock == 7 then TurnAroundTo(clock, d)
    else if clock == 6 then TurnAround(d)
    else if clock == 8 || clock == 10 then TurnLeftTo(clock, d)
    else TurnLeft(d)
  }

  /** The side of each hour: 11, 12, 1 ahead; 2-4 right; 5-7 behind; 8-10 left. */
  function HourSide(clock: int): Side
    requires 1 <= clock <= 12
  {
    if clock <= 1 || clock >= 11 then Ahead
    else if clock <= 4 then Right
    else if clock <= 7 then Behind
    else Left
  }

  /** Every hour's template names that hour's side, and the hour itself where the template has one. */
  lemma MessageSides(clock: int, distance: real)
    requires 1 <= clock <= 12
    ensures SideOf(Message(clock, distance)) == HourSide(clock)
    ensures Message(clock, distance).GoStraightAlong? || Message(clock, distance).TurnRightTo? ||
            Message(clock, distance).TurnAroundTo? || Message(clock, distance).TurnLeftTo?
            <==> clock !in {3, 6, 9, 12}
    ensures clock !in {3, 6, 9, 12} ==> Message(clock, distance).clock == clock
  {
  }

  /** Hour 12 - h gets the mirror image of hour h's instruction, for every hour 1..11, and 12 is its own mirror. */
  lemma MessageMirror(clock: int, distance: real)
    requires 1 <= clock <= 12
    ensures Message(if clock == 12 then 12 else 12 - clock, distance) == Mirror(Message(clock, distance))
  {
  }

  /** Any value outside 1..12 gets "Turn left and walk", the same as 9. */
  lemma MessageOutOfRange(clock: int, distance: real)
    requires clock < 1 || clock > 12
    ensures Message(clock, distance) == Message(9, distance) == TurnLeft(Round1(distance))
  {
  }

  /**
    The side a relative angle is announced on, by normalised angle:
    right on [30, 120], behind on (120, 210), left on [210, 300], ahead
    elsewhere. The edges are where the half-to-even ties fall.
   */
  function AngleSide(m: real): Side {
    if 30.0 <= m <= 120.0 then Right
    else if 120.0 < m < 210.0 then Behind
    else if 210.0 <= m <= 300.0 then Left
    else Ahead
  }

  /** Binning an angle and choosing its message announces the side `AngleSide` gives. */
  lemma MessageSideOfAngle(angle: real, distance: real)
    ensures SideOf(Message(ClockDirection(angle), distance)) == AngleSide(Mod360(angle))
  {
    var m := Mod360(angle);
    var k := (m / 30.0).Floor;
    assert 0 <= k < 12;
    if m == 30.0 * k as real {
      ClockTie(angle, k);
    } else {
      ClockSector(angle, k + 1);
    }
    MessageSides(ClockDirection(angle), distance);
  }

  /** The message for each remaining hop, walking from `position` while facing `facing`. */
  function Steps(position: Point, facing: real, hops: seq<Point>, bearing: Bearing, hypot: Hypot): seq<Instruction>
    decreases |hops|
  {
    if hops == [] then []
    else
      var dx := hops[0].x - position.x;
      var dy := hops[0].y - position.y;
      var relative := Mod360(bearing(dx, dy) - facing + 360.0);
      [Message(ClockDirection(relative), hypot(dx, dy))]
        + Steps(hops[0], Mod360(relative + 360.0), hops[1..], bearing, hypot)
  }

  /** The first remaining hop contributes its own message, and the walk carries on from its end point. */
  lemma StepsFirstHop(position: Point, facing: real, hops: seq<Point>, bearing: Bearing, hypot: Hypot,
                      relative: real, distance: real)
    requires hops != []
    requires relative == Mod360(bearing(hops[0].x - position.x, hops[0].y - position.y) - facing + 360.0)
    requires distance == hypot(hops[0].x - position.x, hops[0].y - position.y)
    ensures Steps(position, facing, hops, bearing, hypot)
      == [Message(ClockDirection(relative), distance)] + Steps(hops[0], Mod360(relative + 360.0), hops[1..], bearing, hypot)
  {
  }

  /** Emitting hop i's message and moving to its end point leaves the rest of the walk to produce. */
  lemma StepsAdvance(messages: seq<Instruction>, position: Point, facing: real, path: seq<Point>, i: nat,
                     bearing: Bearing, hypot: Hypot, relative: real, distance: real)
    requires i < |path|
    requires relative == Mod360(bearing(path[i].x - position.x, path[i].y - position.y) - facing + 360.0)
    requires distance == hypot(path[i].x - position.x, path[i].y - position.y)
    ensures messages + Steps(position, facing, path[i..], bearing, hypot)
              == messages + [Message(ClockDirection(relative), distance)]
                 + Steps(path[i], Mod360(relative + 360.0), path[i + 1..], bearing, hypot)
  {
    assert path[i..][0] == path[i] && path[i..][1..] == path[i + 1..];
    StepsFirstHop(position, facing, path[i..], bearing, hypot, relative, distance);
  }

  /** What `generate_directions(user_pose, path)` returns. */
  function Directions(userPose: Pose, path: seq<Point>, bearing: Bearing, hypot: Hypot): seq<Instruction> {
    if path == [] then [] else Steps(Position(userPose), userPose.angle, path[1..], bearing, hypot)
  }

  /** `generate_directions`: one message per hop, carrying the position and orientation from hop to hop. */
  method GenerateDirections(userPose: Pose, path: seq<Point>, bearing: Bearing, hypot: Hypot)
    returns (messages: seq<Instruction>)
    ensures messages == Directions(userPose, path, bearing, hypot)
  {
    messages := [];
    var currentPose := Position(userPose);
    var currentOrientation := userPose.angle;
    var i := 1;
    while i < |path|
      invariant path == [] ==> messages == []
      invariant path != [] ==> i <= |path|
      invariant path != [] ==>
        messages + Steps(currentPose, currentOrientation, path[i..], bearing, hypot) == Directions(userPose, path, bearing, hypot)
    {
      var nextPoint := path[i];
      var dx := nextPoint.x - currentPose.x;
      var dy := nextPoint.y - currentPose.y;
      var relativeAngle := bearing(dx, dy) - currentOrientation;
      var distanceToNextPoint := hypot(dx, dy);
      relativeAngle := Mod360(relativeAngle + 360.0);
      var clockDirection := ClockDirection(relativeAngle);
      var stepMessage := Message(clockDirection, distanceToNextPoint);
      StepsAdvance(messages, currentPose, currentOrientation, path, i, bearing, hypot, relativeAngle, distanceToNextPoint);
      messages := messages + [stepMessage];
      currentPose := nextPoint;
      currentOrientation := Mod360(relativeAngle + 360.0);
      i := i + 1;
    }
  }

  /** Hop k ends at path[k + 1] and starts at the user's position (k = 0) or at path[k]; path[0] is never used. */
  function HopStart(userPose: Pose, path: seq<Point>, k: nat): Point
    requires k < |path|
  {
    if k == 0 then Position(userPose) else path[k]
  }

  /**
    The normalised angle of hop k relative to the orientation carried into
    it: the user's own angle for the first hop, and after that the previous
    hop's relative angle (not its bearing).
   */
  function Turn(userPose: Pose, path: seq<Point>, bearing: Bearing, k: nat): (t: real)
    requires k + 1 < |path|
    ensures 0.0 <= t < 360.0
  {
    var facing := if k == 0 then userPose.angle else Turn(userPose, path, bearing, k - 1);
    Mod360(HopBearing(userPose, path, bearing, k) - facing)
  }

  /** The absolute direction of hop k. */
  function HopBearing(userPose: Pose, path: seq<Point>, bearing: Bearing, k: nat): real
    requires k + 1 < |path|
  {
    var from := HopStart(userPose, path, k);
    bearing(path[k + 1].x - from.x, path[k + 1].y - from.y)
  }

  /** The orientation carried into hop k. */
  function Facing(userPose: Pose, path: seq<Point>, bearing: Bearing, k: nat): real
    requires k < |path|
  {
    if k == 0 then userPose.angle else Turn(userPose, path, bearing, k - 1)
  }

  /** The length of hop k. */
  function HopLength(userPose: Pose, path: seq<Point>, hypot: Hypot, k: nat): real
    requires k + 1 < |path|
  {
    var from := HopStart(userPose, path, k);
    hypot(path[k + 1].x - from.x, path[k + 1].y - from.y)
  }

  /** The message hop k should get: its turn binned to a clock hour, and its length. */
  function HopMessage(userPose: Pose, path: seq<Point>, bearing: Bearing, hypot: Hypot, k: nat): Instruction
    requires k + 1 < |path|
  {
    Message(ClockDirection(Turn(userPose, path, bearing, k)), HopLength(userPose, path, hypot, k))
  }

  /** The walk from hop j emits hop j's message and carries on from hop j + 1. */
  lemma StepsAtHop(userPose: Pose, path: seq<Point>, bearing: Bearing, hypot: Hypot, j: nat)
    requires j + 1 < |path|
    ensures Steps(HopStart(userPose, path, j), Facing(userPose, path, bearing, j), path[j + 1..], bearing, hypot)
      == [HopMessage(userPose, path, bearing, hypot, j)]
         + Steps(HopStart(userPose, path, j + 1), Facing(userPose, path, bearing, j + 1), path[j + 2..], bearing, hypot)
  {
    var from, hops := HopStart(userPose, path, j), path[j + 1..];
    var facing, relative := Facing(userPose, path, bearing, j), Turn(userPose, path, bearing, j);
    NormalisedTurn(userPose, path, bearing, j);
    assert hops[0] == path[j + 1] == HopStart(userPose, path, j + 1);
    assert hops[1..] == path[j + 2..];
    assert HopBearing(userPose, path, bearing, j) == bearing(hops[0].x - from.x, hops[0].y - from.y);
    assert relative == Mod360(bearing(hops[0].x - from.x, hops[0].y - from.y) - facing + 360.0);
    var distance := HopLength(userPose, path, hypot, j);
    StepsFirstHop(from, facing, hops, bearing, hypot, relative, distance);
    assert HopMessage(userPose, path, bearing, hypot, j) == Message(ClockDirection(relative), distance);
    assert Mod360(relative + 360.0) == Facing(userPose, path, bearing, j + 1);
  }

  /** The messages the walk emits from hop j onwards. */
  function StepsFromHop(userPose: Pose, path: seq<Point>, bearing: Bearing, hypot: Hypot, j: nat): seq<Instruction>
    requires j < |path|
  {
    Steps(HopStart(userPose, path, j), Facing(userPose, path, bearing, j), path[j + 1..], bearing, hypot)
  }

  /** From hop j onwards the walk emits exactly `HopMessage` for each remaining hop. */
  lemma {:induction false} StepsFrom(userPose: Pose, path: seq<Point>, bearing: Bearing, hypot: Hypot, j: nat)
    requires j < |path|
    ensures |StepsFromHop(userPose, path, bearing, hypot, j)| == |path| - 1 - j
    ensures forall k :: j <= k < |path| - 1 ==>
      StepsFromHop(userPose, path, bearing, hypot, j)[k - j] == HopMessage(userPose, path, bearing, hypot, k)
    decreases |path| - j
  {
    if j + 1 < |path| {
      StepsAtHop(userPose, path, bearing, hypot, j);
      StepsFrom(userPose, path, bearing, hypot, j + 1);
      var s, rest := StepsFromHop(userPose, path, bearing, hypot, j), StepsFromHop(userPose, path, bearing, hypot, j + 1);
      assert s == [HopMessage(userPose, path, bearing, hypot, j)] + rest;
      forall k | j < k < |path| - 1
        ensures s[k - j] == HopMessage(userPose, path, bearing, hypot, k)
      {
        assert s[k - j] == rest[k - (j + 1)];
      }
    } else {
      assert path[j + 1..] == [];
    }
  }

  /**
    The source's two `(x + 360) % 360` normalisations change nothing: the
    first yields hop j's `Turn`, and the second carries that same value on as
    the orientation for hop j + 1.
   */
  lemma NormalisedTurn(userPose: Pose, path: seq<Point>, bearing: Bearing, j: nat)
    requires j + 1 < |path|
    ensures Mod360(HopBearing(userPose, path, bearing, j) - Facing(userPose, path, bearing, j) + 360.0)
              == Turn(userPose, path, bearing, j)
    ensures Mod360(Turn(userPose, path, bearing, j) + 360.0) == Facing(userPose, path, bearing, j + 1)
  {
    Mod360Periodic(HopBearing(userPose, path, bearing, j) - Facing(userPose, path, bearing, j));
    var relative := Turn(userPose, path, bearing, j);
    Mod360Periodic(relative);
    Mod360Fixed(relative);
  }

  /**
    `generate_directions` returns exactly one message per hop, none for a path
    of at most one point, and message k is `HopMessage` for hop k: the
    clock hour of hop k's turn relative to the carried orientation, and the
    length of hop k measured from the user's position or the previous point.
   */
  lemma DirectionsByHop(userPose: Pose, path: seq<Point>, bearing: Bearing, hypot: Hypot)
    ensures |Directions(userPose, path, bearing, hypot)| == if |path| <= 1 then 0 else |path| - 1
    ensures forall k :: 0 <= k < |path| - 1 ==>
      Directions(userPose, path, bearing, hypot)[k] == HopMessage(userPose, path, bearing, hypot, k)
  {
    if path != [] {
      StepsFrom(userPose, path, bearing, hypot, 0);
      var d := Directions(userPose, path, bearing, hypot);
      assert d == StepsFromHop(userPose, path, bearing, hypot, 0);
      forall k | 0 <= k < |path| - 1
        ensures d[k] == HopMessage(userPose, path, bearing, hypot, k)
      {
        assert d[k] == StepsFromHop(userPose, path, bearing, hypot, 0)[k - 0];
      }
    }
  }
}
