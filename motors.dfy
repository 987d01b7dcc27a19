/** The actuator table: each motion intent is realised by writing one fixed
    pattern to the four low lines of the output port. Lines 3 and 2 drive one
    motor (forward, backward), lines 1 and 0 the other. */
module Motors {
  import opened Common

  datatype Motion = Stop | Forward | Backward | TurnLeft | TurnRight

  /** Value of line k (0 = least significant) of a port value. */
  function Line(p: Byte, k: nat): bool
    requires k < 4
  {
    (p / (if k == 0 then 1 else if k == 1 then 2 else if k == 2 then 4 else 8)) % 2 == 1
  }

  /** The five port values the controller ever writes, listed independently of Pattern. */
  predicate IsPattern(p: Byte)
  {
    p == 0x00 || p == 0x0A || p == 0x05 || p == 0x06 || p == 0x09
  }

  /** The port value written for a motion. Every value is a legal pattern,
      fits in the four output lines, is zero exactly for Stop, and never
      drives both lines of one motor at once. */
  function Pattern(m: Motion): (p: Byte)
    ensures IsPattern(p)
    ensures p < 0x10
    ensures p == 0 <==> m == Stop
    ensures !(Line(p, 3) && Line(p, 2)) && !(Line(p, 1) && Line(p, 0))
  {
    match m
    case Stop => 0x00
    case Forward => 0x0A
    case Backward => 0x05
    case TurnLeft => 0x06
    case TurnRight => 0x09
  }

  /** The motion a port value realises, if it is one of the five patterns. */
  function MotionOf(p: Byte): (r: Option<Motion>)
    ensures r.Some? <==> IsPattern(p)
    ensures r.Some? ==> Pattern(r.value) == p
  {
    if p == 0x00 then Some(Stop)
    else if p == 0x0A then Some(Forward)
    else if p == 0x05 then Some(Backward)
    else if p == 0x06 then Some(TurnLeft)
    else if p == 0x09 then Some(TurnRight)
    else None
  }

  /** Reading back the pattern of a motion gives that motion, so no two
      motions share a pattern. */
  lemma PatternRoundTrip(m: Motion)
    ensures MotionOf(Pattern(m)) == Some(m)
  {
  }

  /** The five patterns are exactly the values Pattern produces. */
  lemma IsPatternExactly(p: Byte)
    ensures IsPattern(p) <==> exists m: Motion :: Pattern(m) == p
  {
    if IsPattern(p) {
      assert Pattern(MotionOf(p).value) == p;
    }
  }
}
