/**
 * Limit configuration of a physics constraint, and the setters that fill it
 * from 0/1/2 motion codes (SetLinearLimits, SetAngularLimits) plus the fixed
 * profile every bend-chain constraint uses.
 */
module ConstraintProfile {

  datatype Motion = Free | Limited | Locked

  /** A uint8 motion code: 0 free, 1 limited, 2 locked; other values are ignored. */
  type MotionCode = c: int | 0 <= c < 256

  datatype LinearLimit = LinearLimit(
    xMotion: Motion, yMotion: Motion, zMotion: Motion,
    limit: real, soft: bool, stiffness: real, damping: real)

  datatype ConeLimit = ConeLimit(
    swing1Motion: Motion, swing2Motion: Motion,
    swing1Degrees: real, swing2Degrees: real,
    soft: bool, stiffness: real, damping: real)

  datatype TwistLimit = TwistLimit(
    twistMotion: Motion, twistDegrees: real,
    soft: bool, stiffness: real, damping: real)

  datatype ConstraintInstance = ConstraintInstance(
    disableCollision: bool, linear: LinearLimit, cone: ConeLimit, twist: TwistLimit)

  /** The code that selects a motion. */
  function CodeOf(m: Motion): (c: MotionCode)
    ensures c <= 2
  {
    match m
    case Free => 0
    case Limited => 1
    case Locked => 2
  }

  /** One `switch` of the setters: a known code selects its motion, any other leaves `current`. */
  function ApplyCode(code: MotionCode, current: Motion): (m: Motion)
    ensures code <= 2 ==> CodeOf(m) == code
    ensures code > 2 ==> m == current
  {
    if code == 0 then Free
    else if code == 1 then Limited
    else if code == 2 then Locked
    else current
  }

  /** Codes and motions are inverse: applying a motion's code selects that motion, whatever was set. */
  lemma ApplyCodeOf(m: Motion, current: Motion)
    ensures ApplyCode(CodeOf(m), current) == m
  {
  }

  function SetLinearLimits(
    c: ConstraintInstance, disableCollision: bool,
    xLim: MotionCode, yLim: MotionCode, zLim: MotionCode,
    size: real, softLimit: bool, softStiffness: real, softDamping: real): (r: ConstraintInstance)
    ensures r.cone == c.cone && r.twist == c.twist
    ensures r.disableCollision == disableCollision
    ensures xLim <= 2 ==> CodeOf(r.linear.xMotion) == xLim
    ensures yLim <= 2 ==> CodeOf(r.linear.yMotion) == yLim
    ensures zLim <= 2 ==> CodeOf(r.linear.zMotion) == zLim
    ensures xLim > 2 ==> r.linear.xMotion == c.linear.xMotion
    ensures yLim > 2 ==> r.linear.yMotion == c.linear.yMotion
    ensures zLim > 2 ==> r.linear.zMotion == c.linear.zMotion
    ensures r.linear.limit == size && r.linear.soft == softLimit
    ensures r.linear.stiffness == softStiffness && r.linear.damping == softDamping
  {
    c.(disableCollision := disableCollision,
       linear := LinearLimit(
         ApplyCode(xLim, c.linear.xMotion),
         ApplyCode(yLim, c.linear.yMotion),
         ApplyCode(zLim, c.linear.zMotion),
         size, softLimit, softStiffness, softDamping))
  }

  function SetAngularLimits(
    c: ConstraintInstance,
    s1Lim: MotionCode, s2Lim: MotionCode, tLim: MotionCode,
    swing1LimitAngle: real, swing2LimitAngle: real, twistLimitAngle: real,
    softSwingLimit: bool, softTwistLimit: bool,
    swingStiff: real, swingDamp: real, twistStiff: real, twistDamp: real): (r: ConstraintInstance)
    ensures r.disableCollision == c.disableCollision && r.linear == c.linear
    ensures s1Lim <= 2 ==> CodeOf(r.cone.swing1Motion) == s1Lim
    ensures s2Lim <= 2 ==> CodeOf(r.cone.swing2Motion) == s2Lim
    ensures tLim <= 2 ==> CodeOf(r.twist.twistMotion) == tLim
    ensures s1Lim > 2 ==> r.cone.swing1Motion == c.cone.swing1Motion
    ensures s2Lim > 2 ==> r.cone.swing2Motion == c.cone.swing2Motion
    ensures tLim > 2 ==> r.twist.twistMotion == c.twist.twistMotion
    ensures r.cone.swing1Degrees == swing1LimitAngle && r.cone.swing2Degrees == swing2LimitAngle
    ensures r.twist.twistDegrees == twistLimitAngle
    ensures r.cone.soft == softSwingLimit && r.twist.soft == softTwistLimit
    ensures r.cone.stiffness == swingStiff && r.cone.damping == swingDamp
    ensures r.twist.stiffness == twistStiff && r.twist.damping == twistDamp
  {
    c.(cone := ConeLimit(
         ApplyCode(s1Lim, c.cone.swing1Motion),
         ApplyCode(s2Lim, c.cone.swing2Motion),
         swing1LimitAngle, swing2LimitAngle,
         softSwingLimit, swingStiff, swingDamp),
       twist := TwistLimit(
         ApplyCode(tLim, c.twist.twistMotion),
         twistLimitAngle, softTwistLimit, twistStiff, twistDamp))
  }

  /**
   * A default-constructed constraint instance. Its values are the engine's and
   * are not part of this model; ChainProfileIgnoresInit shows they do not matter.
   */
  const DefaultInstance := ConstraintInstance(
    false,
    LinearLimit(Free, Free, Free, 0.0, false, 0.0, 0.0),
    ConeLimit(Free, Free, 0.0, 0.0, false, 0.0, 0.0),
    TwistLimit(Free, 0.0, false, 0.0, 0.0))

  /** The profile built for every bend-chain constraint by makeChainConstraints. */
  function ChainProfile(init: ConstraintInstance, stiffness: real, damping: real): (r: ConstraintInstance)
    ensures r.cone.swing1Motion == Limited && r.cone.swing2Motion == Limited
    ensures r.twist.twistMotion == Limited
    ensures r.cone.swing1Degrees == 0.0 && r.cone.swing2Degrees == 0.0 && r.twist.twistDegrees == 0.0
    ensures r.cone.soft && r.twist.soft
    ensures r.cone.stiffness == stiffness && r.cone.damping == damping
    ensures r.twist.stiffness == stiffness && r.twist.damping == damping
    ensures r.linear.xMotion == Locked && r.linear.yMotion == Locked && r.linear.zMotion == Locked
    ensures r.linear.limit == 2.0 && !r.linear.soft
    ensures r.linear.stiffness == stiffness * 2.0 && r.linear.damping == damping * 2.0
    ensures r.disableCollision
  {
    var angular := SetAngularLimits(init, 1, 1, 1, 0.0, 0.0, 0.0, true, true,
                                    stiffness, damping, stiffness, damping);
    SetLinearLimits(angular, true, 2, 2, 2, 2.0, false, stiffness * 2.0, damping * 2.0)
  }

  /** Every field of the chain profile is set, so the starting instance does not show through. */
  lemma ChainProfileIgnoresInit(a: ConstraintInstance, b: ConstraintInstance, stiffness: real, damping: real)
    ensures ChainProfile(a, stiffness, damping) == ChainProfile(b, stiffness, damping)
  {
  }
}
