/** A target ("dango"): a circle that oscillates vertically until the bar skewers it. */
module Targets {
  import opened Settings

  /** The random values one spawn draws: randint(R, H - R), uniform(1.5, 4.0), choice([-1, 1]). */
  datatype Draw = Draw(y: int, magnitude: real, sign: int)

  /** The ranges the random library guarantees for a Draw. */
  predicate ValidDraw(d: Draw) {
    TargetRadius <= d.y <= ScreenHeight - TargetRadius &&
    1.5 <= d.magnitude <= 4.0 &&
    (d.sign == -1 || d.sign == 1)
  }

  function DrawnSpeed(d: Draw): real {
    d.magnitude * d.sign as real
  }

  /** The two vertical bounds at which a target's centre reflects. */
  const Lower: real := TargetRadius as real
  const Upper: real := (ScreenHeight - TargetRadius) as real

  datatype TargetState = TargetState(initialX: int, x: int, y: real, speedY: real, isHit: bool, isStuck: bool)

  predicate SpeedInRange(s: real) {
    1.5 <= RealAbs(s) <= 4.0
  }

  /** Where a moving target can be: at most one step past a bound, and then heading back. */
  predicate InBand(y: real, s: real) {
    Lower - RealAbs(s) <= y <= Upper + RealAbs(s) &&
    (y < Lower ==> s > 0.0) &&
    (y > Upper ==> s < 0.0)
  }

  /** What every target satisfies at all times. */
  predicate TargetInv(t: TargetState) {
    t.isHit == t.isStuck &&
    SpeedInRange(t.speedY) &&
    InBand(t.y, t.speedY) &&
    (!t.isStuck ==> t.x == t.initialX)
  }

  /** Target.__init__: column x, a fresh random height and speed, not hit. */
  function NewTarget(x: int, d: Draw): (t: TargetState)
    requires ValidDraw(d)
    ensures t.initialX == t.x == x && !t.isHit && !t.isStuck
    ensures Lower <= t.y <= Upper && SpeedInRange(t.speedY)
    ensures TargetInv(t)
  {
    TargetState(x, x, d.y as real, DrawnSpeed(d), false, false)
  }

  /** Target.update: move by speedY, then reflect when the centre reached or crossed a bound. */
  function StepTarget(t: TargetState): (r: TargetState)
    ensures t.isStuck ==> r == t
    ensures !t.isStuck ==> r.y == t.y + t.speedY
    ensures RealAbs(r.speedY) == RealAbs(t.speedY)
    ensures r.initialX == t.initialX && r.x == t.x
    ensures r.isHit == t.isHit && r.isStuck == t.isStuck
  {
    if t.isStuck then t
    else
      var y := t.y + t.speedY;
      t.(y := y, speedY := if y <= Lower || y >= Upper then -t.speedY else t.speedY)
  }

  /** Target.reset: back to the home column, unhit, with a fresh random height and speed. */
  function ResetTarget(t: TargetState, d: Draw): (r: TargetState)
    requires ValidDraw(d)
    ensures r.initialX == t.initialX && r.x == t.initialX
    ensures !r.isHit && !r.isStuck
    ensures Lower <= r.y <= Upper && SpeedInRange(r.speedY)
  {
    t.(x := t.initialX, isHit := false, isStuck := false, y := d.y as real, speedY := DrawnSpeed(d))
  }

  /** A reset target is exactly a target freshly built at its home column from the same draw. */
  lemma ResetIsRespawn(t: TargetState, d: Draw)
    requires ValidDraw(d)
    ensures ResetTarget(t, d) == NewTarget(t.initialX, d)
  {
  }

  /** The speed is negated exactly when the moved centre is at or beyond a bound. */
  lemma StepReflectsAtBounds(t: TargetState)
    requires !t.isStuck && t.speedY != 0.0
    ensures var y := t.y + t.speedY;
      (StepTarget(t).speedY == -t.speedY <==> (y <= Lower || y >= Upper)) &&
      (StepTarget(t).speedY == t.speedY <==> !(y <= Lower || y >= Upper))
  {
  }

  /** n consecutive calls of Target.update. */
  function StepN(t: TargetState, n: nat): TargetState {
    if n == 0 then t else StepTarget(StepN(t, n - 1))
  }

  /** Stepping a stuck target any number of times leaves it as it was. */
  lemma {:induction false} StuckIsFrozen(t: TargetState, n: nat)
    requires t.isStuck
    ensures StepN(t, n) == t
  {
    if n > 0 {
      StuckIsFrozen(t, n - 1);
    }
  }

  /** One step keeps the target invariant; in particular the centre never gets more than one step past a bound. */
  lemma StepKeepsInv(t: TargetState)
    requires TargetInv(t)
    ensures TargetInv(StepTarget(t))
  {
  }

  /** Any number of steps keeps the target invariant, so the centre stays within [Lower - 4, Upper + 4]. */
  lemma {:induction false} StepsStayNearBounds(t: TargetState, n: nat)
    requires TargetInv(t)
    ensures TargetInv(StepN(t, n))
    ensures Lower - 4.0 <= StepN(t, n).y <= Upper + 4.0
  {
    if n > 0 {
      StepsStayNearBounds(t, n - 1);
      StepKeepsInv(StepN(t, n - 1));
    }
  }

  /** The centre can leave [Lower, Upper]: the bound is checked after the move. */
  lemma OvershootsLowerBound()
    ensures StepTarget(TargetState(40, 40, 18.0, -4.0, false, false)).y < Lower
  {
  }

  /** A target spawned exactly on the lower bound and heading down flips on both of its next two
      steps, so it oscillates between Lower + speedY and Lower for as long as it is not hit. */
  lemma LowerEdgeOscillates(t: TargetState)
    requires !t.isStuck && t.y == Lower && t.speedY < 0.0
    ensures StepTarget(t).y < Lower && StepTarget(StepTarget(t)) == t
  {
  }

  /** The same on the upper bound. */
  lemma UpperEdgeOscillates(t: TargetState)
    requires !t.isStuck && t.y == Upper && t.speedY > 0.0
    ensures StepTarget(t).y > Upper && StepTarget(StepTarget(t)) == t
  {
  }

  /** The target object of projects/dango.py; its state at any time is Model(). */
  class Target {
    const initialX: int
    var x: int
    var y: real
    var speedY: real
    var isHit: bool
    var isStuck: bool

    function Model(): TargetState
      reads this
    {
      TargetState(initialX, x, y, speedY, isHit, isStuck)
    }

    constructor (x0: int, d: Draw)
      requires ValidDraw(d)
      ensures Model() == NewTarget(x0, d)
    {
      initialX := x0;
      x := x0;
      y := d.y as real;
      speedY := DrawnSpeed(d);
      isHit := false;
      isStuck := false;
    }

    method Update()
      modifies this
      ensures Model() == StepTarget(old(Model()))
      ensures old(isStuck) ==> Model() == old(Model())
    {
      if !isStuck {
        y := y + speedY;
        if y <= Lower || y >= Upper {
          speedY := -speedY;
        }
      }
    }

    method Reset(d: Draw)
      requires ValidDraw(d)
      modifies this
      ensures Model() == ResetTarget(old(Model()), d)
    {
      x := initialX;
      isHit := false;
      isStuck := false;
      y := d.y as real;
      speedY := DrawnSpeed(d);
    }
  }
}
