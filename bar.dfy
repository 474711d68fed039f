/** The bar: it follows the pointer while idle and slides left once fired. */
module Bars {
  import opened Settings

  datatype BarState = BarState(x: int, y: int, length: int, isFiring: bool, hitCount: int)

  /** What the bar satisfies at all times: its x sits on the BarSpeed lattice inside the screen. */
  predicate BarInv(b: BarState) {
    b.length == BarLength &&
    0 <= b.x <= ScreenWidth && b.x % BarSpeed == 0 &&
    0 <= b.hitCount <= TargetCount
  }

  /** Bar.__init__: at the right edge, mid-height, idle, no hits. */
  function NewBar(): (b: BarState)
    ensures b.x == ScreenWidth && b.y == ScreenHeight / 2 && b.length == BarLength
    ensures !b.isFiring && b.hitCount == 0
    ensures BarInv(b)
  {
    BarState(ScreenWidth, ScreenHeight / 2, BarLength, false, 0)
  }

  /** Bar.update, with the pointer's height as a parameter. */
  function StepBar(b: BarState, pointerY: int): (r: BarState)
    ensures r.length == b.length && r.isFiring == b.isFiring && r.hitCount == b.hitCount
    ensures b.isFiring ==> r.y == b.y && r.x == (if b.x > 0 then b.x - BarSpeed else 0)
    ensures !b.isFiring ==> r.y == pointerY && r.x == b.x
  {
    if b.isFiring then
      if b.x > 0 then b.(x := b.x - BarSpeed) else b.(x := 0)
    else
      b.(y := pointerY)
  }

  /** Bar.fire: start a shot from the right edge with a fresh hit count; no-op while firing. */
  function FireBar(b: BarState): (r: BarState)
    ensures b.isFiring ==> r == b
    ensures !b.isFiring ==> r == BarState(ScreenWidth, b.y, b.length, true, 0)
  {
    if b.isFiring then b else b.(isFiring := true, hitCount := 0, x := ScreenWidth)
  }

  /** Bar.reset: only the firing flag is cleared. */
  function ResetBar(b: BarState): (r: BarState)
    ensures !r.isFiring
    ensures r.x == b.x && r.y == b.y && r.length == b.length && r.hitCount == b.hitCount
  {
    b.(isFiring := false)
  }

  /** Every bar operation keeps x a multiple of BarSpeed within [0, ScreenWidth]. */
  lemma BarOpsKeepInv(b: BarState, pointerY: int)
    requires BarInv(b)
    ensures BarInv(StepBar(b, pointerY)) && BarInv(FireBar(b)) && BarInv(ResetBar(b))
  {
  }

  /** While firing from a positive x, each step moves the bar exactly BarSpeed to the left. */
  lemma FiringBarAdvances(b: BarState, pointerY: int)
    requires BarInv(b) && b.isFiring && b.x > 0
    ensures StepBar(b, pointerY).x == b.x - BarSpeed >= 0
  {
  }

  /** The bar object of projects/dango.py; its state at any time is Model(). */
  class Bar {
    var x: int
    var y: int
    const length: int
    var isFiring: bool
    var hitCount: int

    function Model(): BarState
      reads this
    {
      BarState(x, y, length, isFiring, hitCount)
    }

    constructor ()
      ensures Model() == NewBar()
    {
      x := ScreenWidth;
      y := ScreenHeight / 2;
      length := BarLength;
      isFiring := false;
      hitCount := 0;
    }

    method Update(pointerY: int)
      modifies this
      ensures Model() == StepBar(old(Model()), pointerY)
    {
      if isFiring {
        if x > 0 {
          x := x - BarSpeed;
        } else {
          x := 0;
        }
      } else {
        y := pointerY;
      }
    }

    method Fire()
      modifies this
      ensures Model() == FireBar(old(Model()))
    {
      if !isFiring {
        isFiring := true;
        hitCount := 0;
        x := ScreenWidth;
      }
    }

    method Reset()
      modifies this
      ensures Model() == ResetBar(old(Model()))
    {
      isFiring := false;
    }
  }
}
