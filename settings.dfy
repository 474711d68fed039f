/** The game's configuration constants (projects/dango.py, lines 5-11). */
module Settings {
  const ScreenWidth: int := 320
  const ScreenHeight: int := 240
  const TargetRadius: int := 16
  const TargetCount: int := 5
  const BarLength: int := 100
  const BarSpeed: int := 8
  const HitToleranceY: int := 4

  /** Python's abs() on a real value. */
  function RealAbs(r: real): (a: real)
    ensures a >= 0.0 && (a == r || a == -r)
  {
    if r < 0.0 then -r else r
  }
}
