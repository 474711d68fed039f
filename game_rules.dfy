/** The per-frame state machine of Game.update, on state values. */
module GameRules {
  import opened Settings
  import opened Targets
  import opened Bars
  import opened Collision

  datatype Phase = Ready | Firing | Stuck

  datatype GameState = GameState(score: int, phase: Phase, lastHitCount: int, bar: BarState, targets: seq<TargetState>)

  /** One frame's inputs: the pointer height, whether the button was pressed this frame, and the
      random draws a turn reset would consume (one per target). */
  datatype Input = Input(pointerY: int, click: bool, draws: seq<Draw>)

  predicate ValidDraws(ds: seq<Draw>) {
    |ds| == TargetCount && forall i :: 0 <= i < |ds| ==> ValidDraw(ds[i])
  }

  /** The column at which the i-th target is built. */
  function HomeColumn(i: int): int {
    40 + i * 60
  }

  /** Game.__init__: score 0, state "ready", a fresh bar and TargetCount targets at their home columns. */
  function InitialGame(draws: seq<Draw>): (g: GameState)
    requires ValidDraws(draws)
    ensures g.score == 0 && g.phase == Ready && g.lastHitCount == 0 && g.bar == NewBar()
    ensures |g.targets| == TargetCount
    ensures forall i :: 0 <= i < TargetCount ==> g.targets[i] == NewTarget(HomeColumn(i), draws[i])
  {
    GameState(0, Ready, 0, NewBar(), seq(TargetCount, i requires 0 <= i < TargetCount => NewTarget(HomeColumn(i), draws[i])))
  }

  /** The first loop of Game.update: every target not stuck is stepped. */
  function StepAll(ts: seq<TargetState>): (r: seq<TargetState>)
    ensures |r| == |ts|
    ensures forall i :: 0 <= i < |ts| ==> r[i] == StepTarget(ts[i])
    ensures forall i :: 0 <= i < |ts| && ts[i].isStuck ==> r[i] == ts[i]
  {
    seq(|ts|, i requires 0 <= i < |ts| => if ts[i].isStuck then ts[i] else StepTarget(ts[i]))
  }

  /** One stuck target dragged along with the bar, which is now at barX. */
  function Drag(t: TargetState, barX: int): TargetState {
    if t.isStuck && barX > 0 then t.(x := t.x - BarSpeed) else t
  }

  /** The drag loop of the "firing" branch. */
  function DragAll(ts: seq<TargetState>, barX: int): (r: seq<TargetState>)
    ensures |r| == |ts|
    ensures forall i :: 0 <= i < |ts| ==> r[i] == ts[i].(x := r[i].x)
    ensures forall i :: 0 <= i < |ts| ==> r[i].x == (if ts[i].isStuck && barX > 0 then ts[i].x - BarSpeed else ts[i].x)
  {
    seq(|ts|, i requires 0 <= i < |ts| => Drag(ts[i], barX))
  }

  /** Game.reset_turn's loop over the targets, each consuming its own draw. */
  function ResetAll(ts: seq<TargetState>, draws: seq<Draw>): (r: seq<TargetState>)
    requires |draws| == |ts|
    requires forall i :: 0 <= i < |draws| ==> ValidDraw(draws[i])
    ensures |r| == |ts|
    ensures forall i :: 0 <= i < |ts| ==> r[i] == NewTarget(ts[i].initialX, draws[i])
  {
    seq(|ts|, i requires 0 <= i < |ts| => ResetTarget(ts[i], draws[i]))
  }

  /** The "ready" branch, after the targets have moved to ts. */
  function ReadyStep(g: GameState, ts: seq<TargetState>, pointerY: int, click: bool): GameState {
    var bar := StepBar(g.bar, pointerY);
    if click then g.(bar := FireBar(bar), targets := ts, phase := Firing)
    else g.(bar := bar, targets := ts)
  }

  /** The "firing" branch, after the targets have moved to ts. */
  function FiringStep(g: GameState, ts: seq<TargetState>, pointerY: int): GameState {
    var moved := StepBar(g.bar, pointerY);
    var dragged := DragAll(ts, moved.x);
    var bar := moved.(hitCount := moved.hitCount + CountHits(moved, dragged));
    var collided := CollideAll(moved, dragged);
    if bar.x <= 0 then
      g.(bar := bar, targets := collided, phase := Stuck, lastHitCount := bar.hitCount,
         score := if bar.hitCount > 0 then g.score + bar.hitCount * bar.hitCount else g.score)
    else
      g.(bar := bar, targets := collided)
  }

  /** The "stuck" branch, after the targets have moved to ts. */
  function StuckStep(g: GameState, ts: seq<TargetState>, click: bool, draws: seq<Draw>): GameState
    requires |draws| == |ts| && forall i :: 0 <= i < |draws| ==> ValidDraw(draws[i])
  {
    if click then g.(bar := ResetBar(g.bar), targets := ResetAll(ts, draws), phase := Ready)
    else g.(targets := ts)
  }

  /** Game.update: one frame of the simulation. */
  function GameStep(g: GameState, inp: Input): (r: GameState)
    requires |inp.draws| == |g.targets| && forall i :: 0 <= i < |inp.draws| ==> ValidDraw(inp.draws[i])
    ensures |r.targets| == |g.targets|
    ensures forall i :: 0 <= i < |g.targets| ==> r.targets[i].initialX == g.targets[i].initialX
  {
    var ts := StepAll(g.targets);
    match g.phase
    case Ready => ReadyStep(g, ts, inp.pointerY, inp.click)
    case Firing => FiringStep(g, ts, inp.pointerY)
    case Stuck => StuckStep(g, ts, inp.click, inp.draws)
  }

  /** The game run for one frame per input. */
  function Run(g: GameState, inputs: seq<Input>): (r: GameState)
    requires forall k :: 0 <= k < |inputs| ==> ValidDraws(inputs[k].draws)
    requires |g.targets| == TargetCount
    ensures |r.targets| == TargetCount
    decreases |inputs|
  {
    if inputs == [] then g
    else
      assert ValidDraws(inputs[0].draws);
      Run(GameStep(g, inputs[0]), inputs[1..])
  }

  /** What holds of the game in every reachable state. */
  predicate GameInv(g: GameState) {
    |g.targets| == TargetCount &&
    (forall i :: 0 <= i < |g.targets| ==> g.targets[i].initialX == HomeColumn(i) && TargetInv(g.targets[i])) &&
    BarInv(g.bar) &&
    (g.phase == Ready <==> !g.bar.isFiring) &&
    (g.phase == Ready ==> forall i :: 0 <= i < |g.targets| ==> !g.targets[i].isStuck) &&
    (g.phase != Ready ==> g.bar.hitCount == NumHit(g.targets)) &&
    (g.phase == Firing ==> g.bar.x > 0) &&
    (g.phase == Stuck ==> g.bar.x == 0 && g.lastHitCount == g.bar.hitCount) &&
    0 <= g.lastHitCount <= TargetCount &&
    g.score >= 0
  }

  lemma InitialGameInv(draws: seq<Draw>)
    requires ValidDraws(draws)
    ensures GameInv(InitialGame(draws))
  {
  }

  /** Stepping the targets keeps every target invariant and every hit flag. */
  lemma StepAllKeepsTargets(ts: seq<TargetState>)
    requires forall i :: 0 <= i < |ts| ==> TargetInv(ts[i])
    ensures forall i :: 0 <= i < |ts| ==> TargetInv(StepAll(ts)[i])
    ensures forall i :: 0 <= i < |ts| ==>
      StepAll(ts)[i].isHit == ts[i].isHit && StepAll(ts)[i].isStuck == ts[i].isStuck &&
      StepAll(ts)[i].initialX == ts[i].initialX
    ensures NumHit(StepAll(ts)) == NumHit(ts)
  {
    forall i | 0 <= i < |ts| ensures TargetInv(StepAll(ts)[i]) {
      StepKeepsInv(ts[i]);
    }
    NumHitOfSameFlags(StepAll(ts), ts);
  }

  lemma ReadyStepInv(g: GameState, pointerY: int, click: bool)
    requires GameInv(g) && g.phase == Ready
    ensures GameInv(ReadyStep(g, StepAll(g.targets), pointerY, click))
  {
    var ts := StepAll(g.targets);
    StepAllKeepsTargets(g.targets);
    BarOpsKeepInv(g.bar, pointerY);
    BarOpsKeepInv(StepBar(g.bar, pointerY), pointerY);
    if click {
      NumHitNone(ts);
    }
  }

  /** Dragging and colliding keep every target invariant, every home column, and hit_count in step with the hit flags. */
  lemma DragCollideKeepsTargets(ts: seq<TargetState>, b: BarState)
    requires forall i :: 0 <= i < |ts| ==> TargetInv(ts[i])
    ensures var r := CollideAll(b, DragAll(ts, b.x));
      (forall i :: 0 <= i < |ts| ==> TargetInv(r[i]) && r[i].initialX == ts[i].initialX) &&
      NumHit(r) == NumHit(ts) + CountHits(b, DragAll(ts, b.x))
  {
    var dragged := DragAll(ts, b.x);
    assert forall i :: 0 <= i < |dragged| ==> TargetInv(dragged[i]);
    NumHitOfSameFlags(dragged, ts);
    CollideCountsNewHits(b, dragged);
  }

  lemma FiringStepInv(g: GameState, pointerY: int)
    requires GameInv(g) && g.phase == Firing
    ensures GameInv(FiringStep(g, StepAll(g.targets), pointerY))
  {
    var ts := StepAll(g.targets);
    StepAllKeepsTargets(g.targets);
    var moved := StepBar(g.bar, pointerY);
    FiringBarAdvances(g.bar, pointerY);
    DragCollideKeepsTargets(ts, moved);
    CountHitsAtMostUnhit(moved, DragAll(ts, moved.x));
    NumHitOfSameFlags(DragAll(ts, moved.x), ts);
  }

  lemma StuckStepInv(g: GameState, click: bool, draws: seq<Draw>)
    requires GameInv(g) && g.phase == Stuck && ValidDraws(draws)
    ensures GameInv(StuckStep(g, StepAll(g.targets), click, draws))
  {
    StepAllKeepsTargets(g.targets);
  }

  /** Every frame keeps the game invariant. */
  lemma GameStepKeepsInv(g: GameState, inp: Input)
    requires GameInv(g) && ValidDraws(inp.draws)
    ensures GameInv(GameStep(g, inp))
  {
    match g.phase
    case Ready => ReadyStepInv(g, inp.pointerY, inp.click);
    case Firing => FiringStepInv(g, inp.pointerY);
    case Stuck => StuckStepInv(g, inp.click, inp.draws);
  }

  /** The score never decreases, changes only when a firing turn ends, and then by lastHitCount squared. */
  lemma ScoreStep(g: GameState, inp: Input)
    requires GameInv(g) && ValidDraws(inp.draws)
    ensures var r := GameStep(g, inp);
      r.score >= g.score &&
      (r.score != g.score ==> g.phase == Firing && r.phase == Stuck && r.lastHitCount > 0) &&
      (g.phase == Firing && r.phase == Stuck ==> r.score == g.score + r.lastHitCount * r.lastHitCount)
  {
    var r := GameStep(g, inp);
    if g.phase == Firing && r.phase == Stuck && r.lastHitCount > 0 {
      assert r.lastHitCount * r.lastHitCount > 0;
    }
  }

  /** Over any run the score never decreases. */
  lemma {:induction false} ScoreMonotone(g: GameState, inputs: seq<Input>)
    requires GameInv(g)
    requires forall k :: 0 <= k < |inputs| ==> ValidDraws(inputs[k].draws)
    ensures GameInv(Run(g, inputs))
    ensures Run(g, inputs).score >= g.score
    decreases |inputs|
  {
    if inputs != [] {
      assert ValidDraws(inputs[0].draws);
      GameStepKeepsInv(g, inputs[0]);
      ScoreStep(g, inputs[0]);
      ScoreMonotone(GameStep(g, inputs[0]), inputs[1..]);
    }
  }

  /** A click in "ready" fires the bar from the right edge with a zero hit count. */
  lemma ReadyClickFires(g: GameState, inp: Input)
    requires GameInv(g) && g.phase == Ready && inp.click && ValidDraws(inp.draws)
    ensures var r := GameStep(g, inp);
      r.phase == Firing && r.bar.isFiring && r.bar.x == ScreenWidth && r.bar.hitCount == 0 &&
      r.bar.y == inp.pointerY && r.score == g.score
  {
  }

  /** Without a click, "ready" stays "ready" with the bar at the pointer's height. */
  lemma ReadyFollowsPointer(g: GameState, inp: Input)
    requires GameInv(g) && g.phase == Ready && !inp.click && ValidDraws(inp.draws)
    ensures var r := GameStep(g, inp);
      r.phase == Ready && r.bar == g.bar.(y := inp.pointerY) && r.score == g.score
  {
  }

  /** While firing, stuck targets keep their height and are dragged left by BarSpeed exactly when
      the bar, after its own move, is still right of 0. */
  lemma FiringDragsStuckTargets(g: GameState, inp: Input, i: int)
    requires GameInv(g) && g.phase == Firing && ValidDraws(inp.draws)
    requires 0 <= i < |g.targets| && g.targets[i].isStuck
    ensures var r := GameStep(g, inp);
      r.targets[i].isStuck && r.targets[i].y == g.targets[i].y && r.targets[i].speedY == g.targets[i].speedY &&
      r.targets[i].x == (if r.bar.x > 0 then g.targets[i].x - BarSpeed else g.targets[i].x)
  {
  }

  /** One firing frame either moves the bar BarSpeed closer to 0 or, on reaching 0, ends the turn. */
  lemma FiringStepProgress(g: GameState, inp: Input)
    requires GameInv(g) && g.phase == Firing && ValidDraws(inp.draws)
    ensures var r := GameStep(g, inp);
      r.bar.x == g.bar.x - BarSpeed &&
      r.phase == (if g.bar.x == BarSpeed then Stuck else Firing) &&
      (r.phase == Stuck ==> r.lastHitCount == NumHit(r.targets))
  {
    FiringStepInv(g, inp.pointerY);
  }

  /** A firing turn ends after exactly bar.x / BarSpeed frames, whatever the inputs, and that is at
      most ScreenWidth / BarSpeed = 40 frames. */
  lemma {:induction false} FiringTerminates(g: GameState, inputs: seq<Input>)
    requires GameInv(g) && g.phase == Firing
    requires forall k :: 0 <= k < |inputs| ==> ValidDraws(inputs[k].draws)
    requires |inputs| <= g.bar.x / BarSpeed
    ensures g.bar.x / BarSpeed <= ScreenWidth / BarSpeed == 40
    ensures Run(g, inputs).phase == (if |inputs| == g.bar.x / BarSpeed then Stuck else Firing)
    ensures Run(g, inputs).bar.x == g.bar.x - BarSpeed * |inputs|
    decreases |inputs|
  {
    if inputs != [] {
      assert ValidDraws(inputs[0].draws);
      var g1 := GameStep(g, inputs[0]);
      GameStepKeepsInv(g, inputs[0]);
      FiringStepProgress(g, inputs[0]);
      if g.bar.x == BarSpeed {
        assert inputs[1..] == [];
      } else {
        assert g1.bar.x / BarSpeed == g.bar.x / BarSpeed - 1;
        FiringTerminates(g1, inputs[1..]);
      }
    }
  }

  /** Without a click, "stuck" stays "stuck" and the score stays. */
  lemma StuckWaits(g: GameState, inp: Input)
    requires GameInv(g) && g.phase == Stuck && !inp.click && ValidDraws(inp.draws)
    ensures var r := GameStep(g, inp);
      r.phase == Stuck && r.score == g.score && r.bar == g.bar && r.lastHitCount == g.lastHitCount
  {
  }

  /** A click in "stuck" starts a new turn: "ready", bar idle, every target unhit at its home column. */
  lemma StuckClickResets(g: GameState, inp: Input)
    requires GameInv(g) && g.phase == Stuck && inp.click && ValidDraws(inp.draws)
    ensures var r := GameStep(g, inp);
      r.phase == Ready && !r.bar.isFiring && r.score == g.score &&
      forall i :: 0 <= i < |r.targets| ==>
        !r.targets[i].isHit && !r.targets[i].isStuck && r.targets[i].x == HomeColumn(i) &&
        r.targets[i] == NewTarget(HomeColumn(i), inp.draws[i])
  {
  }
}
