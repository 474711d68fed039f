/** The Game object of projects/dango.py: it owns the bar and the targets and mutates them each frame. */
module GameLoop {
  import opened Settings
  import opened Targets
  import opened Bars
  import opened Collision
  import opened GameRules

  class Game {
    var score: int
    var state: Phase
    var lastHitCount: int
    const bar: Bar
    const targets: seq<Target>

    function TargetModels(): (r: seq<TargetState>)
      reads targets
      ensures |r| == |targets| && forall i :: 0 <= i < |targets| ==> r[i] == targets[i].Model()
    {
      seq(|targets|, i requires 0 <= i < |targets| reads targets => targets[i].Model())
    }

    function Model(): GameState
      reads this, bar, targets
    {
      GameState(score, state, lastHitCount, bar.Model(), TargetModels())
    }

    /** The targets are distinct objects, and the game state is a reachable one. */
    ghost predicate Valid()
      reads this, bar, targets
    {
      (forall i, j :: 0 <= i < j < |targets| ==> targets[i] != targets[j]) &&
      GameInv(Model())
    }

    constructor (draws: seq<Draw>)
      requires ValidDraws(draws)
      ensures Valid() && Model() == InitialGame(draws)
      ensures fresh(bar) && forall i :: 0 <= i < |targets| ==> fresh(targets[i])
    {
      score := 0;
      var b := new Bar();
      var ts: seq<Target> := [];
      for i := 0 to TargetCount
        invariant |ts| == i
        invariant forall k :: 0 <= k < i ==> fresh(ts[k]) && ts[k].Model() == NewTarget(HomeColumn(k), draws[k])
        invariant forall k, l :: 0 <= k < l < i ==> ts[k] != ts[l]
        invariant b.Model() == NewBar()
      {
        var t := new Target(HomeColumn(i), draws[i]);
        ts := ts + [t];
      }
      bar := b;
      targets := ts;
      state := Ready;
      lastHitCount := 0;
      new;
      assert TargetModels() == InitialGame(draws).targets;
      InitialGameInv(draws);
    }

    /** The first loop of Game.update: step every target that is not stuck. */
    method StepTargets()
      requires forall i, j :: 0 <= i < j < |targets| ==> targets[i] != targets[j]
      modifies targets
      ensures TargetModels() == StepAll(old(TargetModels()))
    {
      for i := 0 to |targets|
        invariant forall k :: 0 <= k < i ==> targets[k].Model() == StepAll(old(TargetModels()))[k]
        invariant forall k :: i <= k < |targets| ==> targets[k].Model() == old(targets[k].Model())
      {
        if !targets[i].isStuck {
          targets[i].Update();
        }
      }
    }

    /** The drag loop of the "firing" branch: stuck targets follow the bar while it is right of 0. */
    method DragStuckTargets()
      requires forall i, j :: 0 <= i < j < |targets| ==> targets[i] != targets[j]
      modifies targets
      ensures TargetModels() == DragAll(old(TargetModels()), bar.x)
    {
      for i := 0 to |targets|
        invariant forall k :: 0 <= k < i ==> targets[k].Model() == Drag(old(targets[k].Model()), bar.x)
        invariant forall k :: i <= k < |targets| ==> targets[k].Model() == old(targets[k].Model())
      {
        if targets[i].isStuck {
          if bar.x > 0 {
            targets[i].x := targets[i].x - BarSpeed;
          }
        }
      }
    }

    /** Game.check_collision. */
    method CheckCollision()
      requires forall i, j :: 0 <= i < j < |targets| ==> targets[i] != targets[j]
      modifies bar, targets
      ensures TargetModels() == CollideAll(old(bar.Model()), old(TargetModels()))
      ensures bar.Model() == old(bar.Model()).(hitCount := old(bar.hitCount) + CountHits(old(bar.Model()), old(TargetModels())))
    {
      ghost var b := bar.Model();
      ghost var ts := TargetModels();
      for i := 0 to |targets|
        invariant bar.Model() == b.(hitCount := b.hitCount + CountHits(b, ts[..i]))
        invariant forall k :: 0 <= k < i ==> targets[k].Model() == CollideTarget(b, ts[k])
        invariant forall k :: i <= k < |targets| ==> targets[k].Model() == ts[k]
      {
        var t := targets[i];
        if !t.isHit {
          var xHit := bar.x <= t.x <= bar.x + bar.length;
          var yHit := RealAbs(bar.y as real - t.y) < HitToleranceY as real;
          if xHit && yHit {
            t.isHit := true;
            t.isStuck := true;
            bar.hitCount := bar.hitCount + 1;
          }
        }
        assert ts[..i + 1][..i] == ts[..i];
      }
      assert ts[..|targets|] == ts;
    }

    /** Game.reset_turn: the bar stops firing and every target respawns from its own draw. */
    method ResetTurn(draws: seq<Draw>)
      requires forall i, j :: 0 <= i < j < |targets| ==> targets[i] != targets[j]
      requires |draws| == |targets| && forall i :: 0 <= i < |draws| ==> ValidDraw(draws[i])
      modifies bar, targets
      ensures bar.Model() == ResetBar(old(bar.Model()))
      ensures TargetModels() == ResetAll(old(TargetModels()), draws)
    {
      bar.Reset();
      for i := 0 to |targets|
        invariant bar.Model() == ResetBar(old(bar.Model()))
        invariant forall k :: 0 <= k < i ==> targets[k].Model() == ResetTarget(old(targets[k].Model()), draws[k])
        invariant forall k :: i <= k < |targets| ==> targets[k].Model() == old(targets[k].Model())
      {
        targets[i].Reset(draws[i]);
      }
    }

    /** The "ready" branch of Game.update. */
    method ReadyFrame(pointerY: int, click: bool)
      modifies this, bar
      ensures Model() == ReadyStep(old(Model()), old(TargetModels()), pointerY, click)
    {
      bar.Update(pointerY);
      if click {
        bar.Fire();
        state := Firing;
      }
    }

    /** The "firing" branch of Game.update. */
    method FiringFrame(pointerY: int)
      requires forall i, j :: 0 <= i < j < |targets| ==> targets[i] != targets[j]
      modifies this, bar, targets
      ensures Model() == FiringStep(old(Model()), old(TargetModels()), pointerY)
    {
      ghost var g := Model();
      ghost var ts := TargetModels();
      ghost var after := FiringStep(g, ts, pointerY);
      bar.Update(pointerY);
      ghost var moved := bar.Model();
      DragStuckTargets();
      ghost var dragged := TargetModels();
      assert dragged == DragAll(ts, moved.x);
      CheckCollision();
      assert TargetModels() == CollideAll(moved, dragged);
      assert bar.Model() == moved.(hitCount := moved.hitCount + CountHits(moved, dragged));
      if bar.x <= 0 {
        state := Stuck;
        lastHitCount := bar.hitCount;
        if lastHitCount > 0 {
          score := score + lastHitCount * lastHitCount;
        }
      }
      assert bar.Model() == after.bar && TargetModels() == after.targets;
      assert score == after.score && state == after.phase && lastHitCount == after.lastHitCount;
    }

    /** The "stuck" branch of Game.update. */
    method StuckFrame(click: bool, draws: seq<Draw>)
      requires forall i, j :: 0 <= i < j < |targets| ==> targets[i] != targets[j]
      requires |draws| == |targets| && forall i :: 0 <= i < |draws| ==> ValidDraw(draws[i])
      modifies this, bar, targets
      ensures Model() == StuckStep(old(Model()), old(TargetModels()), click, draws)
    {
      if click {
        ResetTurn(draws);
        state := Ready;
      }
    }

    /** Game.update: one frame, with the pointer height, the button press and the random draws as inputs. */
    method Update(pointerY: int, click: bool, draws: seq<Draw>)
      requires Valid() && ValidDraws(draws)
      modifies this, bar, targets
      ensures Valid()
      ensures Model() == GameStep(old(Model()), Input(pointerY, click, draws))
    {
      ghost var g := Model();
      StepTargets();
      if state == Ready {
        ReadyFrame(pointerY, click);
      } else if state == Firing {
        FiringFrame(pointerY);
      } else {
        StuckFrame(click, draws);
      }
      GameStepKeepsInv(g, Input(pointerY, click, draws));
    }
  }
}
