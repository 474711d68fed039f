/** Game.check_collision: which targets the bar skewers on one frame. */
module Collision {
  import opened Settings
  import opened Targets
  import opened Bars

  /** The target lies within the bar's horizontal extent (inclusive at both ends). */
  predicate XHit(b: BarState, t: TargetState) {
    b.x <= t.x <= b.x + b.length
  }

  /** The target's centre is strictly closer than HitToleranceY to the bar's height. */
  predicate YHit(b: BarState, t: TargetState) {
    RealAbs(b.y as real - t.y) < HitToleranceY as real
  }

  /** The bar newly skewers this target on this frame. */
  predicate Hits(b: BarState, t: TargetState) {
    !t.isHit && XHit(b, t) && YHit(b, t)
  }

  /** The effect of check_collision on one target. */
  function CollideTarget(b: BarState, t: TargetState): (r: TargetState)
    ensures t.isHit ==> r == t
    ensures !t.isHit ==> (r.isHit <==> XHit(b, t) && YHit(b, t))
    ensures t.isHit == t.isStuck ==> r.isHit == r.isStuck
    ensures r.isStuck == (t.isStuck || Hits(b, t))
    ensures r.(isHit := t.isHit, isStuck := t.isStuck) == t
  {
    if Hits(b, t) then t.(isHit := true, isStuck := true) else t
  }

  /** The effect of check_collision on the whole target list, in order. */
  function CollideAll(b: BarState, ts: seq<TargetState>): (r: seq<TargetState>)
    ensures |r| == |ts|
    ensures forall i :: 0 <= i < |ts| ==> r[i] == CollideTarget(b, ts[i])
  {
    seq(|ts|, i requires 0 <= i < |ts| => CollideTarget(b, ts[i]))
  }

  /** How many targets of ts the bar newly skewers: what check_collision adds to hit_count. */
  function CountHits(b: BarState, ts: seq<TargetState>): (n: nat)
    ensures n <= |ts|
  {
    if ts == [] then 0
    else CountHits(b, ts[..|ts| - 1]) + (if Hits(b, ts[|ts| - 1]) then 1 else 0)
  }

  /** How many targets of ts are marked hit. */
  function NumHit(ts: seq<TargetState>): (n: nat)
    ensures n <= |ts|
  {
    if ts == [] then 0
    else NumHit(ts[..|ts| - 1]) + (if ts[|ts| - 1].isHit then 1 else 0)
  }

  /** The hit count depends only on the hit flags. */
  lemma {:induction false} NumHitOfSameFlags(ts: seq<TargetState>, us: seq<TargetState>)
    requires |ts| == |us|
    requires forall i :: 0 <= i < |ts| ==> ts[i].isHit == us[i].isHit
    ensures NumHit(ts) == NumHit(us)
  {
    if ts != [] {
      NumHitOfSameFlags(ts[..|ts| - 1], us[..|us| - 1]);
    }
  }

  /** No target hit means a hit count of zero. */
  lemma {:induction false} NumHitNone(ts: seq<TargetState>)
    requires forall i :: 0 <= i < |ts| ==> !ts[i].isHit
    ensures NumHit(ts) == 0
  {
    if ts != [] {
      NumHitNone(ts[..|ts| - 1]);
    }
  }

  /** Only targets not yet hit can be counted, so a frame adds at most that many. */
  lemma {:induction false} CountHitsAtMostUnhit(b: BarState, ts: seq<TargetState>)
    ensures CountHits(b, ts) <= |ts| - NumHit(ts)
  {
    if ts != [] {
      CountHitsAtMostUnhit(b, ts[..|ts| - 1]);
    }
  }

  /** CollideAll commutes with dropping the last target. */
  lemma CollideAllPrefix(b: BarState, ts: seq<TargetState>)
    requires ts != []
    ensures CollideAll(b, ts)[..|ts| - 1] == CollideAll(b, ts[..|ts| - 1])
  {
  }

  /** hit_count rises by exactly the number of newly hit targets. */
  lemma {:induction false} CollideCountsNewHits(b: BarState, ts: seq<TargetState>)
    ensures NumHit(CollideAll(b, ts)) == NumHit(ts) + CountHits(b, ts)
  {
    if ts != [] {
      CollideAllPrefix(b, ts);
      CollideCountsNewHits(b, ts[..|ts| - 1]);
    }
  }

  /** A second check against the same bar finds nothing new: no target is counted twice. */
  lemma {:induction false} CollideIsIdempotent(b: BarState, ts: seq<TargetState>)
    ensures CollideAll(b, CollideAll(b, ts)) == CollideAll(b, ts)
    ensures CountHits(b, CollideAll(b, ts)) == 0
  {
    if ts != [] {
      CollideAllPrefix(b, ts);
      CollideIsIdempotent(b, ts[..|ts| - 1]);
    }
  }

  /** A height difference of exactly HitToleranceY is a miss. */
  lemma ToleranceIsStrict(b: BarState, t: TargetState)
    requires RealAbs(b.y as real - t.y) == HitToleranceY as real
    ensures CollideTarget(b, t) == t
  {
  }
}
