/** moveBullets as a function on bullet values: fired bullets move along their
    velocity and are retired once they lie beyond the radius-padded screen. */
module Movement {
  import opened Entities

  /** bulletHitLeftRight: the disc lies wholly left of x = 0 or wholly right of x = WIDTH. */
  function HitLeftRight(b: Bullet): (r: bool)
    ensures r <==> b.x + b.radius <= 0.0 || Width <= b.x - b.radius
    ensures b.radius >= 0.0 ==> (r ==> b.x <= 0.0 || Width <= b.x)
  {
    b.x <= -b.radius || b.x >= Width + b.radius
  }

  /** bulletHitTopBottom: the disc lies wholly above y = 0 or wholly below y = HEIGHT. */
  function HitTopBottom(b: Bullet): (r: bool)
    ensures r <==> b.y + b.radius <= 0.0 || Height <= b.y - b.radius
    ensures b.radius >= 0.0 ==> (r ==> b.y <= 0.0 || Height <= b.y)
  {
    b.y <= -b.radius || b.y >= Height + b.radius
  }

  /** The retirement test on a position and radius, stated on its own. */
  predicate OffScreen(x: real, y: real, r: real)
  {
    x <= -r || x >= Width + r || y <= -r || y >= Height + r
  }

  /** Bullets that moveBullets skips. */
  predicate Resting(b: Bullet)
  {
    b.state == Done || b.state == Waiting || b.state == Aiming
  }

  /** One iteration of moveBullets on one bullet: bulletMove, then the two
      boundary tests, each of which may retire it. */
  function MoveOne(b: Bullet, dt: real): (r: Bullet)
    ensures Resting(b) ==> r == b
    ensures !Resting(b) ==>
      && r.x == b.x + b.xSpeed * b.speed * dt
      && r.y == b.y + b.ySpeed * b.speed * dt
      && r == b.(x := r.x, y := r.y, state := r.state)
      && (r.state == Done <==> OffScreen(r.x, r.y, r.radius))
      && (r.state != Done ==> r.state == b.state)
  {
    if Resting(b) then b
    else
      var m := b.(x := b.x + b.xSpeed * b.speed * dt, y := b.y + b.ySpeed * b.speed * dt);
      var m1 := if HitLeftRight(m) then m.(state := Done) else m;
      if HitTopBottom(m1) then m1.(state := Done) else m1
  }

  /** moveBullets over the whole array. */
  function MoveAll(s: seq<Bullet>, dt: real): (r: seq<Bullet>)
    ensures |r| == |s|
  {
    seq(|s|, k requires 0 <= k < |s| => MoveOne(s[k], dt))
  }

  /** Reachability in the bullet state diagram AIMING to WAITING to NORMAL,
      NORMAL to EXPLODED, NORMAL or EXPLODED to DONE: every state reaches itself
      and whatever lies further along those edges. */
  predicate Forward(from: BulletState, to: BulletState)
  {
    match from
    case Aiming => true
    case Waiting => to != Aiming
    case Normal => to == Normal || to == Exploded || to == Done
    case Exploded => to == Exploded || to == Done
    case Done => to == Done
  }

  /** moveBullets only moves states forward, leaves the cursor invariant intact,
      and never touches a resting bullet. */
  lemma MoveAllKeepsRound(s: seq<Bullet>, cursor: nat, dt: real)
    requires RoundInvariant(s, cursor)
    ensures RoundInvariant(MoveAll(s, dt), cursor)
    ensures forall k :: 0 <= k < |s| ==> Forward(s[k].state, MoveAll(s, dt)[k].state)
    ensures forall k :: 0 <= k < |s| && Resting(s[k]) ==> MoveAll(s, dt)[k] == s[k]
  {
    var r := MoveAll(s, dt);
    forall k | 0 <= k < |s|
      ensures Forward(s[k].state, r[k].state)
      ensures Fired(s[k]) ==> Fired(r[k])
      ensures Unfired(s[k]) ==> r[k] == s[k]
      ensures r[k].isSniper == s[k].isSniper && r[k].isRocket == s[k].isRocket
    {
      assert r[k] == MoveOne(s[k], dt);
    }
  }

  /** A bullet in flight that crosses a boundary is DONE after the same call,
      and one that stays on screen keeps its state. */
  lemma RetiredIffOffScreen(s: seq<Bullet>, dt: real, k: nat)
    requires k < |s| && (s[k].state == Normal || s[k].state == Exploded)
    ensures var b := MoveAll(s, dt)[k];
      (b.state == Done <==> OffScreen(b.x, b.y, b.radius)) &&
      (b.state != Done ==> b.state == s[k].state)
  {
    assert MoveAll(s, dt)[k] == MoveOne(s[k], dt);
  }
}
