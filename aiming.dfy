/** The state-changing half of drawBullets, and shootBullet: promotion out of
    AIMING, the shrinking of exploded rockets, and firing in cursor order. */
module Aiming {
  import opened Entities
  import opened Movement

  /** The time from which the bullet at the cursor may fire. */
  function FireGate(cursor: nat): real
  {
    cursor as real * BulletTimer + StartWaitTime
  }

  /** The time from which an aiming sniper is promoted to WAITING. */
  function SniperGate(cursor: nat): real
  {
    cursor as real * BulletTimer + LineTimer + 0.2 + StartWaitTime
  }

  function Multiplier(b: Bullet): real
  {
    if b.isSniper then 3.0 else if b.isRocket then 0.5 else 1.0
  }

  /** shootBullet, velocity and state only: the aim vector taken once, scaled
      three times for a sniper, halved for a rocket, as is otherwise. */
  function Shoot(b: Bullet, aim: Vec): (r: Bullet)
    ensures r.state == Normal
    ensures b.isSniper ==> r.xSpeed == 3.0 * aim.x && r.ySpeed == 3.0 * aim.y
    ensures !b.isSniper && b.isRocket ==> r.xSpeed == aim.x / 2.0 && r.ySpeed == aim.y / 2.0
    ensures !b.isSniper && !b.isRocket ==> r.xSpeed == aim.x && r.ySpeed == aim.y
    ensures r == b.(xSpeed := r.xSpeed, ySpeed := r.ySpeed, state := Normal)
  {
    b.(xSpeed := aim.x * Multiplier(b), ySpeed := aim.y * Multiplier(b), state := Normal)
  }

  /** The two promotion tests of drawBullets on bullet i. The sniper test does not
      look at the index: every aiming sniper is promoted once the gate is passed. */
  function Promote(b: Bullet, i: nat, cursor: nat, t: real): (r: Bullet)
    ensures r == b || (b.state == Aiming && r == b.(state := Waiting))
    ensures b.state == Aiming ==>
      (r.state == Waiting <==> (!b.isSniper && i == cursor) || (b.isSniper && t >= SniperGate(cursor)))
  {
    var b1 := if !b.isSniper && b.state == Aiming && i == cursor then b.(state := Waiting) else b;
    if b1.isSniper && b1.state == Aiming && t >= SniperGate(cursor) then b1.(state := Waiting) else b1
  }

  /** The shrinking of an exploded rocket, three seconds after its timer. */
  function Shrink(b: Bullet, t: real): (r: Bullet)
    ensures b.state != Exploded ==> r == b
    ensures b.state == Exploded ==> r == b.(radius := r.radius, state := r.state)
    ensures b.state == Exploded ==> (r.state == Done <==> t - b.timer > 3.0 && b.radius <= 2.0)
    ensures r.radius == b.radius || r.radius == b.radius - 2.0
  {
    if b.state == Exploded && t - b.timer > 3.0 then
      var r := b.(radius := b.radius - 2.0);
      if r.radius <= 0.0 then r.(state := Done) else r
    else b
  }

  /** The bullet and the cursor after one iteration of drawBullets. */
  datatype Visit = Visit(bullet: Bullet, cursor: nat)

  /** One iteration of drawBullets on bullet i, with the cursor as it stands then. */
  function Advance(b: Bullet, i: nat, cursor: nat, t: real, aimAt: (Vec, Vec) -> Vec, target: Vec): (r: Visit)
    ensures r.cursor == cursor || (r.cursor == cursor + 1 && i == cursor && r.bullet.state == Normal)
    ensures PositionOf(r.bullet) == PositionOf(b)
    ensures r.bullet.isSniper == b.isSniper && r.bullet.isRocket == b.isRocket
  {
    var p := Shrink(Promote(b, i, cursor, t), t);
    if p.state == Waiting && t >= FireGate(cursor) && i == cursor then
      Visit(Shoot(p, aimAt(PositionOf(p), target)), cursor + 1)
    else
      Visit(p, cursor)
  }

  datatype Pass = Pass(bullets: seq<Bullet>, cursor: nat)

  /** drawBullets from index i on: each bullet is advanced with the cursor left by
      the bullets before it. */
  function DrawPass(s: seq<Bullet>, i: nat, cursor: nat, t: real, aimAt: (Vec, Vec) -> Vec, target: Vec): (r: Pass)
    requires i <= |s|
    ensures |r.bullets| == |s|
    ensures cursor <= |s| ==> cursor <= r.cursor <= |s|
    decreases |s| - i
  {
    if i == |s| then Pass(s, cursor)
    else
      var st := Advance(s[i], i, cursor, t, aimAt, target);
      DrawPass(s[i := st.bullet], i + 1, st.cursor, t, aimAt, target)
  }

  /** Firing: the cursor moves by exactly one, and only when the bullet at the
      cursor was unfired, has passed its gates and is now NORMAL with the scaled
      aim vector as velocity. */
  lemma AdvanceFires(b: Bullet, i: nat, c: nat, t: real, aimAt: (Vec, Vec) -> Vec, target: Vec)
    ensures var r := Advance(b, i, c, t, aimAt, target);
      && (r.cursor == c || r.cursor == c + 1)
      && (r.cursor == c + 1 <==>
            i == c && Unfired(b) && t >= FireGate(c) &&
            (b.state == Waiting || !b.isSniper || t >= SniperGate(c)))
      && (r.cursor == c + 1 ==>
            r.bullet == Shoot(b, aimAt(PositionOf(b), target)))
  {
  }

  /** Promotion out of AIMING: a non-sniper only at the cursor, a sniper at any
      index once the sniper gate of the current cursor is passed. */
  lemma AdvancePromotes(b: Bullet, i: nat, c: nat, t: real, aimAt: (Vec, Vec) -> Vec, target: Vec)
    requires b.state == Aiming
    ensures var r := Advance(b, i, c, t, aimAt, target);
      r.bullet.state != Aiming <==> (i == c && !b.isSniper) || (b.isSniper && t >= SniperGate(c))
  {
  }

  /** Exploded rockets keep their radius until three seconds after the timer,
      then lose 2 per pass and are DONE on the pass the radius reaches 0 or less. */
  lemma AdvanceShrinks(b: Bullet, i: nat, c: nat, t: real, aimAt: (Vec, Vec) -> Vec, target: Vec)
    requires b.state == Exploded
    ensures var r := Advance(b, i, c, t, aimAt, target);
      && r.cursor == c
      && (t - b.timer <= 3.0 ==> r.bullet == b)
      && (t - b.timer > 3.0 ==>
            r.bullet == b.(radius := b.radius - 2.0,
                           state := if b.radius - 2.0 <= 0.0 then Done else Exploded))
  {
  }

  /** Advancing one bullet moves its state forward only and keeps the
      firing-cursor invariant of the whole array. */
  lemma AdvanceKeepsRound(s: seq<Bullet>, i: nat, c: nat, t: real, aimAt: (Vec, Vec) -> Vec, target: Vec)
    requires i < |s| && RoundInvariant(s, c)
    ensures var r := Advance(s[i], i, c, t, aimAt, target);
      && Forward(s[i].state, r.bullet.state)
      && RoundInvariant(s[i := r.bullet], r.cursor)
  {
    var r := Advance(s[i], i, c, t, aimAt, target);
    AdvanceFires(s[i], i, c, t, aimAt, target);
    var s' := s[i := r.bullet];
    if r.cursor == c + 1 {
      assert s'[c].state == Normal;
    }
    assert forall k :: 0 <= k < |s'| && k != i ==> s'[k] == s[k];
  }

  /** Bullets before the starting index are not touched by the rest of the pass. */
  lemma {:induction false} DrawPassPrefix(s: seq<Bullet>, i: nat, c: nat, t: real, aimAt: (Vec, Vec) -> Vec, target: Vec)
    requires i <= |s|
    ensures forall k :: 0 <= k < i ==> DrawPass(s, i, c, t, aimAt, target).bullets[k] == s[k]
    decreases |s| - i
  {
    if i < |s| {
      var st := Advance(s[i], i, c, t, aimAt, target);
      DrawPassPrefix(s[i := st.bullet], i + 1, st.cursor, t, aimAt, target);
    }
  }

  /** A pass of drawBullets keeps the firing-cursor invariant, never moves the
      cursor back, and moves every bullet's state forward only. */
  lemma {:induction false} DrawPassKeepsRound(s: seq<Bullet>, i: nat, c: nat, t: real, aimAt: (Vec, Vec) -> Vec, target: Vec)
    requires i <= |s| && RoundInvariant(s, c)
    ensures var r := DrawPass(s, i, c, t, aimAt, target);
      && RoundInvariant(r.bullets, r.cursor)
      && c <= r.cursor <= |s|
      && forall k :: 0 <= k < |s| ==> Forward(s[k].state, r.bullets[k].state)
    decreases |s| - i
  {
    if i < |s| {
      var st := Advance(s[i], i, c, t, aimAt, target);
      var s' := s[i := st.bullet];
      AdvanceKeepsRound(s, i, c, t, aimAt, target);
      AdvanceFires(s[i], i, c, t, aimAt, target);
      DrawPassKeepsRound(s', i + 1, st.cursor, t, aimAt, target);
      var r := DrawPass(s', i + 1, st.cursor, t, aimAt, target);
      forall k | 0 <= k < |s|
        ensures Forward(s[k].state, r.bullets[k].state)
      {
        assert Forward(s[k].state, s'[k].state);
      }
    }
  }

  /** Before the fire gate of the cursor nothing fires: the cursor stays and no
      unfired bullet leaves the unfired states. */
  lemma {:induction false} DrawPassBeforeGate(s: seq<Bullet>, i: nat, c: nat, t: real, aimAt: (Vec, Vec) -> Vec, target: Vec)
    requires i <= |s| && t < FireGate(c)
    ensures var r := DrawPass(s, i, c, t, aimAt, target);
      && r.cursor == c
      && forall k :: 0 <= k < |s| && Unfired(s[k]) ==> Unfired(r.bullets[k])
    decreases |s| - i
  {
    if i < |s| {
      var st := Advance(s[i], i, c, t, aimAt, target);
      AdvanceFires(s[i], i, c, t, aimAt, target);
      DrawPassBeforeGate(s[i := st.bullet], i + 1, st.cursor, t, aimAt, target);
    }
  }

  /** Firing is strictly in index order: the bullets between the old and the new
      cursor are exactly those fired in this pass, each once, at or after the
      starting index; a cursor already behind the starting index never moves. */
  lemma {:induction false} DrawPassFiresInOrder(s: seq<Bullet>, i: nat, c: nat, t: real, aimAt: (Vec, Vec) -> Vec, target: Vec)
    requires i <= |s| && c <= |s|
    ensures var r := DrawPass(s, i, c, t, aimAt, target);
      && c <= r.cursor <= |s|
      && (c < i ==> r.cursor == c)
      && forall k :: c <= k < r.cursor ==>
           Unfired(s[k]) && r.bullets[k] == Shoot(s[k], aimAt(PositionOf(s[k]), target))
    decreases |s| - i
  {
    if i < |s| {
      var st := Advance(s[i], i, c, t, aimAt, target);
      var s' := s[i := st.bullet];
      AdvanceFires(s[i], i, c, t, aimAt, target);
      DrawPassFiresInOrder(s', i + 1, st.cursor, t, aimAt, target);
      DrawPassPrefix(s', i + 1, st.cursor, t, aimAt, target);
      var r := DrawPass(s', i + 1, st.cursor, t, aimAt, target);
      assert DrawPass(s, i, c, t, aimAt, target) == r;
      forall k | c <= k < r.cursor
        ensures Unfired(s[k])
        ensures r.bullets[k] == Shoot(s[k], aimAt(PositionOf(s[k]), target))
      {
        if k == i {
          assert st.cursor == c + 1;
          assert r.bullets[k] == s'[k] == st.bullet;
        } else {
          assert s'[k] == s[k];
        }
      }
    }
  }

  /** The bullet at cursor c may fire at time t: it is unfired, the fire gate is
      passed and, unless it is already WAITING or not a sniper, so is the sniper gate. */
  predicate CanFire(b: Bullet, c: nat, t: real)
  {
    Unfired(b) && t >= FireGate(c) && (b.state == Waiting || !b.isSniper || t >= SniperGate(c))
  }

  /** A pass entered at or before the cursor stops only at a bullet that cannot
      fire: with FiresInOrder, the fired bullets are exactly those the cursor runs
      over, and firing cascades as far as the gates allow. */
  lemma {:induction false} DrawPassStops(s: seq<Bullet>, i: nat, c: nat, t: real, aimAt: (Vec, Vec) -> Vec, target: Vec)
    requires i <= |s| && RoundInvariant(s, c) && i <= c
    ensures var r := DrawPass(s, i, c, t, aimAt, target);
      r.cursor < |s| ==> !CanFire(s[r.cursor], r.cursor, t)
    decreases |s| - i
  {
    if i < |s| {
      var st := Advance(s[i], i, c, t, aimAt, target);
      var s' := s[i := st.bullet];
      AdvanceFires(s[i], i, c, t, aimAt, target);
      AdvanceKeepsRound(s, i, c, t, aimAt, target);
      assert DrawPass(s, i, c, t, aimAt, target) == DrawPass(s', i + 1, st.cursor, t, aimAt, target);
      if st.cursor == c + 1 || i < c {
        DrawPassStops(s', i + 1, st.cursor, t, aimAt, target);
      } else {
        DrawPassFiresInOrder(s', i + 1, c, t, aimAt, target);
      }
    }
  }

  /** Every bullet the cursor runs over in a pass entered at or before the cursor
      was able to fire at its own turn: the converse of DrawPassStops. */
  lemma {:induction false} DrawPassFiresOnlyAble(s: seq<Bullet>, i: nat, c: nat, t: real,
                                                 aimAt: (Vec, Vec) -> Vec, target: Vec)
    requires i <= c <= |s|
    ensures var r := DrawPass(s, i, c, t, aimAt, target);
      forall k :: c <= k < r.cursor ==> CanFire(s[k], k, t)
    decreases |s| - i
  {
    if i < |s| {
      var st := Advance(s[i], i, c, t, aimAt, target);
      var s' := s[i := st.bullet];
      AdvanceFires(s[i], i, c, t, aimAt, target);
      assert DrawPass(s, i, c, t, aimAt, target) == DrawPass(s', i + 1, st.cursor, t, aimAt, target);
      if st.cursor == c + 1 || i < c {
        DrawPassFiresOnlyAble(s', i + 1, st.cursor, t, aimAt, target);
        assert forall k :: i < k < |s| ==> s'[k] == s[k];
      } else {
        DrawPassFiresInOrder(s', i + 1, c, t, aimAt, target);
      }
    }
  }

  /** An EXPLODED rocket not yet visited ends the pass as Shrink of itself: it loses
      exactly 2 of radius in each pass once its delay is over. */
  lemma {:induction false} DrawPassShrinks(s: seq<Bullet>, i: nat, c: nat, t: real,
                                           aimAt: (Vec, Vec) -> Vec, target: Vec, k: nat)
    requires i <= k < |s| && s[k].state == Exploded
    ensures DrawPass(s, i, c, t, aimAt, target).bullets[k] == Shrink(s[k], t)
    decreases |s| - i
  {
    var st := Advance(s[i], i, c, t, aimAt, target);
    var s' := s[i := st.bullet];
    assert DrawPass(s, i, c, t, aimAt, target) == DrawPass(s', i + 1, st.cursor, t, aimAt, target);
    if i == k {
      AdvanceShrinks(s[k], k, c, t, aimAt, target);
      DrawPassPrefix(s', i + 1, st.cursor, t, aimAt, target);
    } else {
      DrawPassShrinks(s', i + 1, st.cursor, t, aimAt, target, k);
    }
  }

  /** Within one pass, firing the bullet at index 0 lets the plain bullet at
      index 1 be promoted and fired in the same pass. */
  lemma CascadeInOnePass(aimAt: (Vec, Vec) -> Vec, target: Vec)
    ensures var b := Bullet(20.0, 20.0, 0.0, 0.0, 10.0, false, false, MaxSpeed, Aiming, 0.0);
      DrawPass([b, b], 0, 0, 3.6, aimAt, target).cursor == 2
  {
    var b := Bullet(20.0, 20.0, 0.0, 0.0, 10.0, false, false, MaxSpeed, Aiming, 0.0);
    var st0 := Advance(b, 0, 0, 3.6, aimAt, target);
    assert st0.cursor == 1;
    var st1 := Advance(b, 1, 1, 3.6, aimAt, target);
    assert st1.cursor == 2;
    var s1 := [b, b][0 := st0.bullet];
    assert DrawPass([b, b], 0, 0, 3.6, aimAt, target) == DrawPass(s1, 1, 1, 3.6, aimAt, target);
    assert s1[1] == b;
    assert DrawPass(s1, 1, 1, 3.6, aimAt, target) == DrawPass(s1[1 := st1.bullet], 2, 2, 3.6, aimAt, target);
  }

  /** The bullets after the cursor a pass ends with are left as they were. The
      sniper test in drawBullets does not compare the index with the cursor, but
      the cursor stops on a bullet only while the clock is before that cursor's
      sniper gate, so no sniper further on is promoted early. The pass is entered
      with the cursor at or after index i, or stopped before it. */
  lemma {:induction false} DrawPassLeavesQueue(s: seq<Bullet>, i: nat, c: nat, t: real,
                                               aimAt: (Vec, Vec) -> Vec, target: Vec)
    requires i <= |s| && RoundInvariant(s, c)
    requires c < i ==> t < SniperGate(c)
    ensures var r := DrawPass(s, i, c, t, aimAt, target);
      forall k :: i <= k < |s| && r.cursor < k ==> r.bullets[k] == s[k]
    decreases |s| - i
  {
    if i < |s| {
      var st := Advance(s[i], i, c, t, aimAt, target);
      var s' := s[i := st.bullet];
      AdvanceKeepsRound(s, i, c, t, aimAt, target);
      AdvanceFires(s[i], i, c, t, aimAt, target);
      DrawPassLeavesQueue(s', i + 1, st.cursor, t, aimAt, target);
      DrawPassFiresInOrder(s', i + 1, st.cursor, t, aimAt, target);
      DrawPassPrefix(s', i + 1, st.cursor, t, aimAt, target);
      if c < i {
        assert st.bullet == s[i];
      }
    }
  }

  /** The drawBullets pass of a frame: the bullets after the cursor it ends with
      are unchanged, so only the bullet at the cursor leaves AIMING or fires. */
  lemma DrawPassOnlyAtCursor(s: seq<Bullet>, c: nat, t: real, aimAt: (Vec, Vec) -> Vec, target: Vec)
    requires RoundInvariant(s, c)
    ensures var r := DrawPass(s, 0, c, t, aimAt, target);
      forall k :: r.cursor < k < |s| ==> r.bullets[k] == s[k]
  {
    DrawPassLeavesQueue(s, 0, c, t, aimAt, target);
  }
}
