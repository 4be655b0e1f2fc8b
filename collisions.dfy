/** checkForCollisions as functions on bullet values: player hits end the game,
    a non-rocket meeting a live rocket explodes it, and the round is over when
    every bullet is DONE. */
module Collisions {
  import opened Entities

  const ExplodedRadius: real := 60.0

  /** The explosion of a rocket at time t: radius 60, at rest, timer set. */
  function Explode(b: Bullet, t: real): (r: Bullet)
    ensures r.state == Exploded && r.radius == ExplodedRadius && r.timer == t
    ensures r.xSpeed == 0.0 && r.ySpeed == 0.0
    ensures PositionOf(r) == PositionOf(b)
    ensures r.isRocket == b.isRocket && r.isSniper == b.isSniper && r.speed == b.speed
  {
    b.(radius := ExplodedRadius, xSpeed := 0.0, ySpeed := 0.0, timer := t, state := Exploded)
  }

  /** Bullet b sets off bullet b2: b2 is a rocket not yet EXPLODED (a DONE rocket
      included), the two meet, and b is not a rocket. The source's extra test
      `c != b2` reads a hoisted variable that is still undefined, so it always holds. */
  function SetsOff(b: Bullet, b2: Bullet, meets: (Disc, Disc) -> bool): (r: bool)
    ensures r ==> b != b2 && !b.isRocket && b2.isRocket
    ensures b2.state == Exploded ==> !r
  {
    b2.isRocket && b2.state != Exploded && meets(DiscOf(b), DiscOf(b2)) && !b.isRocket
  }

  /** The inner loop of checkForCollisions for outer bullet i, from inner index j on. */
  function RocketPass(s: seq<Bullet>, i: nat, j: nat, c: nat, t: real, meets: (Disc, Disc) -> bool): (r: seq<Bullet>)
    requires i < |s| && j <= c <= |s|
    ensures |r| == |s|
    decreases c - j
  {
    if j == c then s
    else
      var s' := if SetsOff(s[i], s[j], meets)
                then s[j := Explode(s[j], t)][i := s[i].(state := Done)]
                else s;
      RocketPass(s', i, j + 1, c, t, meets)
  }

  datatype Outcome = Outcome(bullets: seq<Bullet>, phase: Phase)

  /** The outer loop of checkForCollisions from index i on, over the fired bullets. */
  function HitPass(s: seq<Bullet>, i: nat, c: nat, phase: Phase, t: real, player: Disc,
                   meets: (Disc, Disc) -> bool): (r: Outcome)
    requires i <= c <= |s|
    ensures |r.bullets| == |s|
    decreases c - i
  {
    if i == c then Outcome(s, phase)
    else if s[i].state == Done then HitPass(s, i + 1, c, phase, t, player, meets)
    else
      var ph := if meets(DiscOf(s[i]), player) then End else phase;
      HitPass(RocketPass(s, i, 0, c, t, meets), i + 1, c, ph, t, player, meets)
  }

  predicate AllDone(s: seq<Bullet>)
  {
    forall k :: 0 <= k < |s| ==> s[k].state == Done
  }

  /** checkForCollisions: nothing outside DEFAULT; otherwise the hit pass, then the
      round-over scan, which overrides the phase when every bullet is DONE. */
  function Collide(s: seq<Bullet>, c: nat, phase: Phase, t: real, player: Disc,
                   meets: (Disc, Disc) -> bool): (r: Outcome)
    requires c <= |s|
    ensures |r.bullets| == |s|
  {
    if phase != Default then Outcome(s, phase)
    else
      var o := HitPass(s, 0, c, phase, t, player, meets);
      if AllDone(o.bullets) then Outcome(o.bullets, RoundOver) else o
  }

  /** What a collision check may do to one bullet: nothing, explode a live rocket,
      or retire a non-rocket. */
  predicate Collided(before: Bullet, after: Bullet, t: real)
  {
    || after == before
    || (before.isRocket && before.state != Exploded && after == Explode(before, t))
    || (!before.isRocket && after == before.(state := Done))
  }

  /** One inner pass changes only rockets (by exploding them) and the outer bullet
      (by retiring it), leaves the unfired bullets alone, and never makes every
      bullet DONE: each retirement comes with an explosion. */
  lemma {:induction false} RocketPassEffect(s: seq<Bullet>, i: nat, j: nat, c: nat, t: real, meets: (Disc, Disc) -> bool)
    requires i < c <= |s| && j <= c
    ensures var r := RocketPass(s, i, j, c, t, meets);
      && (forall k :: 0 <= k < |s| ==> Collided(s[k], r[k], t))
      && (forall k :: 0 <= k < |s| && k != i && !s[k].isRocket ==> r[k] == s[k])
      && (forall k :: c <= k < |s| ==> r[k] == s[k])
      && (!AllDone(s) ==> !AllDone(r))
    decreases c - j
  {
    if j < c {
      var s' := if SetsOff(s[i], s[j], meets)
                then s[j := Explode(s[j], t)][i := s[i].(state := Done)]
                else s;
      RocketPassEffect(s', i, j + 1, c, t, meets);
      if SetsOff(s[i], s[j], meets) {
        assert s'[j].state == Exploded;
      }
    }
  }

  /** The outer pass: the phase stays or becomes END, every bullet changes only as
      a collision may change it, unfired bullets are untouched, and a bullet left
      not DONE keeps the array from being all DONE. */
  lemma {:induction false} HitPassEffect(s: seq<Bullet>, i: nat, c: nat, phase: Phase, t: real, player: Disc,
                                         meets: (Disc, Disc) -> bool)
    requires i <= c <= |s|
    ensures var r := HitPass(s, i, c, phase, t, player, meets);
      && (r.phase == phase || r.phase == End)
      && (forall k :: 0 <= k < |s| ==> Collided(s[k], r.bullets[k], t))
      && (forall k :: c <= k < |s| ==> r.bullets[k] == s[k])
      && (!AllDone(s) ==> !AllDone(r.bullets))
    decreases c - i
  {
    if i < c && s[i].state != Done {
      var ph := if meets(DiscOf(s[i]), player) then End else phase;
      var s' := RocketPass(s, i, 0, c, t, meets);
      RocketPassEffect(s, i, 0, c, t, meets);
      HitPassEffect(s', i + 1, c, ph, t, player, meets);
    } else if i < c {
      HitPassEffect(s, i + 1, c, phase, t, player, meets);
    }
  }

  /** The intersection test is monotone in the radius of its first circle, as a
      test of overlapping circles is: a larger circle at the same centre still
      meets the player. */
  ghost predicate GrowsWithRadius(meets: (Disc, Disc) -> bool, player: Disc)
  {
    forall x: real, y: real, r: real, r': real ::
      r <= r' && meets(Disc(x, y, r), player) ==> meets(Disc(x, y, r'), player)
  }

  /** Bullet b, as it stands before the check, certainly ends the game when its
      turn comes: it is not DONE and meets the player, and it is not a live rocket,
      or it is one whose explosion (radius 60) keeps it on the player. */
  ghost predicate HitsPlayer(b: Bullet, player: Disc, meets: (Disc, Disc) -> bool)
  {
    && b.state != Done && meets(DiscOf(b), player)
    && (!b.isRocket || b.state == Exploded || (b.radius <= ExplodedRadius && GrowsWithRadius(meets, player)))
  }

  /** A fired bullet that is not DONE and meets the player at its turn ends the
      game: non-rockets and EXPLODED rockets are not changed before their turn, a
      live rocket exploded before its turn still meets the player when the test
      is monotone, and once END is set the round cannot be over in the same check. */
  lemma {:induction false} HitPassEnds(s: seq<Bullet>, i: nat, c: nat, phase: Phase, t: real, player: Disc,
                                       meets: (Disc, Disc) -> bool, hit: nat)
    requires i <= hit < c <= |s|
    requires HitsPlayer(s[hit], player, meets)
    ensures var r := HitPass(s, i, c, phase, t, player, meets);
      r.phase == End && !AllDone(r.bullets)
    decreases c - i
  {
    if s[i].state == Done {
      HitPassEnds(s, i + 1, c, phase, t, player, meets, hit);
    } else {
      var ph := if meets(DiscOf(s[i]), player) then End else phase;
      var s' := RocketPass(s, i, 0, c, t, meets);
      RocketPassEffect(s, i, 0, c, t, meets);
      if i == hit {
        assert !AllDone(s);
        HitPassEffect(s', i + 1, c, ph, t, player, meets);
      } else {
        if s'[hit] != s[hit] {
          assert s'[hit] == Explode(s[hit], t);
          assert meets(Disc(s[hit].x, s[hit].y, s[hit].radius), player);
          assert meets(Disc(s[hit].x, s[hit].y, ExplodedRadius), player);
          assert DiscOf(s'[hit]) == Disc(s[hit].x, s[hit].y, ExplodedRadius);
        }
        HitPassEnds(s', i + 1, c, ph, t, player, meets, hit);
      }
    }
  }

  /** In the inner pass of outer bullet i, a live rocket j that the outer bullet
      meets is exploded and the outer bullet retired, whatever the pass did
      before reaching j. */
  lemma {:induction false} RocketPassHits(s: seq<Bullet>, i: nat, j0: nat, c: nat, t: real,
                                          meets: (Disc, Disc) -> bool, j: nat)
    requires i < c <= |s| && j0 <= j < c
    requires SetsOff(s[i], s[j], meets)
    ensures var r := RocketPass(s, i, j0, c, t, meets);
      r[j] == Explode(s[j], t) && r[i].state == Done
    decreases c - j0
  {
    var s' := if SetsOff(s[i], s[j0], meets)
              then s[j0 := Explode(s[j0], t)][i := s[i].(state := Done)]
              else s;
    if j0 == j {
      RocketPassEffect(s', i, j0 + 1, c, t, meets);
    } else {
      assert s'[j] == s[j] && DiscOf(s'[i]) == DiscOf(s[i]) && !s'[i].isRocket;
      RocketPassHits(s', i, j0 + 1, c, t, meets, j);
    }
  }

  /** In the inner pass of outer bullet i, a bullet j that the outer bullet does
      not set off (the outer bullet itself included, when it is a rocket) is left
      as it was. */
  lemma {:induction false} RocketPassMisses(s: seq<Bullet>, i: nat, j0: nat, c: nat, t: real,
                                            meets: (Disc, Disc) -> bool, j: nat)
    requires i < c <= |s| && j0 <= c && j < |s| && (j != i || s[i].isRocket)
    requires !SetsOff(s[i], s[j], meets)
    ensures RocketPass(s, i, j0, c, t, meets)[j] == s[j]
    decreases c - j0
  {
    if j0 < c {
      var s' := if SetsOff(s[i], s[j0], meets)
                then s[j0 := Explode(s[j0], t)][i := s[i].(state := Done)]
                else s;
      assert s'[j] == s[j] && DiscOf(s'[i]) == DiscOf(s[i]) && s'[i].isRocket == s[i].isRocket;
      RocketPassMisses(s', i, j0 + 1, c, t, meets, j);
    }
  }

  /** A fired plain bullet i that is not DONE and meets a fired rocket j leaves j
      EXPLODED at the end of the outer pass: either j was set off earlier (and an
      EXPLODED rocket stays so), or bullet i sets it off at its own turn. */
  lemma {:induction false} HitPassExplodes(s: seq<Bullet>, i0: nat, c: nat, phase: Phase, t: real, player: Disc,
                                           meets: (Disc, Disc) -> bool, i: nat, j: nat)
    requires i0 <= i < c <= |s| && j < c
    requires !s[i].isRocket && s[i].state != Done && s[j].isRocket
    requires s[j].state == Exploded || meets(DiscOf(s[i]), DiscOf(s[j]))
    ensures HitPass(s, i0, c, phase, t, player, meets).bullets[j].state == Exploded
    decreases c - i0
  {
    if s[j].state == Exploded {
      HitPassEffect(s, i0, c, phase, t, player, meets);
    } else if s[i0].state == Done {
      HitPassExplodes(s, i0 + 1, c, phase, t, player, meets, i, j);
    } else {
      var ph := if meets(DiscOf(s[i0]), player) then End else phase;
      var s' := RocketPass(s, i0, 0, c, t, meets);
      RocketPassEffect(s, i0, 0, c, t, meets);
      if i0 == i {
        RocketPassHits(s, i, 0, c, t, meets, j);
        HitPassEffect(s', i + 1, c, ph, t, player, meets);
      } else {
        assert s'[i] == s[i];
        HitPassExplodes(s', i0 + 1, c, ph, t, player, meets, i, j);
      }
    }
  }

  /** When no plain bullet fired before i meets the live rocket j, bullet i is the
      one that sets it off: the rocket ends the pass as Explode(s[j], t) and
      bullet i ends it DONE. */
  lemma {:induction false} HitPassFirstHit(s: seq<Bullet>, i0: nat, c: nat, phase: Phase, t: real, player: Disc,
                                           meets: (Disc, Disc) -> bool, i: nat, j: nat)
    requires i0 <= i < c <= |s| && j < c
    requires s[i].state != Done && SetsOff(s[i], s[j], meets)
    requires forall k :: i0 <= k < i && s[k].state != Done ==> !SetsOff(s[k], s[j], meets)
    ensures var r := HitPass(s, i0, c, phase, t, player, meets).bullets;
      r[j] == Explode(s[j], t) && r[i].state == Done
    decreases c - i0
  {
    if s[i0].state == Done {
      HitPassFirstHit(s, i0 + 1, c, phase, t, player, meets, i, j);
    } else {
      var ph := if meets(DiscOf(s[i0]), player) then End else phase;
      var s' := RocketPass(s, i0, 0, c, t, meets);
      RocketPassEffect(s, i0, 0, c, t, meets);
      if i0 == i {
        RocketPassHits(s, i, 0, c, t, meets, j);
        HitPassEffect(s', i + 1, c, ph, t, player, meets);
        assert Collided(s'[i], HitPass(s', i + 1, c, ph, t, player, meets).bullets[i], t);
      } else {
        RocketPassMisses(s, i0, 0, c, t, meets, j);
        assert s'[i] == s[i] && s'[j] == s[j];
        forall k | i0 + 1 <= k < i && s'[k].state != Done
          ensures !SetsOff(s'[k], s'[j], meets)
        {
          if !s[k].isRocket {
            assert s'[k] == s[k];
          }
        }
        HitPassFirstHit(s', i0 + 1, c, ph, t, player, meets, i, j);
      }
    }
  }

  /** Whether bullet b, as it stood before the check, can be the one that hit the
      player: not DONE and meeting it, or a rocket meeting it once exploded. */
  predicate MayHitPlayer(b: Bullet, t: real, player: Disc, meets: (Disc, Disc) -> bool)
  {
    || (b.state != Done && meets(DiscOf(b), player))
    || (b.isRocket && meets(DiscOf(Explode(b, t)), player))
  }

  lemma CollidedTrans(a: Bullet, b: Bullet, d: Bullet, t: real)
    requires Collided(a, b, t) && Collided(b, d, t)
    ensures Collided(a, d, t)
  {
  }

  /** END is only set by a bullet that could have met the player. */
  lemma {:induction false} HitPassEndWitness(s0: seq<Bullet>, s: seq<Bullet>, i: nat, c: nat, phase: Phase, t: real,
                                             player: Disc, meets: (Disc, Disc) -> bool)
    requires i <= c <= |s| == |s0|
    requires forall k :: i <= k < c ==> Collided(s0[k], s[k], t)
    requires phase != End
    ensures HitPass(s, i, c, phase, t, player, meets).phase == End ==>
      exists k :: i <= k < c && MayHitPlayer(s0[k], t, player, meets)
    decreases c - i
  {
    if i < c {
      if s[i].state == Done {
        HitPassEndWitness(s0, s, i + 1, c, phase, t, player, meets);
      } else if meets(DiscOf(s[i]), player) {
        assert MayHitPlayer(s0[i], t, player, meets);
      } else {
        var s' := RocketPass(s, i, 0, c, t, meets);
        RocketPassEffect(s, i, 0, c, t, meets);
        forall k | i + 1 <= k < c
          ensures Collided(s0[k], s'[k], t)
        {
          CollidedTrans(s0[k], s[k], s'[k], t);
        }
        HitPassEndWitness(s0, s', i + 1, c, phase, t, player, meets);
      }
    }
  }

  /** checkForCollisions changes nothing outside DEFAULT; in DEFAULT the phase
      becomes ROUND_OVER exactly when every bullet is DONE afterwards (vacuously
      so for no bullets), and otherwise stays DEFAULT or becomes END. */
  lemma CollidePhase(s: seq<Bullet>, c: nat, phase: Phase, t: real, player: Disc, meets: (Disc, Disc) -> bool)
    requires c <= |s|
    ensures var r := Collide(s, c, phase, t, player, meets);
      && (phase != Default ==> r == Outcome(s, phase))
      && (phase == Default ==> (r.phase == RoundOver <==> AllDone(r.bullets)))
      && (phase == Default ==> r.phase in {Default, End, RoundOver})
  {
    if phase == Default {
      HitPassEffect(s, 0, c, phase, t, player, meets);
    }
  }

  /** In DEFAULT, a fired bullet that certainly hits the player (HitsPlayer) sets
      END; and END is only ever set by a fired bullet that could have met the
      player. */
  lemma CollideEnds(s: seq<Bullet>, c: nat, t: real, player: Disc, meets: (Disc, Disc) -> bool)
    requires c <= |s|
    ensures var r := Collide(s, c, Default, t, player, meets);
      && ((exists k :: 0 <= k < c && HitsPlayer(s[k], player, meets)) ==> r.phase == End)
      && (r.phase == End ==> exists k :: 0 <= k < c && MayHitPlayer(s[k], t, player, meets))
  {
    var o := HitPass(s, 0, c, Default, t, player, meets);
    if exists k :: 0 <= k < c && HitsPlayer(s[k], player, meets) {
      var k :| 0 <= k < c && HitsPlayer(s[k], player, meets);
      HitPassEnds(s, 0, c, Default, t, player, meets, k);
    }
    HitPassEndWitness(s, s, 0, c, Default, t, player, meets);
  }

  /** In DEFAULT, a fired plain bullet i that is not DONE and meets a fired rocket
      j leaves the rocket EXPLODED. When the rocket was live, it is
      Explode(s[j], t); and when no plain bullet fired before i set it off, bullet
      i ends the check DONE. */
  lemma CollideExplodes(s: seq<Bullet>, c: nat, t: real, player: Disc, meets: (Disc, Disc) -> bool,
                        i: nat, j: nat)
    requires i < c <= |s| && j < c
    requires !s[i].isRocket && s[i].state != Done && s[j].isRocket
    requires meets(DiscOf(s[i]), DiscOf(s[j]))
    ensures var r := Collide(s, c, Default, t, player, meets).bullets;
      && r[j].state == Exploded
      && (s[j].state != Exploded ==> r[j] == Explode(s[j], t))
      && (s[j].state != Exploded && (forall k :: 0 <= k < i && s[k].state != Done ==> !SetsOff(s[k], s[j], meets))
          ==> r[i].state == Done)
  {
    HitPassExplodes(s, 0, c, Default, t, player, meets, i, j);
    HitPassEffect(s, 0, c, Default, t, player, meets);
    if s[j].state != Exploded && (forall k :: 0 <= k < i && s[k].state != Done ==> !SetsOff(s[k], s[j], meets)) {
      HitPassFirstHit(s, 0, c, Default, t, player, meets, i, j);
    }
  }

  /** A rocket already EXPLODED is never set off again: the check leaves it as it was. */
  lemma CollideKeepsExploded(s: seq<Bullet>, c: nat, phase: Phase, t: real, player: Disc,
                             meets: (Disc, Disc) -> bool, k: nat)
    requires c <= |s| && k < |s| && s[k].state == Exploded && s[k].isRocket
    ensures Collide(s, c, phase, t, player, meets).bullets[k] == s[k]
  {
    if phase == Default {
      HitPassEffect(s, 0, c, phase, t, player, meets);
    }
  }

  /** checkForCollisions keeps the firing-cursor invariant of the round. */
  lemma CollideKeepsRound(s: seq<Bullet>, c: nat, phase: Phase, t: real, player: Disc, meets: (Disc, Disc) -> bool)
    requires RoundInvariant(s, c)
    ensures RoundInvariant(Collide(s, c, phase, t, player, meets).bullets, c)
  {
    if phase == Default {
      HitPassEffect(s, 0, c, phase, t, player, meets);
    }
  }

  /** A DONE rocket is not excluded from the explosion test: a plain bullet meeting
      it turns it back into an EXPLODED rocket, against the forward order of states. */
  lemma DoneRocketRevived(player: Disc)
    ensures
      var plain := Bullet(100.0, 100.0, 1.0, 0.0, 10.0, false, false, MaxSpeed, Normal, 0.0);
      var rocket := Bullet(100.0, 100.0, 0.0, 0.0, 20.0, false, true, MaxSpeed, Done, 0.0);
      Collide([plain, rocket], 2, Default, 5.0, player, (p: Disc, q: Disc) => true).bullets[1].state == Exploded
  {
    var plain := Bullet(100.0, 100.0, 1.0, 0.0, 10.0, false, false, MaxSpeed, Normal, 0.0);
    var rocket := Bullet(100.0, 100.0, 0.0, 0.0, 20.0, false, true, MaxSpeed, Done, 0.0);
    var meets := (p: Disc, q: Disc) => true;
    var s := [plain, rocket];
    var s1 := RocketPass(s, 0, 0, 2, 5.0, meets);
    assert RocketPass(s, 0, 1, 2, 5.0, meets) == s1;
    assert s1 == [plain.(state := Done), Explode(rocket, 5.0)];
    var s2 := RocketPass(s1, 1, 0, 2, 5.0, meets);
    assert RocketPass(s1, 1, 1, 2, 5.0, meets) == s2;
    assert s2 == s1;
    assert HitPass(s, 0, 2, Default, 5.0, player, meets).bullets == s2;
  }
}
