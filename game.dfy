/** The controller itself: the player object and the game object whose
    methods update the bullet array and the controller fields in place, each
    proved to do what the value-level functions of the other modules say. */
module Controller {
  import opened Entities
  import opened Movement
  import opened Aiming
  import opened Collisions
  import opened Steering
  import opened Rounds

  /** The player made by makePlayer: a position and a radius of 25. */
  class Player {
    var x: real
    var y: real
    const radius: real := PlayerRadius

    /** makePlayer: the player starts in the middle of the canvas. */
    constructor ()
      ensures x == Width / 2.0 && y == Height / 2.0
    {
      x := Width / 2.0;
      y := Height / 2.0;
    }

    /** playerMove: one step per held key, then the clamp of the given copy. */
    method Move(keys: Keys, variant: Variant)
      modifies this
      ensures Vec(x, y) == PlayerMove(old(Vec(x, y)), keys, variant)
      ensures Margin + radius <= x <= Width - Margin - radius
      ensures Margin + radius <= y <= Height - Margin - radius
    {
      Step(keys);
      if variant == Current {
        ClampElseIf();
      } else {
        ClampIndependent();
      }
    }

    /** The four key tests of playerMove. */
    method Step(keys: Keys)
      modifies this
      ensures Vec(x, y) == Stepped(old(Vec(x, y)), keys)
    {
      if keys.w { y := y - StepSize; }
      if keys.a { x := x - StepSize; }
      if keys.s { y := y + StepSize; }
      if keys.d { x := x + StepSize; }
    }

    /** The clamp of js/main.js: on each axis the low test, else the high test. */
    method ClampElseIf()
      modifies this
      ensures x == ClampCurrent(old(x), radius, Width) && y == ClampCurrent(old(y), radius, Height)
    {
      if x - radius < Margin {
        x := Margin + radius;
      } else if x + radius > Width - Margin {
        x := Width - Margin - radius;
      }
      if y - radius < Margin {
        y := Margin + radius;
      } else if y + radius > Height - Margin {
        y := Height - Margin - radius;
      }
    }

    /** The clamp of js/js/main.js: four independent tests, both low tests first. */
    method ClampIndependent()
      modifies this
      ensures x == ClampEarly(old(x), radius, Width) && y == ClampEarly(old(y), radius, Height)
    {
      if x - radius < Margin { x := Margin + radius; }
      if y - radius < Margin { y := Margin + radius; }
      if x + radius > Width - Margin { x := Width - Margin - radius; }
      if y + radius > Height - Margin { y := Height - Margin - radius; }
    }
  }

  /** makeBullets: a new array of num bullets, bullet k made from draws(k). */
  method MakeBullets(num: nat, draws: nat -> Spawn) returns (a: array<Bullet>)
    ensures fresh(a)
    ensures a[..] == Batch(num, draws)
  {
    a := new Bullet[num];
    var i := 0;
    while i < num
      invariant 0 <= i <= num == a.Length
      invariant forall k :: 0 <= k < i ==> a[k] == Spawned(draws(k))
    {
      a[i] := Spawned(draws(i));
      i := i + 1;
    }
  }

  /** The app.main controller, for one of the two copies and one choice of the
      unseen helpers. */
  class Game {
    const variant: Variant
    const helpers: Helpers
    var totalTime: real
    var currentBullet: nat
    var numBullets: nat
    var bullets: array<Bullet>
    var player: Player
    var phase: Phase
    var paused: bool
    var debug: bool

    /** The controller's fields as a value. */
    ghost function State(): World
      reads this, bullets, player
    {
      World(totalTime, currentBullet, numBullets, bullets[..], Vec(player.x, player.y), phase, paused, debug)
    }

    /** The firing-cursor invariant holds on the bullet array. */
    ghost predicate Valid()
      reads this, bullets
    {
      RoundInvariant(bullets[..], currentBullet)
    }

    /** init: ten bullets and a player, the initial phase of the copy, then reset
        and one update. */
    constructor (variant: Variant, helpers: Helpers, draws: nat -> Spawn, dt: real, keys: Keys)
      ensures this.variant == variant && this.helpers == helpers
      ensures Valid() && State() == Init(variant, draws, dt, keys, helpers)
    {
      this.variant := variant;
      this.helpers := helpers;
      totalTime := 0.0;
      currentBullet := 0;
      paused := false;
      debug := false;
      numBullets := NumBulletsStart;
      var a := MakeBullets(NumBulletsStart, draws);
      bullets := a;
      player := new Player();
      phase := if variant == Current then Begin else Default;
      new;
      Reset(draws);
      Update(dt, keys);
    }

    /** reset: a new round of five more bullets. */
    method Reset(draws: nat -> Spawn)
      modifies this
      ensures State() == Rounds.Reset(old(State()), draws)
      ensures fresh(bullets) && fresh(player) && Valid()
    {
      totalTime := 0.0;
      currentBullet := 0;
      numBullets := numBullets + 5;
      bullets := MakeBullets(numBullets, draws);
      player := new Player();
      FreshBatch(numBullets, draws);
    }

    /** moveBullets. */
    method MoveBullets(dt: real)
      modifies bullets
      ensures bullets[..] == MoveAll(old(bullets[..]), dt)
    {
      ghost var s0 := bullets[..];
      var i := 0;
      while i < bullets.Length
        invariant 0 <= i <= bullets.Length
        invariant forall k :: 0 <= k < i ==> bullets[k] == MoveOne(s0[k], dt)
        invariant forall k :: i <= k < bullets.Length ==> bullets[k] == s0[k]
      {
        var b := bullets[i];
        if b.state == Done || b.state == Waiting || b.state == Aiming {
          i := i + 1;
          continue;
        }
        b := MoveAndRetire(b, dt);
        bullets[i] := b;
        i := i + 1;
      }
      assert bullets[..] == MoveAll(s0, dt);
    }

    /** bulletMove and the two boundary tests of moveBullets, on a bullet in flight. */
    static method MoveAndRetire(b: Bullet, dt: real) returns (r: Bullet)
      requires !Resting(b)
      ensures r == MoveOne(b, dt)
    {
      var m := b.(x := b.x + b.xSpeed * b.speed * dt, y := b.y + b.ySpeed * b.speed * dt);
      r := m;
      if HitLeftRight(r) {
        r := r.(state := Done);
      }
      if HitTopBottom(r) {
        r := r.(state := Done);
      }
      assert r == if HitTopBottom(m) || HitLeftRight(m) then m.(state := Done) else m;
    }

    /** The state-changing half of drawBullets, aiming at the player's current
        position. */
    method DrawBullets()
      requires currentBullet <= bullets.Length
      modifies this`currentBullet, bullets
      ensures var p := DrawPass(old(bullets[..]), 0, old(currentBullet), totalTime, helpers.aimAt,
                                Vec(player.x, player.y));
        bullets[..] == p.bullets && currentBullet == p.cursor
    {
      ghost var s0 := bullets[..];
      ghost var c0 := currentBullet;
      var target := Vec(player.x, player.y);
      var i := 0;
      while i < bullets.Length
        invariant 0 <= i <= bullets.Length
        invariant DrawPass(bullets[..], i, currentBullet, totalTime, helpers.aimAt, target)
               == DrawPass(s0, 0, c0, totalTime, helpers.aimAt, target)
      {
        ghost var s := bullets[..];
        ghost var c := currentBullet;
        var b := PromoteAndShrink(bullets[i], i);
        if b.state == Waiting && totalTime >= FireGate(currentBullet) && i == currentBullet {
          currentBullet := currentBullet + 1;
          b := ShootBullet(b, target);
        }
        bullets[i] := b;
        assert Advance(s[i], i, c, totalTime, helpers.aimAt, target) == Visit(b, currentBullet);
        assert bullets[..] == s[i := b];
        i := i + 1;
      }
    }

    /** The promotion tests and the shrink of exploded rockets in drawBullets,
        on bullet b at index i. */
    method PromoteAndShrink(b: Bullet, i: nat) returns (r: Bullet)
      ensures r == Shrink(Promote(b, i, currentBullet, totalTime), totalTime)
    {
      r := b;
      if !r.isSniper && r.state == Aiming && i == currentBullet {
        r := r.(state := Waiting);
      }
      if r.isSniper && r.state == Aiming && totalTime >= SniperGate(currentBullet) {
        r := r.(state := Waiting);
      }
      if r.state == Exploded {
        if totalTime - r.timer > 3.0 {
          r := r.(radius := r.radius - 2.0);
          if r.radius <= 0.0 {
            r := r.(state := Done);
          }
        }
      }
    }

    /** shootBullet: velocity and state only. */
    method ShootBullet(b: Bullet, target: Vec) returns (r: Bullet)
      ensures r == Shoot(b, helpers.aimAt(PositionOf(b), target))
    {
      var attackVector := helpers.aimAt(Vec(b.x, b.y), target);
      r := b;
      if b.isSniper {
        r := r.(xSpeed := attackVector.x * 3.0, ySpeed := attackVector.y * 3.0);
      } else if b.isRocket {
        r := r.(xSpeed := attackVector.x * 0.5, ySpeed := attackVector.y * 0.5);
      } else {
        r := r.(xSpeed := attackVector.x, ySpeed := attackVector.y);
      }
      r := r.(state := Normal);
    }

    /** checkForCollisions: in DEFAULT, the player test and the rocket loop for
        each fired bullet not DONE, then the round-over scan. */
    method CheckForCollisions()
      requires currentBullet <= bullets.Length
      modifies this`phase, bullets
      ensures var o := Collide(old(bullets[..]), currentBullet, old(phase), totalTime,
                               PlayerDisc(Vec(player.x, player.y)), helpers.meets);
        bullets[..] == o.bullets && phase == o.phase
    {
      if phase == Default {
        ghost var s0 := bullets[..];
        var pd := Disc(player.x, player.y, player.radius);
        var i := 0;
        while i < currentBullet
          invariant 0 <= i <= currentBullet
          invariant HitPass(bullets[..], i, currentBullet, phase, totalTime, pd, helpers.meets)
                 == HitPass(s0, 0, currentBullet, Default, totalTime, pd, helpers.meets)
        {
          var b := bullets[i];
          if b.state == Done {
            i := i + 1;
            continue;
          }
          if helpers.meets(DiscOf(b), pd) {
            phase := End;
          }
          SetOffRockets(i);
          i := i + 1;
        }
        var isOver := IsOver();
        if isOver {
          phase := RoundOver;
        }
      }
    }

    /** The rocket loop of checkForCollisions for the fired bullet at index i: every
        live fired rocket it meets explodes, and the bullet is retired, when it is
        not a rocket itself. */
    method SetOffRockets(i: nat)
      requires i < currentBullet <= bullets.Length
      modifies bullets
      ensures bullets[..] == RocketPass(old(bullets[..]), i, 0, currentBullet, totalTime, helpers.meets)
    {
      ghost var s1 := bullets[..];
      var j := 0;
      while j < currentBullet
        invariant 0 <= j <= currentBullet
        invariant RocketPass(bullets[..], i, j, currentBullet, totalTime, helpers.meets)
               == RocketPass(s1, i, 0, currentBullet, totalTime, helpers.meets)
      {
        ghost var s := bullets[..];
        var b := bullets[i];
        var b2 := bullets[j];
        if b2.isRocket && b2.state != Exploded {
          if helpers.meets(DiscOf(b), DiscOf(b2)) && !b.isRocket {
            bullets[j] := b2.(radius := ExplodedRadius, xSpeed := 0.0, ySpeed := 0.0, timer := totalTime);
            bullets[i] := b.(state := Done);
            bullets[j] := bullets[j].(state := Exploded);
            assert bullets[..] == s[j := Explode(s[j], totalTime)][i := s[i].(state := Done)];
          }
        }
        j := j + 1;
      }
    }

    /** The round-over scan of checkForCollisions: true iff every bullet is DONE,
        stopping at the first that is not. */
    method IsOver() returns (isOver: bool)
      ensures isOver <==> AllDone(bullets[..])
    {
      isOver := true;
      var k := 0;
      while k < bullets.Length
        invariant 0 <= k <= bullets.Length
        invariant forall m :: 0 <= m < k ==> bullets[m].state == Done
      {
        if bullets[k].state != Done {
          isOver := false;
          break;
        }
        k := k + 1;
      }
    }

    /** One update() when the game is not paused: the steps in the order of the
        copy, then the clock. */
    method Update(dt: real, keys: Keys)
      requires Valid()
      modifies this, bullets, player
      ensures bullets == old(bullets) && player == old(player)
      ensures Valid() && State() == Frame(old(State()), dt, keys, variant, helpers)
    {
      if paused {
        return;
      }
      ghost var w := State();
      FrameKeepsRound(w, dt, keys, variant, helpers);
      MoveBullets(dt);
      MoveAllKeepsRound(w.bullets, currentBullet, dt);
      if variant == Current {
        player.Move(keys, variant);
      }
      CheckForCollisions();
      DrawBullets();
      if variant == Early {
        player.Move(keys, variant);
      }
      totalTime := totalTime + dt;
    }

    /** doMousedown: the click transitions of the copy. */
    method Mousedown(dt: real, keys: Keys, draws: nat -> Spawn)
      requires Valid()
      modifies this, bullets, player
      ensures Valid() && State() == Click(old(State()), dt, keys, draws, variant, helpers)
    {
      if variant == Current {
        MousedownCurrent(dt, keys, draws);
      } else {
        MousedownEarly(dt, keys, draws);
      }
    }

    /** doMousedown of js/main.js. */
    method MousedownCurrent(dt: real, keys: Keys, draws: nat -> Spawn)
      requires Valid() && variant == Current
      modifies this, bullets, player
      ensures Valid() && State() == ClickCurrent(old(State()), dt, keys, draws, helpers)
    {
      if paused {
        paused := false;
        Update(dt, keys);
        return;
      }
      if phase == Begin {
        phase := Default;
        Update(dt, keys);
      }
      if phase == RoundOver {
        phase := Default;
        Reset(draws);
        Update(dt, keys);
        return;
      }
      RepeatOrEnd(dt, keys, draws);
    }

    /** The REPEAT_LEVEL and END branches of doMousedown in js/main.js. */
    method RepeatOrEnd(dt: real, keys: Keys, draws: nat -> Spawn)
      requires Valid() && variant == Current && !paused && phase != RoundOver
      modifies this, bullets, player
      ensures Valid()
      ensures var w := old(State());
        var w2 := if w.phase == RepeatLevel then Frame(w.(phase := Default), dt, keys, Current, helpers) else w;
        State() == if w2.phase == End
                   then Frame(Rounds.Reset(w2.(phase := Default, numBullets := NumBulletsStart), draws),
                              dt, keys, Current, helpers)
                   else w2
    {
      if phase == RepeatLevel {
        phase := Default;
        Update(dt, keys);
      }
      if phase == End {
        phase := Default;
        numBullets := NumBulletsStart;
        Reset(draws);
        Update(dt, keys);
      }
    }

    /** doMousedown of js/js/main.js. */
    method MousedownEarly(dt: real, keys: Keys, draws: nat -> Spawn)
      requires Valid() && variant == Early
      modifies this, bullets, player
      ensures Valid() && State() == ClickEarly(old(State()), dt, keys, draws, helpers)
    {
      ghost var w := State();
      if paused {
        paused := false;
        assert State() == w.(paused := false);
        Update(dt, keys);
        return;
      }
      if phase == RoundOver {
        phase := Default;
        assert State() == w.(phase := Default);
        Reset(draws);
        return;
      }
      if phase == RepeatLevel {
        phase := Default;
      }
      ghost var w2 := State();
      assert w2 == if w.phase == RepeatLevel then w.(phase := Default) else w;
      if phase == End {
        phase := Default;
        numBullets := NumBulletsStart;
        assert State() == w2.(phase := Default, numBullets := NumBulletsStart);
        Reset(draws);
      }
    }

    /** toggleDebug, which only js/js/main.js has. */
    method ToggleDebug()
      requires variant == Early
      modifies this`debug
      ensures State() == Rounds.ToggleDebug(old(State()))
    {
      debug := !debug;
    }
  }
}
