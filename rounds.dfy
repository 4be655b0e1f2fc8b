/** The controller's state as one value, and the per-frame update, the round
    reset and the click handler as functions on it. Both copies of the
    controller are covered; they differ in the order of a frame's steps and in
    what a click does. */
module Rounds {
  import opened Entities
  import opened Movement
  import opened Aiming
  import opened Collisions
  import opened Steering

  /** The controller fields the simulation reads and writes. */
  datatype World = World(
    totalTime: real,
    cursor: nat,          // currentBullet
    numBullets: nat,
    bullets: seq<Bullet>,
    player: Vec,
    phase: Phase,         // gameState
    paused: bool,
    debug: bool)

  function PlayerDisc(p: Vec): Disc { Disc(p.x, p.y, PlayerRadius) }

  /** One frame of update, the drawing left out: nothing while paused; otherwise
      moveBullets, the collision check and the state half of drawBullets, with the
      player moved before the collision check in js/main.js and after drawing in
      js/js/main.js, and finally the clock advanced by dt. */
  function Frame(w: World, dt: real, keys: Keys, v: Variant, h: Helpers): (r: World)
    requires w.cursor <= |w.bullets|
    ensures r.cursor <= |r.bullets| == |w.bullets|
    ensures r.numBullets == w.numBullets && r.paused == w.paused && r.debug == w.debug
  {
    if w.paused then w
    else
      var moved := MoveAll(w.bullets, dt);
      var p1 := if v == Current then PlayerMove(w.player, keys, v) else w.player;
      var o := Collide(moved, w.cursor, w.phase, w.totalTime, PlayerDisc(p1), h.meets);
      var d := DrawPass(o.bullets, 0, w.cursor, w.totalTime, h.aimAt, p1);
      var p2 := if v == Early then PlayerMove(p1, keys, v) else p1;
      w.(totalTime := w.totalTime + dt, cursor := d.cursor, bullets := d.bullets,
         player := p2, phase := o.phase)
  }

  /** reset: the clock and cursor back to 0, five more bullets, a fresh batch and
      a fresh player in the middle of the screen. */
  function Reset(w: World, draws: nat -> Spawn): (r: World)
    ensures r.totalTime == 0.0 && r.cursor == 0
    ensures r.numBullets == w.numBullets + 5 && |r.bullets| == r.numBullets
    ensures RoundInvariant(r.bullets, 0)
    ensures r.phase == w.phase && r.paused == w.paused && r.debug == w.debug
  {
    var n := w.numBullets + 5;
    w.(totalTime := 0.0, cursor := 0, numBullets := n, bullets := Batch(n, draws),
       player := Vec(Width / 2.0, Height / 2.0))
  }

  /** doMousedown of js/main.js. Each of its update() calls is a frame run with the
      click's inputs. */
  function ClickCurrent(w: World, dt: real, keys: Keys, draws: nat -> Spawn, h: Helpers): (r: World)
    requires w.cursor <= |w.bullets|
    ensures r.cursor <= |r.bullets| && !r.paused && r.debug == w.debug
    ensures w.paused ==> r.numBullets == w.numBullets && |r.bullets| == |w.bullets|
  {
    if w.paused then Frame(w.(paused := false), dt, keys, Current, h)
    else
      var w1 := if w.phase == Begin then Frame(w.(phase := Default), dt, keys, Current, h) else w;
      if w1.phase == RoundOver then Frame(Reset(w1.(phase := Default), draws), dt, keys, Current, h)
      else
        var w2 := if w1.phase == RepeatLevel then Frame(w1.(phase := Default), dt, keys, Current, h) else w1;
        if w2.phase == End then
          Frame(Reset(w2.(phase := Default, numBullets := NumBulletsStart), draws), dt, keys, Current, h)
        else w2
  }

  /** doMousedown of js/js/main.js: a click in BEGIN does nothing, and only the
      unpausing click runs a frame. */
  function ClickEarly(w: World, dt: real, keys: Keys, draws: nat -> Spawn, h: Helpers): (r: World)
    requires w.cursor <= |w.bullets|
    ensures r.cursor <= |r.bullets| && !r.paused && r.debug == w.debug
    ensures !w.paused && w.phase == Begin ==> r == w
    ensures !w.paused ==> r.totalTime == w.totalTime || r.totalTime == 0.0
  {
    if w.paused then Frame(w.(paused := false), dt, keys, Early, h)
    else if w.phase == RoundOver then Reset(w.(phase := Default), draws)
    else
      var w2 := if w.phase == RepeatLevel then w.(phase := Default) else w;
      if w2.phase == End then Reset(w2.(phase := Default, numBullets := NumBulletsStart), draws)
      else w2
  }

  function Click(w: World, dt: real, keys: Keys, draws: nat -> Spawn, v: Variant, h: Helpers): World
    requires w.cursor <= |w.bullets|
  {
    if v == Current then ClickCurrent(w, dt, keys, draws, h) else ClickEarly(w, dt, keys, draws, h)
  }

  /** init: the controller's initial fields, ten bullets and a player, the initial
      phase (BEGIN in js/main.js, DEFAULT in js/js/main.js), then reset and one frame. */
  function Init(v: Variant, draws: nat -> Spawn, dt: real, keys: Keys, h: Helpers): (r: World)
    ensures r.numBullets == NumBulletsStart + 5 && |r.bullets| == r.numBullets
    ensures r.cursor <= |r.bullets| && !r.paused && !r.debug
  {
    var w0 := World(0.0, 0, NumBulletsStart, Batch(NumBulletsStart, draws), Vec(Width / 2.0, Height / 2.0),
                    if v == Current then Begin else Default, false, false);
    Frame(Reset(w0, draws), dt, keys, v, h)
  }

  /** toggleDebug (js/js/main.js). */
  function ToggleDebug(w: World): (r: World)
    ensures r.debug != w.debug && r == w.(debug := r.debug)
  {
    w.(debug := !w.debug)
  }

  /** A round just started: n bullets, none fired, the cursor at 0, the phase DEFAULT. */
  predicate FreshRound(r: World, n: nat)
  {
    && r.numBullets == n && |r.bullets| == n
    && r.cursor == 0 && r.phase == Default && !r.paused
    && RoundInvariant(r.bullets, 0)
  }

  /** After reset: clock and cursor at 0, five more bullets than before, each aiming,
      at rest, timer 0, speed 140, radius 10 (20 for a rocket), never both sniper and
      rocket; the player at (400, 300); the phase and the flags untouched. */
  lemma ResetFresh(w: World, draws: nat -> Spawn)
    ensures var r := Reset(w, draws);
      && r.totalTime == 0.0 && r.cursor == 0
      && r.numBullets == w.numBullets + 5 && |r.bullets| == r.numBullets
      && RoundInvariant(r.bullets, 0)
      && (forall k :: 0 <= k < |r.bullets| ==>
            r.bullets[k].state == Aiming && r.bullets[k].timer == 0.0 &&
            r.bullets[k].speed == MaxSpeed &&
            r.bullets[k].radius == (if r.bullets[k].isRocket then 20.0 else 10.0))
      && r.player == Vec(400.0, 300.0)
      && r.phase == w.phase && r.paused == w.paused && r.debug == w.debug
  {
    FreshBatch(w.numBullets + 5, draws);
  }

  /** A frame keeps the firing-cursor invariant, never moves the cursor back nor
      past the end of the array, keeps the number of bullets, and moves the clock
      forward by dt when not paused. */
  lemma FrameKeepsRound(w: World, dt: real, keys: Keys, v: Variant, h: Helpers)
    requires RoundInvariant(w.bullets, w.cursor)
    ensures var r := Frame(w, dt, keys, v, h);
      && RoundInvariant(r.bullets, r.cursor)
      && w.cursor <= r.cursor <= |r.bullets| == |w.bullets|
      && r.totalTime == (if w.paused then w.totalTime else w.totalTime + dt)
  {
    if !w.paused {
      var moved := MoveAll(w.bullets, dt);
      MoveAllKeepsRound(w.bullets, w.cursor, dt);
      var p1 := if v == Current then PlayerMove(w.player, keys, v) else w.player;
      var o := Collide(moved, w.cursor, w.phase, w.totalTime, PlayerDisc(p1), h.meets);
      CollideKeepsRound(moved, w.cursor, w.phase, w.totalTime, PlayerDisc(p1), h.meets);
      DrawPassKeepsRound(o.bullets, 0, w.cursor, w.totalTime, h.aimAt, p1);
    }
  }

  /** A frame leaves every bullet after the cursor it ends with as it was: the
      queue of unfired bullets is touched only at its head. */
  lemma FrameLeavesQueue(w: World, dt: real, keys: Keys, v: Variant, h: Helpers)
    requires RoundInvariant(w.bullets, w.cursor)
    ensures var r := Frame(w, dt, keys, v, h);
      forall k :: r.cursor < k < |w.bullets| ==> r.bullets[k] == w.bullets[k]
  {
    if !w.paused {
      var moved := MoveAll(w.bullets, dt);
      MoveAllKeepsRound(w.bullets, w.cursor, dt);
      var p1 := if v == Current then PlayerMove(w.player, keys, v) else w.player;
      var o := Collide(moved, w.cursor, w.phase, w.totalTime, PlayerDisc(p1), h.meets);
      CollideKeepsRound(moved, w.cursor, w.phase, w.totalTime, PlayerDisc(p1), h.meets);
      if w.phase == Default {
        HitPassEffect(moved, 0, w.cursor, w.phase, w.totalTime, PlayerDisc(p1), h.meets);
      }
      DrawPassOnlyAtCursor(o.bullets, w.cursor, w.totalTime, h.aimAt, p1);
      DrawPassKeepsRound(o.bullets, 0, w.cursor, w.totalTime, h.aimAt, p1);
    }
  }

  /** A frame changes the phase only through the collision check: only in DEFAULT,
      and then only to END or ROUND_OVER. */
  lemma FramePhase(w: World, dt: real, keys: Keys, v: Variant, h: Helpers)
    requires w.cursor <= |w.bullets|
    ensures var r := Frame(w, dt, keys, v, h);
      r.phase == w.phase || (w.phase == Default && !w.paused && r.phase in {End, RoundOver})
  {
    if !w.paused {
      var moved := MoveAll(w.bullets, dt);
      var p1 := if v == Current then PlayerMove(w.player, keys, v) else w.player;
      CollidePhase(moved, w.cursor, w.phase, w.totalTime, PlayerDisc(p1), h.meets);
    }
  }

  /** The first frame of a round started in DEFAULT fires nothing (the first fire
      gate is at 3 seconds), leaves the cursor at 0 and the phase at DEFAULT, and
      sets the clock to dt. */
  lemma FirstFrameAfterReset(x: World, draws: nat -> Spawn, dt: real, keys: Keys, v: Variant, h: Helpers)
    requires x.phase == Default && !x.paused
    ensures var r := Frame(Reset(x, draws), dt, keys, v, h);
      FreshRound(r, x.numBullets + 5) && r.totalTime == dt
  {
    var w := Reset(x, draws);
    ResetFresh(x, draws);
    var moved := MoveAll(w.bullets, dt);
    MoveAllKeepsRound(w.bullets, 0, dt);
    assert moved == w.bullets;
    var p1 := if v == Current then PlayerMove(w.player, keys, v) else w.player;
    var o := Collide(moved, 0, Default, 0.0, PlayerDisc(p1), h.meets);
    assert w.bullets[0].state == Aiming;
    assert !AllDone(moved);
    assert o == Outcome(moved, Default);
    DrawPassBeforeGate(o.bullets, 0, 0, 0.0, h.aimAt, p1);
    DrawPassKeepsRound(o.bullets, 0, 0, 0.0, h.aimAt, p1);
  }

  /** In either copy, a click during play (DEFAULT, or the unused WAITING phase)
      changes nothing. */
  lemma ClickDuringPlay(w: World, dt: real, keys: Keys, draws: nat -> Spawn, v: Variant, h: Helpers)
    requires w.cursor <= |w.bullets|
    requires !w.paused && (w.phase == Default || w.phase == Holding)
    ensures Click(w, dt, keys, draws, v, h) == w
  {
  }

  /** In either copy, a click while paused clears the flag and runs one frame; the
      click itself changes no phase and no bullet count. */
  lemma ClickWhilePaused(w: World, dt: real, keys: Keys, draws: nat -> Spawn, v: Variant, h: Helpers)
    requires w.cursor <= |w.bullets| && w.paused
    ensures var r := Click(w, dt, keys, draws, v, h);
      && !r.paused && r.numBullets == w.numBullets && |r.bullets| == |w.bullets|
      && (r.phase == w.phase || (w.phase == Default && r.phase in {End, RoundOver}))
  {
    FramePhase(w.(paused := false), dt, keys, v, h);
  }

  /** js/main.js: after ROUND_OVER a click starts a round with five more bullets,
      after END one with fifteen (ten, plus five), each already one frame old. */
  lemma ClickCurrentRestarts(w: World, dt: real, keys: Keys, draws: nat -> Spawn, h: Helpers)
    requires w.cursor <= |w.bullets| && !w.paused
    ensures w.phase == RoundOver ==>
      var r := ClickCurrent(w, dt, keys, draws, h);
      FreshRound(r, w.numBullets + 5) && r.totalTime == dt
    ensures w.phase == End ==>
      var r := ClickCurrent(w, dt, keys, draws, h);
      FreshRound(r, NumBulletsStart + 5) && r.numBullets == 15 && r.totalTime == dt
  {
    if w.phase == RoundOver {
      FirstFrameAfterReset(w.(phase := Default), draws, dt, keys, Current, h);
    } else if w.phase == End {
      FirstFrameAfterReset(w.(phase := Default, numBullets := NumBulletsStart), draws, dt, keys, Current, h);
    }
  }

  /** js/main.js: a click in BEGIN or REPEAT_LEVEL goes to DEFAULT and runs a frame
      without a reset. When that frame itself ends the round, the click goes on to
      start a fresh one from BEGIN, since the ROUND_OVER test follows the BEGIN
      branch; from REPEAT_LEVEL it does so only for END, and a ROUND_OVER reached
      there is left for the next click. */
  lemma ClickCurrentStarts(w: World, dt: real, keys: Keys, draws: nat -> Spawn, h: Helpers)
    requires w.cursor <= |w.bullets| && !w.paused
    requires w.phase == Begin || w.phase == RepeatLevel
    ensures var f := Frame(w.(phase := Default), dt, keys, Current, h);
      var r := ClickCurrent(w, dt, keys, draws, h);
      && !r.paused
      && (f.phase == Default ==> r == f && r.numBullets == w.numBullets)
      && (f.phase == RoundOver && w.phase == Begin ==> FreshRound(r, w.numBullets + 5))
      && (f.phase == RoundOver && w.phase == RepeatLevel ==> r == f)
      && (f.phase == End ==> FreshRound(r, NumBulletsStart + 5))
  {
    var f := Frame(w.(phase := Default), dt, keys, Current, h);
    FramePhase(w.(phase := Default), dt, keys, Current, h);
    if f.phase == RoundOver && w.phase == Begin {
      FirstFrameAfterReset(f.(phase := Default), draws, dt, keys, Current, h);
    } else if f.phase == End {
      FirstFrameAfterReset(f.(phase := Default, numBullets := NumBulletsStart), draws, dt, keys, Current, h);
    }
  }

  /** js/js/main.js: a click in BEGIN does nothing, REPEAT_LEVEL goes to DEFAULT,
      ROUND_OVER starts a fresh round of five more bullets and END one of fifteen,
      neither running a frame. */
  lemma ClickEarlyTransitions(w: World, dt: real, keys: Keys, draws: nat -> Spawn, h: Helpers)
    requires w.cursor <= |w.bullets| && !w.paused
    ensures var r := ClickEarly(w, dt, keys, draws, h);
      && (w.phase == Begin ==> r == w)
      && (w.phase == RepeatLevel ==> r == w.(phase := Default))
      && (w.phase == RoundOver ==> FreshRound(r, w.numBullets + 5) && r.totalTime == 0.0)
      && (w.phase == End ==> FreshRound(r, 15) && r.totalTime == 0.0)
  {
    if w.phase == RoundOver {
      ResetFresh(w.(phase := Default), draws);
    } else if w.phase == End {
      ResetFresh(w.(phase := Default, numBullets := NumBulletsStart), draws);
    }
  }

  /** toggleDebug flips the flag, and flipping it twice restores the state. */
  lemma ToggleDebugInvolution(w: World)
    ensures ToggleDebug(w).debug == !w.debug
    ensures ToggleDebug(ToggleDebug(w)) == w
  {
  }

  /** After init the round has fifteen bullets and the cursor at 0, in BEGIN for
      js/main.js and DEFAULT for js/js/main.js. */
  lemma InitState(v: Variant, draws: nat -> Spawn, dt: real, keys: Keys, h: Helpers)
    ensures var r := Init(v, draws, dt, keys, h);
      && r.numBullets == 15 && |r.bullets| == 15 && r.cursor == 0
      && RoundInvariant(r.bullets, 0)
      && r.phase == (if v == Current then Begin else Default)
  {
    var w0 := World(0.0, 0, NumBulletsStart, Batch(NumBulletsStart, draws), Vec(Width / 2.0, Height / 2.0),
                    if v == Current then Begin else Default, false, false);
    if v == Current {
      var w := Reset(w0, draws);
      ResetFresh(w0, draws);
      FrameKeepsRound(w, dt, keys, v, h);
      var moved := MoveAll(w.bullets, dt);
      MoveAllKeepsRound(w.bullets, 0, dt);
      var o := Collide(moved, 0, Begin, 0.0, PlayerDisc(PlayerMove(w.player, keys, v)), h.meets);
      DrawPassBeforeGate(o.bullets, 0, 0, 0.0, h.aimAt, PlayerMove(w.player, keys, v));
    } else {
      FirstFrameAfterReset(w0, draws, dt, keys, v, h);
    }
  }
}
