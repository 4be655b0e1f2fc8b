/** The entities of the game controller: its constants, the bullet and
    player records, the two tag enumerations, and the creation of a fresh
    bullet from the random draws the source makes for it. */
module Entities {

  // Screen and bullet constants of the controller.
  const Width: real := 800.0
  const Height: real := 600.0
  const StartRadius: real := 10.0
  const MaxSpeed: real := 140.0
  const NumBulletsStart: nat := 10
  const PlayerRadius: real := 25.0

  // Timing constants of the firing schedule, in seconds.
  const BulletTimer: real := 0.6
  const LineTimer: real := 0.4
  const StartWaitTime: real := 3.0

  /** BULLET_STATE. */
  datatype BulletState = Normal | Aiming | Waiting | Exploded | Done

  /** GAME_STATE. The source's WAITING phase (never assigned) is called Holding here. */
  datatype Phase = Begin | Default | Holding | RoundOver | RepeatLevel | End

  /** Which copy of the controller is modelled: js/main.js or the earlier js/js/main.js. */
  datatype Variant = Current | Early

  datatype Vec = Vec(x: real, y: real)

  /** A circle, the only shape the (unseen) intersection test is given. */
  datatype Disc = Disc(x: real, y: real, radius: real)

  datatype Bullet = Bullet(
    x: real, y: real,
    xSpeed: real, ySpeed: real,
    radius: real,
    isSniper: bool, isRocket: bool,
    speed: real,
    state: BulletState,
    timer: real)

  /** The random values the source draws for one bullet: getRandom(0, 1) for the
      spawn edge, one getRandom over the edge for the coordinate along it, and up
      to three Math.random() draws for the category. */
  datatype Spawn = Spawn(edgeDraw: real, along: real, sniperDraw: real, rocketDraw: real, rocketDraw2: real)

  /** The unseen helpers of the utilities file: bulletsIntersect and getVectorToPlayer
      (from a point towards the player's position). */
  datatype Helpers = Helpers(meets: (Disc, Disc) -> bool, aimAt: (Vec, Vec) -> Vec)

  /** The keys of the key-down table the player controller polls. */
  datatype Keys = Keys(w: bool, a: bool, s: bool, d: bool)

  function DiscOf(b: Bullet): Disc { Disc(b.x, b.y, b.radius) }

  function PositionOf(b: Bullet): Vec { Vec(b.x, b.y) }

  predicate Unfired(b: Bullet) { b.state == Aiming || b.state == Waiting }

  predicate Fired(b: Bullet) { b.state == Normal || b.state == Exploded || b.state == Done }

  /** The spawn point: on one of the four lines 2*START_RADIUS inside the screen edges. */
  function SpawnPoint(d: Spawn): (p: Vec)
    ensures p.x == 20.0 || p.x == 780.0 || p.y == 20.0 || p.y == 580.0
    ensures d.edgeDraw <= 0.50 ==> p.x == d.along
    ensures d.edgeDraw > 0.50 ==> p.y == d.along
  {
    if d.edgeDraw <= 0.25 then Vec(d.along, StartRadius * 2.0)
    else if d.edgeDraw <= 0.50 then Vec(d.along, Height - StartRadius * 2.0)
    else if d.edgeDraw <= 0.75 then Vec(StartRadius * 2.0, d.along)
    else Vec(Width - StartRadius * 2.0, d.along)
  }

  /** One bullet of makeBullets: aiming, at rest, timer 0, a sniper when the first
      category draw is at most 0.25, otherwise a rocket when a second draw is above
      0.25 and a third, separate draw is at most 0.30. */
  function Spawned(d: Spawn): (b: Bullet)
    ensures b.state == Aiming && b.timer == 0.0 && b.speed == MaxSpeed
    ensures b.xSpeed == 0.0 && b.ySpeed == 0.0
    ensures !(b.isSniper && b.isRocket)
    ensures b.radius == if b.isRocket then 20.0 else 10.0
    ensures b.isSniper <==> d.sniperDraw <= 0.25
    ensures b.isRocket <==> d.sniperDraw > 0.25 && d.rocketDraw > 0.25 && d.rocketDraw2 <= 0.30
    ensures b.x == 20.0 || b.x == 780.0 || b.y == 20.0 || b.y == 580.0
    ensures PositionOf(b) == SpawnPoint(d)
  {
    var p := SpawnPoint(d);
    var sniper := d.sniperDraw <= 0.25;
    var rocket := !sniper && d.rocketDraw > 0.25 && d.rocketDraw2 <= 0.30;
    Bullet(p.x, p.y, 0.0, 0.0,
           if rocket then StartRadius + 10.0 else StartRadius,
           sniper, rocket, MaxSpeed, Aiming, 0.0)
  }

  /** The batch makeBullets(num) builds from the draws, bullet k from draws(k). */
  function Batch(num: nat, draws: nat -> Spawn): (s: seq<Bullet>)
    ensures |s| == num
    ensures forall k :: 0 <= k < num ==> s[k] == Spawned(draws(k))
  {
    seq(num, k requires 0 <= k => Spawned(draws(k)))
  }

  /** The firing-cursor invariant of a round: the bullets before the cursor have
      been fired, those from the cursor on have not, no unfired bullet moves, no
      bullet is both sniper and rocket, and only rockets are ever EXPLODED. */
  predicate RoundInvariant(s: seq<Bullet>, cursor: nat)
  {
    && cursor <= |s|
    && (forall k :: 0 <= k < cursor ==> Fired(s[k]))
    && (forall k :: cursor <= k < |s| ==> Unfired(s[k]) && s[k].xSpeed == 0.0 && s[k].ySpeed == 0.0)
    && (forall k :: 0 <= k < |s| ==> !(s[k].isSniper && s[k].isRocket))
    && (forall k :: 0 <= k < |s| && s[k].state == Exploded ==> s[k].isRocket)
  }

  /** A fresh batch satisfies the round invariant with the cursor at 0, and its
      bullets are exactly the spawned ones. */
  lemma FreshBatch(num: nat, draws: nat -> Spawn)
    ensures RoundInvariant(Batch(num, draws), 0)
    ensures forall k :: 0 <= k < num ==>
      var b := Batch(num, draws)[k];
      b.state == Aiming && b.timer == 0.0 && b.speed == MaxSpeed &&
      b.radius == (if b.isRocket then 20.0 else 10.0)
  {
  }

  /** When the coordinate draw lies in the range the source asks getRandom for,
      the spawn point lies inside the screen, 2*START_RADIUS from its edges. */
  lemma SpawnInsideScreen(d: Spawn)
    requires d.edgeDraw <= 0.50 ==> 20.0 <= d.along <= Width - 20.0
    requires d.edgeDraw > 0.50 ==> 20.0 <= d.along <= Height - 20.0
    ensures 20.0 <= SpawnPoint(d).x <= Width - 20.0
    ensures 20.0 <= SpawnPoint(d).y <= Height - 20.0
  {
  }
}
