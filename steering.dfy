/** The player controller (playerMove): one 2.5-pixel step per held key, then
    a clamp that keeps the player's circle 10 pixels inside the canvas. The two
    copies of the controller clamp differently. */
module Steering {
  import opened Entities

  const StepSize: real := 2.5
  const Margin: real := 10.0

  /** The position after the W, A, S and D steps, before clamping. */
  function Stepped(p: Vec, keys: Keys): (q: Vec)
    ensures q.x == p.x - (if keys.a then StepSize else 0.0) + (if keys.d then StepSize else 0.0)
    ensures q.y == p.y - (if keys.w then StepSize else 0.0) + (if keys.s then StepSize else 0.0)
  {
    var y1 := if keys.w then p.y - StepSize else p.y;
    var x1 := if keys.a then p.x - StepSize else p.x;
    var y2 := if keys.s then y1 + StepSize else y1;
    var x2 := if keys.d then x1 + StepSize else x1;
    Vec(x2, y2)
  }

  /** The clamp of js/main.js on one axis: the low test, else the high test. */
  function ClampCurrent(v: real, r: real, size: real): (c: real)
    ensures 2.0 * r + 2.0 * Margin <= size ==> Margin + r <= c <= size - Margin - r
    ensures Margin + r <= v <= size - Margin - r ==> c == v
  {
    if v - r < Margin then Margin + r
    else if v + r > size - Margin then size - Margin - r
    else v
  }

  /** The clamp of js/js/main.js on one axis: the low test and then, independently,
      the high test. */
  function ClampEarly(v: real, r: real, size: real): (c: real)
    ensures 2.0 * r + 2.0 * Margin <= size ==> Margin + r <= c <= size - Margin - r
    ensures Margin + r <= v <= size - Margin - r ==> c == v
  {
    var v1 := if v - r < Margin then Margin + r else v;
    if v1 + r > size - Margin then size - Margin - r else v1
  }

  function Clamp(variant: Variant, v: real, r: real, size: real): real
  {
    if variant == Current then ClampCurrent(v, r, size) else ClampEarly(v, r, size)
  }

  /** playerMove on the player's position, with the player's radius of 25. */
  function PlayerMove(p: Vec, keys: Keys, variant: Variant): (q: Vec)
    ensures Margin + PlayerRadius <= q.x <= Width - Margin - PlayerRadius
    ensures Margin + PlayerRadius <= q.y <= Height - Margin - PlayerRadius
  {
    var q := Stepped(p, keys);
    Vec(Clamp(variant, q.x, PlayerRadius, Width), Clamp(variant, q.y, PlayerRadius, Height))
  }

  /** The two clamps agree whenever the circle fits between the margins, which
      the player's radius of 25 does on both axes. */
  lemma ClampVariantsAgree(v: real, r: real, size: real)
    requires 2.0 * r + 2.0 * Margin <= size
    ensures ClampCurrent(v, r, size) == ClampEarly(v, r, size)
  {
  }

  /** For a circle too wide to fit, the two clamps differ: the first keeps it at the
      low margin, the second pushes it to the high one. */
  lemma ClampVariantsDiffer()
    ensures ClampCurrent(0.0, 400.0, Width) == 410.0
    ensures ClampEarly(0.0, 400.0, Width) == 390.0
  {
  }

  /** playerMove, in either copy, leaves a stepped position that already lies in
      [10 + r, WIDTH - 10 - r] x [10 + r, HEIGHT - 10 - r] as it is: each held key
      moved the player by 2.5. The two copies always agree. */
  lemma PlayerMoveBounds(p: Vec, keys: Keys, variant: Variant)
    ensures var s := Stepped(p, keys);
      (Margin + PlayerRadius <= s.x <= Width - Margin - PlayerRadius &&
       Margin + PlayerRadius <= s.y <= Height - Margin - PlayerRadius)
      ==> PlayerMove(p, keys, variant) == s
    ensures PlayerMove(p, keys, Current) == PlayerMove(p, keys, Early)
  {
  }
}
