/**
 * The bunny simulation every benchmark shares: a fixed population of sprites created once
 * at the window centre, moved by `velocity * dt` each frame and reflected, axis by axis, when
 * the moved coordinate leaves `[0, bound - 32]`. Coordinates, velocities and `dt` are reals.
 */
module Bunnies {

  const WindowWidth: int := 800
  const WindowHeight: int := 600

  /** The sprite extent the bounds check subtracts from the window size (a literal, not the texture size). */
  const SpriteExtent: int := 32

  datatype Bunny = Bunny(x: real, y: real, vx: real, vy: real)

  /** The update loop's test `p < 0 || p > bound - 32`. */
  predicate OutOfBounds(p: real, bound: int) {
    p < 0.0 || p > (bound - SpriteExtent) as real
  }

  /** `v *= -1` when the updated coordinate is out of bounds. */
  function Reflect(v: real, p: real, bound: int): real {
    if OutOfBounds(p, bound) then -v else v
  }

  /** One bunny's update: move by `v * dt`, then reflect each axis on its own moved coordinate. */
  function Advance(b: Bunny, dt: real): (r: Bunny)
    ensures r.x == b.x + b.vx * dt && r.y == b.y + b.vy * dt
    ensures b.vx != 0.0 ==> (r.vx != b.vx <==> r.x < 0.0 || r.x > 768.0)
    ensures b.vy != 0.0 ==> (r.vy != b.vy <==> r.y < 0.0 || r.y > 568.0)
    ensures r.vx == b.vx || r.vx == -b.vx
    ensures r.vy == b.vy || r.vy == -b.vy
  {
    var x := b.x + b.vx * dt;
    var y := b.y + b.vy * dt;
    Bunny(x, y, Reflect(b.vx, x, WindowWidth), Reflect(b.vy, y, WindowHeight))
  }

  /** The x axis is updated from `x` and `vx` alone, the y axis from `y` and `vy` alone. */
  lemma AxesIndependent(b: Bunny, c: Bunny, dt: real)
    ensures b.x == c.x && b.vx == c.vx ==> Advance(b, dt).x == Advance(c, dt).x && Advance(b, dt).vx == Advance(c, dt).vx
    ensures b.y == c.y && b.vy == c.vy ==> Advance(b, dt).y == Advance(c, dt).y && Advance(b, dt).vy == Advance(c, dt).vy
  {
  }

  /**
   * The reflection is discrete and unclamped: a bunny that left the allowed range on an axis
   * keeps its overshooting coordinate, and that overshoot is at most one frame's displacement.
   */
  lemma {:induction false} OvershootBounded(b: Bunny, dt: real)
    requires 0.0 <= b.x <= 768.0
    ensures var r := Advance(b, dt);
      -Abs(b.vx * dt) <= r.x <= 768.0 + Abs(b.vx * dt)
  {
    var r := Advance(b, dt);
    assert r.x == b.x + b.vx * dt;
  }

  function Abs(v: real): (r: real)
    ensures r >= 0.0 && (r == v || r == -v)
  {
    if v < 0.0 then -v else v
  }

  /**
   * After a reflection on the x axis, a second frame of the same length brings the bunny back
   * to the x coordinate it had before the first frame.
   */
  lemma {:induction false} BounceReturns(b: Bunny, dt: real)
    requires Advance(b, dt).vx != b.vx
    ensures Advance(Advance(b, dt), dt).x == b.x
  {
    var r := Advance(b, dt);
    assert r.vx == -b.vx;
    calc {
      Advance(r, dt).x;
      r.x + r.vx * dt;
      (b.x + b.vx * dt) + (-b.vx) * dt;
      b.x;
    }
  }

  /**
   * The reflection does not look at the direction of travel: a bunny already outside the range
   * and heading back in has its velocity flipped outward again if one short frame leaves it outside.
   */
  lemma ReflectionCanPointOutward()
    ensures var b := Bunny(-1.0, 300.0, 1.0, 0.0);
      var r := Advance(b, 0.5);
      r.x == -0.5 && r.vx == -1.0
  {
  }

  /** The bunnies after a sequence of frames with the given frame times. */
  function AdvanceAll(b: Bunny, dts: seq<real>): Bunny
    decreases |dts|
  {
    if dts == [] then b else AdvanceAll(Advance(b, dts[0]), dts[1..])
  }

  /** Speed is constant for a bunny's lifetime: reflection only ever changes the sign of a component. */
  lemma {:induction false} SpeedPreserved(b: Bunny, dts: seq<real>)
    ensures Abs(AdvanceAll(b, dts).vx) == Abs(b.vx)
    ensures Abs(AdvanceAll(b, dts).vy) == Abs(b.vy)
    decreases |dts|
  {
    if dts != [] {
      var r := Advance(b, dts[0]);
      assert Abs(r.vx) == Abs(b.vx) && Abs(r.vy) == Abs(b.vy);
      SpeedPreserved(r, dts[1..]);
    }
  }

  /** Bunny `i` as created: at the window centre, with the `i`-th pair of random draws as velocity. */
  function Spawned(draws: seq<real>, i: nat): Bunny
    requires 2 * i + 1 < |draws|
  {
    Bunny(WindowWidth as real / 2.0, WindowHeight as real / 2.0, draws[2 * i], draws[2 * i + 1])
  }

  /** The random draws the distribution `{-1, 1}` can produce. */
  predicate UnitRange(draws: seq<real>) {
    forall k :: 0 <= k < |draws| ==> -1.0 <= draws[k] <= 1.0
  }

  /**
   * The initialisation loop: `n` bunnies, bunny `i` taking the draws `2i` (vx) and `2i+1` (vy)
   * from the generator, which is the order the braced initialiser evaluates them in.
   */
  method Populate(n: nat, draws: seq<real>) returns (bunnies: array<Bunny>)
    requires |draws| == 2 * n
    ensures fresh(bunnies) && bunnies.Length == n
    ensures forall i :: 0 <= i < n ==> bunnies[i] == Spawned(draws, i)
    ensures forall i :: 0 <= i < n ==> bunnies[i].x == 400.0 && bunnies[i].y == 300.0
    ensures UnitRange(draws) ==> forall i :: 0 <= i < n ==>
      -1.0 <= bunnies[i].vx <= 1.0 && -1.0 <= bunnies[i].vy <= 1.0
  {
    bunnies := new Bunny[n];
    for i := 0 to n
      invariant forall j :: 0 <= j < i ==> bunnies[j] == Spawned(draws, j)
    {
      bunnies[i] := Spawned(draws, i);
    }
  }

  /** The by-reference update loop over all bunnies. */
  method Step(bunnies: array<Bunny>, dt: real)
    modifies bunnies
    ensures forall i :: 0 <= i < bunnies.Length ==> bunnies[i] == Advance(old(bunnies[i]), dt)
  {
    for i := 0 to bunnies.Length
      invariant forall j :: 0 <= j < i ==> bunnies[j] == Advance(old(bunnies[j]), dt)
      invariant forall j :: i <= j < bunnies.Length ==> bunnies[j] == old(bunnies[j])
    {
      bunnies[i] := Advance(bunnies[i], dt);
    }
  }
}
