/**
 * The SDL_gpu benchmark: no vertex data of its own; the update loop issues one blit of the
 * bunny texture per bunny, at the bunny's moved position, in bunny order.
 */
module Sdl2Gpu {
  import opened Common
  import opened Bunnies
  import opened FrameClocks

  /** One `GPU_Blit` call: the position the texture is drawn at. */
  datatype Blit = Blit(x: real, y: real)

  /** The blits a frame issues for the bunnies as they stand after the update. */
  function BlitsOf(bunnies: seq<Bunny>): (r: seq<Blit>)
    ensures |r| == |bunnies|
    ensures forall i :: 0 <= i < |bunnies| ==> r[i] == Blit(bunnies[i].x, bunnies[i].y)
  {
    seq(|bunnies|, i requires 0 <= i < |bunnies| => Blit(bunnies[i].x, bunnies[i].y))
  }

  /**
   * The update loop: each bunny is moved and reflected in place and then blitted, so the
   * `i`-th blit is at bunny `i`'s new position, after the bunnies before it were moved.
   */
  method UpdateAndBlit(bunnies: array<Bunny>, dt: real) returns (blits: seq<Blit>)
    modifies bunnies
    ensures forall i :: 0 <= i < bunnies.Length ==> bunnies[i] == Advance(old(bunnies[i]), dt)
    ensures blits == BlitsOf(bunnies[..])
  {
    blits := [];
    for i := 0 to bunnies.Length
      invariant forall j :: 0 <= j < i ==> bunnies[j] == Advance(old(bunnies[j]), dt)
      invariant forall j :: i <= j < bunnies.Length ==> bunnies[j] == old(bunnies[j])
      invariant blits == BlitsOf(bunnies[..i])
    {
      var b := Advance(bunnies[i], dt);
      bunnies[i] := b;
      blits := blits + [Blit(b.x, b.y)];
      assert bunnies[..i + 1] == bunnies[..i] + [b];
    }
    assert bunnies[..] == bunnies[..bunnies.Length];
  }

  /** Tick the clock, then update and blit every bunny with its `dt`. */
  method Frame(clock: FrameClock, bunnies: array<Bunny>, now: int) returns (report: Option<u32>, blits: seq<Blit>)
    modifies clock, bunnies
    ensures clock.State() == NextState(old(clock.State()), now)
    ensures report == FpsReport(old(clock.State()), now)
    ensures forall i :: 0 <= i < bunnies.Length ==> bunnies[i] == Advance(old(bunnies[i]), clock.dt)
    ensures blits == BlitsOf(bunnies[..])
  {
    report := clock.Tick(now);
    blits := UpdateAndBlit(bunnies, clock.dt);
  }
}
