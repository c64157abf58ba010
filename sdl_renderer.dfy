/**
 * The SDL renderer benchmark: a fixed array of six vertices per bunny, rewritten each frame by
 * the same loop that moves the bunnies, and drawn as one raw geometry call without an index
 * buffer. Each quad is two triangles, so two of its corners appear twice.
 */
module SdlRenderer {
  import opened Common
  import opened Bunnies
  import opened FrameClocks
  import opened Quads

  /** `Vertex`: position and texture coordinate; colour is one shared value with stride 0. */
  datatype Vertex = Vertex(x: real, y: real, u: real, v: real)

  /** `w / 2` on `int`, which truncates toward zero. */
  function HalfExtent(w: int): (r: int)
    ensures w >= 0 ==> 0 <= w - 2 * r <= 1
    ensures w < 0 ==> -1 <= w - 2 * r <= 0
  {
    if w >= 0 then w / 2 else -((-w) / 2)
  }

  /** Corner `c` of the six a bunny writes, in order: triangles (0,0) (0,1) (1,0) and (1,0) (0,1) (1,1). */
  function QuadVertex(bunny: Bunny, hw: int, hh: int, c: nat): Vertex
    requires c < 6
  {
    var fw, fh := hw as real, hh as real;
    if c == 0 then Vertex(bunny.x - fw, bunny.y - fh, 0.0, 0.0)
    else if c == 1 || c == 4 then Vertex(bunny.x - fw, bunny.y + fh, 0.0, 1.0)
    else if c == 2 || c == 3 then Vertex(bunny.x + fw, bunny.y - fh, 1.0, 0.0)
    else Vertex(bunny.x + fw, bunny.y + fh, 1.0, 1.0)
  }

  /**
   * Every vertex sits where its texture coordinate says on the rectangle `bunny ± (hw, hh)`,
   * with a corner of the texture as coordinate; vertices 3 and 4 repeat vertices 2 and 1.
   */
  lemma QuadVertexMatchesTexCoord(bunny: Bunny, hw: int, hh: int, c: nat)
    requires c < 6
    ensures var p := QuadVertex(bunny, hw, hh, c);
      && p.x == bunny.x - hw as real + 2.0 * hw as real * p.u
      && p.y == bunny.y - hh as real + 2.0 * hh as real * p.v
      && IsCorner(UV(p.u, p.v))
    ensures QuadVertex(bunny, hw, hh, 3) == QuadVertex(bunny, hw, hh, 2)
    ensures QuadVertex(bunny, hw, hh, 4) == QuadVertex(bunny, hw, hh, 1)
  {
  }

  function QuadTexCoords(bunny: Bunny, hw: int, hh: int): (r: seq<UV>)
    ensures |r| == 6
  {
    seq(6, c requires 0 <= c < 6 => var p := QuadVertex(bunny, hw, hh, c); UV(p.u, p.v))
  }

  /** The two triangles of each quad tile the texture, with one winding. */
  lemma QuadTrianglesTile(bunny: Bunny, hw: int, hh: int)
    ensures TilesUnitSquare(QuadTexCoords(bunny, hw, hh))
  {
    var bl, tl, br, tr := UV(0.0, 0.0), UV(0.0, 1.0), UV(1.0, 0.0), UV(1.0, 1.0);
    var t := [bl, tl, br, br, tl, tr];
    assert TilesUnitSquare(t) by {
      assert Orientation(bl, tl, br) == -1.0 && Orientation(br, tl, tr) == -1.0;
      assert MissingCorner(bl, tl, br) == tr && MissingCorner(br, tl, tr) == bl;
      assert t[0] == bl && t[1] == tl && t[2] == br && t[3] == br && t[4] == tl && t[5] == tr;
    }
    var r := QuadTexCoords(bunny, hw, hh);
    assert r == t by {
      assert r[0] == bl && r[1] == tl && r[2] == br && r[3] == br && r[4] == tl && r[5] == tr;
    }
  }

  /**
   * The six stores of one bunny through the pre-incremented cursor: slots `vIdx + 1 .. vIdx + 6`
   * receive its vertices in order, and no other slot changes.
   */
  method WriteQuad(vertices: array<Vertex>, vIdx: int, x: real, y: real, hw: int, hh: int) returns (next: int)
    requires -1 <= vIdx && vIdx + 6 < vertices.Length
    modifies vertices
    ensures next == vIdx + 6
    ensures forall k :: vIdx < k <= next ==> vertices[k] == QuadVertex(Bunny(x, y, 0.0, 0.0), hw, hh, k - vIdx - 1)
    ensures forall k :: 0 <= k < vertices.Length && !(vIdx < k <= next) ==> vertices[k] == old(vertices[k])
  {
    var fw, fh := hw as real, hh as real;
    next := vIdx;
    next := next + 1; vertices[next] := Vertex(x - fw, y - fh, 0.0, 0.0);
    next := next + 1; vertices[next] := Vertex(x - fw, y + fh, 0.0, 1.0);
    next := next + 1; vertices[next] := Vertex(x + fw, y - fh, 1.0, 0.0);
    next := next + 1; vertices[next] := Vertex(x + fw, y - fh, 1.0, 0.0);
    next := next + 1; vertices[next] := Vertex(x - fw, y + fh, 0.0, 1.0);
    next := next + 1; vertices[next] := Vertex(x + fw, y + fh, 1.0, 1.0);
  }

  /** Only a bunny's position enters its vertices. */
  lemma QuadVertexOfPosition(bunny: Bunny, hw: int, hh: int, c: nat)
    requires c < 6
    ensures QuadVertex(bunny, hw, hh, c) == QuadVertex(Bunny(bunny.x, bunny.y, 0.0, 0.0), hw, hh, c)
  {
  }

  /**
   * The fused loop of one frame: each bunny in turn is moved and reflected, then its six
   * vertices are written from the moved position through the `int` cursor that starts at -1 and
   * is pre-incremented. Returns the cursor's final value, the index of the last vertex written.
   */
  method UpdateAndBuild(bunnies: array<Bunny>, vertices: array<Vertex>, dt: real, hw: int, hh: int) returns (vIdx: int)
    requires vertices.Length == 6 * bunnies.Length
    modifies bunnies, vertices
    ensures forall i :: 0 <= i < bunnies.Length ==> bunnies[i] == Advance(old(bunnies[i]), dt)
    ensures forall k :: 0 <= k < vertices.Length ==> vertices[k] == QuadVertex(bunnies[k / 6], hw, hh, k % 6)
    ensures vIdx == vertices.Length - 1
  {
    vIdx := -1;
    for i := 0 to bunnies.Length
      invariant vIdx == 6 * i - 1
      invariant forall j :: 0 <= j < i ==> bunnies[j] == Advance(old(bunnies[j]), dt)
      invariant forall j :: i <= j < bunnies.Length ==> bunnies[j] == old(bunnies[j])
      invariant forall k :: 0 <= k < 6 * i ==> vertices[k] == QuadVertex(bunnies[k / 6], hw, hh, k % 6)
    {
      var b := bunnies[i];
      var x := b.x + b.vx * dt;
      var y := b.y + b.vy * dt;
      var vx := if x < 0.0 || x > (WindowWidth - SpriteExtent) as real then b.vx * -1.0 else b.vx;
      var vy := if y < 0.0 || y > (WindowHeight - SpriteExtent) as real then b.vy * -1.0 else b.vy;
      bunnies[i] := Bunny(x, y, vx, vy);
      vIdx := WriteQuad(vertices, vIdx, x, y, hw, hh);
      forall k | 0 <= k < 6 * (i + 1) ensures vertices[k] == QuadVertex(bunnies[k / 6], hw, hh, k % 6) {
        if k >= 6 * i {
          assert k / 6 == i && k % 6 == k - 6 * i;
          QuadVertexOfPosition(bunnies[i], hw, hh, k % 6);
        } else {
          assert k / 6 < i;
        }
      }
    }
  }

  /** The draw call's vertex count: six per bunny, no indices. */
  function DrawCount(bunnyCount: nat): (r: nat)
    ensures r % 6 == 0 && r / 6 == bunnyCount
  {
    bunnyCount * 6
  }

  /**
   * Tick the clock, then run the fused loop with its `dt`; the geometry call draws every vertex
   * written this frame and none from an earlier one.
   */
  method Frame(clock: FrameClock, bunnies: array<Bunny>, vertices: array<Vertex>, now: int, hw: int, hh: int)
    returns (report: Option<u32>, drawCount: nat)
    requires vertices.Length == 6 * bunnies.Length
    modifies clock, bunnies, vertices
    ensures clock.State() == NextState(old(clock.State()), now)
    ensures report == FpsReport(old(clock.State()), now)
    ensures forall i :: 0 <= i < bunnies.Length ==> bunnies[i] == Advance(old(bunnies[i]), clock.dt)
    ensures forall k :: 0 <= k < vertices.Length ==> vertices[k] == QuadVertex(bunnies[k / 6], hw, hh, k % 6)
    ensures drawCount == vertices.Length
  {
    report := clock.Tick(now);
    var last := UpdateAndBuild(bunnies, vertices, clock.dt, hw, hh);
    drawCount := DrawCount(bunnies.Length);
  }
}
