/**
 * The bgfx benchmark without instancing: a static 32-bit index buffer of six indices per bunny
 * is built once, and each frame a transient vertex buffer receives the four corners of every
 * bunny's quad.
 */
module BgfxSimple {
  import opened Common
  import opened Bunnies
  import opened FrameClocks
  import opened Quads
  import Bgfx

  //
  // Static index buffer
  //

  /** The six indices of one sprite, relative to its first vertex: triangles 0-1-2 and 0-2-3. */
  const IndexPattern: seq<u32> := [0, 1, 2, 0, 2, 3]

  /** The value slot `k` of the index buffer is meant to hold. */
  function IndexAt(k: nat): nat {
    4 * (k / 6) + IndexPattern[k % 6] as int
  }

  lemma {:induction false} IndexAtSlot(i: nat, c: nat)
    requires c < 6
    ensures (6 * i + c) / 6 == i && (6 * i + c) % 6 == c
    ensures IndexAt(6 * i + c) == 4 * i + IndexPattern[c] as int
  {
  }

  /**
   * The index-buffer loop, with the `uint32_t` cursor that starts at `(uint32_t)-1` and is
   * pre-incremented before every store. The ghost `written` lists the slots stored to, in order:
   * slot `j` is the `j`-th store, so each slot of the buffer is written exactly once and no store
   * falls outside it.
   */
  method BuildIndexBuffer(n: nat, indices: array<u32>) returns (ghost written: seq<int>)
    requires indices.Length == 6 * n
    requires 6 * n <= U32Modulus
    modifies indices
    ensures forall k :: 0 <= k < indices.Length ==> indices[k] as int == IndexAt(k)
    ensures |written| == indices.Length && forall j :: 0 <= j < |written| ==> written[j] == j
  {
    var idx: u32 := U32Max;
    written := [];
    for i := 0 to n
      invariant idx as int == if i == 0 then U32Max as int else 6 * i - 1
      invariant |written| == 6 * i && forall j :: 0 <= j < |written| ==> written[j] == j
      invariant forall k :: 0 <= k < 6 * i ==> indices[k] as int == IndexAt(k)
    {
      var base: u32 := (i * 4) as u32;
      idx := Increment(idx); indices[idx] := base + 0; written := written + [idx as int];
      assert idx as int == 6 * i;
      idx := Increment(idx); indices[idx] := base + 1; written := written + [idx as int];
      idx := Increment(idx); indices[idx] := base + 2; written := written + [idx as int];
      idx := Increment(idx); indices[idx] := base + 0; written := written + [idx as int];
      idx := Increment(idx); indices[idx] := base + 2; written := written + [idx as int];
      idx := Increment(idx); indices[idx] := base + 3; written := written + [idx as int];
      forall k | 0 <= k < 6 * (i + 1) ensures indices[k] as int == IndexAt(k) {
        if k >= 6 * i {
          IndexAtSlot(i, k - 6 * i);
        }
      }
    }
  }

  /**
   * Every index is below `4 n`, the vertex count of the per-frame buffer, and the six indices of
   * sprite `i` name only its own vertices `4i .. 4i + 3`, as the corner `IndexPattern` selects.
   */
  lemma {:induction false} IndexWithinSprite(n: nat, k: nat)
    requires k < 6 * n
    ensures IndexAt(k) < 4 * n
    ensures IndexAt(k) / 4 == k / 6 && IndexAt(k) % 4 == IndexPattern[k % 6] as int
  {
    var i, c := k / 6, k % 6;
    assert k == 6 * i + c;
    IndexAtSlot(i, c);
    assert i < n;
    var v := IndexAt(k);
    assert v == 4 * i + IndexPattern[c] as int;
    assert 0 <= IndexPattern[c] < 4;
  }

  //
  // Per-frame vertices
  //

  /** `Vertex`: position, texture coordinate and packed RGBA colour. */
  datatype Vertex = Vertex(x: real, y: real, u: real, v: real, color: u32)

  const White: u32 := 0xFFFF_FFFF

  /** Corner `c` of a bunny's quad: top-left, top-right, bottom-right, bottom-left. */
  function Corner(bunny: Bunny, hw: u16, hh: u16, c: nat): Vertex
    requires c < 4
  {
    var fw, fh := hw as real, hh as real;
    if c == 0 then Vertex(bunny.x - fw, bunny.y + fh, 0.0, 1.0, White)
    else if c == 1 then Vertex(bunny.x + fw, bunny.y + fh, 1.0, 1.0, White)
    else if c == 2 then Vertex(bunny.x + fw, bunny.y - fh, 1.0, 0.0, White)
    else Vertex(bunny.x - fw, bunny.y - fh, 0.0, 0.0, White)
  }

  /** The texture coordinate of corner `c`. */
  function CornerTexCoord(c: nat): UV
    requires c < 4
  {
    if c == 0 then UV(0.0, 1.0) else if c == 1 then UV(1.0, 1.0) else if c == 2 then UV(1.0, 0.0) else UV(0.0, 0.0)
  }

  /**
   * Each corner carries the texture coordinate of its corner of the texture, sits where that
   * coordinate says on the rectangle `bunny ± (hw, hh)`, and is opaque white.
   */
  lemma CornerMatchesTexCoord(bunny: Bunny, hw: u16, hh: u16, c: nat)
    requires c < 4
    ensures var p := Corner(bunny, hw, hh, c);
      && UV(p.u, p.v) == CornerTexCoord(c) && IsCorner(UV(p.u, p.v))
      && p.x == bunny.x - hw as real + 2.0 * hw as real * p.u
      && p.y == bunny.y - hh as real + 2.0 * hh as real * p.v
      && p.color == White
  {
  }

  /** The texture coordinates the six indices of a sprite select. */
  function IndexedTexCoords(): (r: seq<UV>)
    ensures |r| == 6 && forall j :: 0 <= j < 6 ==> r[j] == CornerTexCoord(IndexPattern[j] as nat)
  {
    seq(6, j requires 0 <= j < 6 => CornerTexCoord(IndexPattern[j] as nat))
  }

  /** The two triangles the index pattern forms over the four corners tile the texture, with one winding. */
  lemma IndexedTrianglesTile()
    ensures TilesUnitSquare(IndexedTexCoords())
  {
    var tl, tr, br, bl := UV(0.0, 1.0), UV(1.0, 1.0), UV(1.0, 0.0), UV(0.0, 0.0);
    var t := [tl, tr, br, tl, br, bl];
    assert TilesUnitSquare(t) by {
      assert Orientation(tl, tr, br) == -1.0 && Orientation(tl, br, bl) == -1.0;
      assert MissingCorner(tl, tr, br) == bl && MissingCorner(tl, br, bl) == tr;
      assert t[0] == tl && t[1] == tr && t[2] == br && t[3] == tl && t[4] == br && t[5] == bl;
    }
    var r := IndexedTexCoords();
    assert r == t by {
      assert IndexPattern[3] == 0 && IndexPattern[4] == 2 && IndexPattern[5] == 3;
      assert r[0] == tl && r[1] == tr && r[2] == br && r[3] == tl && r[4] == br && r[5] == bl;
    }
  }

  /**
   * The per-frame fill of the transient vertex buffer of `4 n` vertices, with its own `int` cursor
   * starting at -1: bunny `i` fills exactly `data[4i .. 4i + 3]`, in bunny order.
   */
  method FillVertices(bunnies: array<Bunny>, data: array<Vertex>, hw: u16, hh: u16) returns (ghost written: seq<int>)
    requires data.Length == 4 * bunnies.Length
    modifies data
    ensures forall k :: 0 <= k < data.Length ==> data[k] == Corner(bunnies[k / 4], hw, hh, k % 4)
    ensures |written| == data.Length && forall j :: 0 <= j < |written| ==> written[j] == j
  {
    var idx := -1;
    written := [];
    for i := 0 to bunnies.Length
      invariant idx == 4 * i - 1
      invariant |written| == 4 * i && forall j :: 0 <= j < |written| ==> written[j] == j
      invariant forall k :: 0 <= k < 4 * i ==> data[k] == Corner(bunnies[k / 4], hw, hh, k % 4)
    {
      var b := bunnies[i];
      idx := idx + 1; data[idx] := Vertex(b.x - hw as real, b.y + hh as real, 0.0, 1.0, White); written := written + [idx];
      idx := idx + 1; data[idx] := Vertex(b.x + hw as real, b.y + hh as real, 1.0, 1.0, White); written := written + [idx];
      idx := idx + 1; data[idx] := Vertex(b.x + hw as real, b.y - hh as real, 1.0, 0.0, White); written := written + [idx];
      idx := idx + 1; data[idx] := Vertex(b.x - hw as real, b.y - hh as real, 0.0, 0.0, White); written := written + [idx];
      forall k | 0 <= k < 4 * (i + 1) ensures data[k] == Corner(bunnies[k / 4], hw, hh, k % 4) {
        if k >= 4 * i {
          assert k / 4 == i && k % 4 == k - 4 * i;
        }
      }
    }
  }

  /**
   * Index buffer and vertex buffer agree: the vertex slot `k` of the index buffer selects is the
   * corner `IndexPattern[k % 6]` of bunny `k / 6`, and it lies inside the buffer.
   */
  lemma {:induction false} IndexedVertexOfSprite(bunnies: seq<Bunny>, hw: u16, hh: u16, k: nat)
    requires k < 6 * |bunnies|
    ensures IndexAt(k) < 4 * |bunnies|
    ensures Corner(bunnies[IndexAt(k) / 4], hw, hh, IndexAt(k) % 4) == Corner(bunnies[k / 6], hw, hh, IndexPattern[k % 6] as nat)
  {
    IndexWithinSprite(|bunnies|, k);
  }

  //
  // Texture extents
  //

  /** `w / 2` on `uint16_t`: truncating division. */
  function HalfExtent(w: u16): (r: u16)
    ensures 2 * r as int <= w as int <= 2 * r as int + 1
  {
    w / 2
  }

  /** The image's width is narrowed to `uint16_t` before it is halved. */
  lemma HalfOfNarrowedExtent(width: nat)
    requires width < U16Modulus
    ensures 2 * HalfExtent(NarrowToU16(width)) as int <= width <= 2 * HalfExtent(NarrowToU16(width)) as int + 1
  {
  }

  /** `loadShader` here differs from the instanced benchmark's only in its base directory. */
  const ShaderBaseDir: string := "shaders/bgfx_simple/"

  /** The two bgfx benchmarks never read each other's shader binaries, whatever the renderers and names. */
  lemma {:induction false} ShaderPathsDisjoint(t: Bgfx.RendererType, u: Bgfx.RendererType, name: string, other: string)
    ensures Bgfx.ShaderPath(ShaderBaseDir, t, name) != Bgfx.ShaderPath(Bgfx.ShaderBaseDir, u, other)
  {
    var p, q := Bgfx.ShaderPath(ShaderBaseDir, t, name), Bgfx.ShaderPath(Bgfx.ShaderBaseDir, u, other);
    assert p[..|ShaderBaseDir|] == ShaderBaseDir;
    assert q[..|Bgfx.ShaderBaseDir|] == Bgfx.ShaderBaseDir;
    assert p[12] == ShaderBaseDir[12] == '_';
    assert q[12] == Bgfx.ShaderBaseDir[12] == '/';
  }

  //
  // One frame of the game loop
  //

  /**
   * Tick the clock, move the bunnies by its `dt`, then allocate a fresh transient vertex buffer
   * of four vertices per bunny and fill it from the moved bunnies.
   */
  method Frame(clock: FrameClock, bunnies: array<Bunny>, now: int, hw: u16, hh: u16)
    returns (report: Option<u32>, data: array<Vertex>)
    modifies clock, bunnies
    ensures clock.State() == NextState(old(clock.State()), now)
    ensures report == FpsReport(old(clock.State()), now)
    ensures forall i :: 0 <= i < bunnies.Length ==> bunnies[i] == Advance(old(bunnies[i]), clock.dt)
    ensures fresh(data) && data.Length == 4 * bunnies.Length
    ensures forall k :: 0 <= k < data.Length ==> data[k] == Corner(bunnies[k / 4], hw, hh, k % 4)
  {
    report := clock.Tick(now);
    Step(bunnies, clock.dt);
    data := new Vertex[4 * bunnies.Length];
    var _ := FillVertices(bunnies, data, hw, hh);
  }
}
