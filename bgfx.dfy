/**
 * The bgfx benchmark with hardware instancing: a static six-vertex unit quad is drawn once per
 * bunny, and each frame a transient instance buffer receives one `SpriteData` record per bunny.
 * Shaders are read from a directory chosen by the renderer bgfx picked.
 */
module Bgfx {
  import opened Common
  import opened Bunnies
  import opened FrameClocks
  import opened Quads

  /** `Vertex`: position and texture coordinate of the base quad. */
  datatype Vertex = Vertex(x: real, y: real, u: real, v: real)

  /** `vertexBufferData`: two triangles over the unit square, in the order the buffer holds them. */
  const BaseQuad: seq<Vertex> := [
    Vertex(0.0, 1.0, 0.0, 1.0),  // top-left
    Vertex(0.0, 0.0, 0.0, 0.0),  // bottom-left
    Vertex(1.0, 1.0, 1.0, 1.0),  // top-right
    Vertex(1.0, 1.0, 1.0, 1.0),  // top-right
    Vertex(0.0, 0.0, 0.0, 0.0),  // bottom-left
    Vertex(1.0, 0.0, 1.0, 0.0)   // bottom-right
  ]

  function TexCoords(vs: seq<Vertex>): (r: seq<UV>)
    ensures |r| == |vs| && forall k :: 0 <= k < |vs| ==> r[k] == UV(vs[k].u, vs[k].v)
  {
    seq(|vs|, k requires 0 <= k < |vs| => UV(vs[k].u, vs[k].v))
  }

  /**
   * The base quad has six vertices whose texture coordinate equals their position, every
   * component 0 or 1, and its two triangles tile the unit square with one winding.
   */
  lemma BaseQuadTilesUnitSquare()
    ensures |BaseQuad| == 6
    ensures forall k :: 0 <= k < |BaseQuad| ==> BaseQuad[k].u == BaseQuad[k].x && BaseQuad[k].v == BaseQuad[k].y
    ensures TilesUnitSquare(TexCoords(BaseQuad))
  {
    var tl, bl, tr, br := UV(0.0, 1.0), UV(0.0, 0.0), UV(1.0, 1.0), UV(1.0, 0.0);
    var t := [tl, bl, tr, tr, bl, br];
    assert TilesUnitSquare(t) by {
      assert Orientation(tl, bl, tr) == 1.0 && Orientation(tr, bl, br) == 1.0;
      assert MissingCorner(tl, bl, tr) == br && MissingCorner(tr, bl, br) == tl;
      assert t[0] == tl && t[1] == bl && t[2] == tr && t[3] == tr && t[4] == bl && t[5] == br;
    }
    var r := TexCoords(BaseQuad);
    assert r == t by {
      assert r[0] == tl && r[1] == bl && r[2] == tr && r[3] == tr && r[4] == bl && r[5] == br;
    }
  }

  /** `SpriteData`: one 16-float instance record; `p1 .. p3` are padding. */
  datatype SpriteData = SpriteData(
    x: real, y: real, w: real, h: real,
    rotation: real, p1: real, p2: real, p3: real,
    tu: real, tv: real, tw: real, th: real,
    r: real, g: real, b: real, a: real)

  /** The designated initialiser of the fill loop; the members it leaves out are zero-initialised. */
  function InstanceOf(bunny: Bunny, w: real, h: real): SpriteData {
    SpriteData(bunny.x, bunny.y, w, h, 0.0, 0.0, 0.0, 0.0, 0.0, 0.0, 1.0, 1.0, 1.0, 1.0, 1.0, 1.0)
  }

  /**
   * A record places the quad at bunny `i` at texture size with rotation 0, samples the whole
   * texture untinted, and carries zero padding: it depends on nothing but the bunny.
   */
  lemma InstanceRecord(bunny: Bunny, w: real, h: real)
    ensures var d := InstanceOf(bunny, w, h);
      && (d.x, d.y, d.w, d.h, d.rotation) == (bunny.x, bunny.y, w, h, 0.0)
      && (d.p1, d.p2, d.p3) == (0.0, 0.0, 0.0)
      && (d.tu, d.tv, d.tw, d.th) == (0.0, 0.0, 1.0, 1.0)
      && (d.r, d.g, d.b, d.a) == (1.0, 1.0, 1.0, 1.0)
  {
  }

  /** The per-frame fill of the instance buffer allocated for exactly one record per bunny. */
  method FillInstanceData(bunnies: array<Bunny>, spriteData: array<SpriteData>, w: real, h: real)
    requires spriteData.Length == bunnies.Length
    modifies spriteData
    ensures forall i :: 0 <= i < spriteData.Length ==> spriteData[i] == InstanceOf(bunnies[i], w, h)
  {
    for i := 0 to bunnies.Length
      invariant forall j :: 0 <= j < i ==> spriteData[j] == InstanceOf(bunnies[j], w, h)
    {
      var bunny := bunnies[i];
      spriteData[i] := InstanceOf(bunny, w, h);
    }
  }

  //
  // Shader directory selection
  //

  /** `bgfx::RendererType::Enum`. */
  datatype RendererType = Noop | Agc | Direct3D11 | Direct3D12 | Gnm | Metal | Nvn | OpenGLES | OpenGL | Vulkan | Count

  /** The `switch` of `loadShader`; renderers it has no case for leave the string empty. */
  function ShaderDirectory(t: RendererType): string {
    match t
    case Direct3D11 | Direct3D12 => "dx11"
    case Agc | Gnm => "pssl"
    case Metal => "metal"
    case Nvn => "nvn"
    case OpenGL => "glsl"
    case OpenGLES => "essl"
    case Vulkan => "spirv"
    case Noop | Count => ""
  }

  /** Renderers that consume the same compiled shader binaries. */
  predicate SameShaderLanguage(a: RendererType, b: RendererType) {
    || a == b
    || ((a == Direct3D11 || a == Direct3D12) && (b == Direct3D11 || b == Direct3D12))
    || ((a == Agc || a == Gnm) && (b == Agc || b == Gnm))
  }

  /**
   * The directory is empty exactly for the renderers without shaders (`Noop`, `Count`), and two
   * renderers with shaders share a directory exactly when they share a shader language.
   */
  lemma {:induction false} ShaderDirectoryDistinguishesLanguages(a: RendererType, b: RendererType)
    ensures ShaderDirectory(a) == "" <==> a == Noop || a == Count
    ensures ShaderDirectory(a) != "" ==> (ShaderDirectory(a) == ShaderDirectory(b) <==> SameShaderLanguage(a, b))
  {
    match a
    case Noop =>
    case Count =>
    case _ =>
      if ShaderDirectory(a) == ShaderDirectory(b) {
        assert ShaderDirectory(a)[0] == ShaderDirectory(b)[0];
        assert |ShaderDirectory(a)| == |ShaderDirectory(b)|;
      }
  }

  /** The file `loadShader` opens: `<base><dir>/<filename>.bin`. */
  function ShaderPath(baseDir: string, t: RendererType, filename: string): (path: string)
    ensures |path| == |baseDir| + |ShaderDirectory(t)| + |filename| + 5
    ensures path[..|baseDir|] == baseDir
    ensures path[|baseDir|..|baseDir| + |ShaderDirectory(t)| + 1] == ShaderDirectory(t) + "/"
    ensures path[|baseDir| + |ShaderDirectory(t)| + 1 .. |path| - 4] == filename
    ensures path[|path| - 4..] == ".bin"
  {
    baseDir + ShaderDirectory(t) + "/" + filename + ".bin"
  }

  const ShaderBaseDir: string := "shaders/bgfx/compiled/"

  //
  // One frame of the game loop
  //

  /**
   * Tick the clock, move the bunnies by its `dt`, then allocate a fresh instance buffer of one
   * record per bunny and fill it from the moved bunnies in order.
   */
  method Frame(clock: FrameClock, bunnies: array<Bunny>, now: int, w: real, h: real)
    returns (report: Option<u32>, spriteData: array<SpriteData>)
    modifies clock, bunnies
    ensures clock.State() == NextState(old(clock.State()), now)
    ensures report == FpsReport(old(clock.State()), now)
    ensures forall i :: 0 <= i < bunnies.Length ==> bunnies[i] == Advance(old(bunnies[i]), clock.dt)
    ensures fresh(spriteData) && spriteData.Length == bunnies.Length
    ensures forall i :: 0 <= i < spriteData.Length ==> spriteData[i] == InstanceOf(bunnies[i], w, h)
  {
    report := clock.Tick(now);
    Step(bunnies, clock.dt);
    spriteData := new SpriteData[bunnies.Length];
    FillInstanceData(bunnies, spriteData, w, h);
  }
}
