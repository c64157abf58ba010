/**
 * The SDL3 GPU benchmark: one 16-float sprite record per bunny, written into a mapped transfer
 * buffer and pulled by the vertex stage from a storage buffer; shaders are chosen by the
 * formats the device supports; the camera is an orthographic projection of the window.
 */
module Sdl3Gpu {
  import opened Common
  import opened Bunnies
  import opened FrameClocks

  /** `SpriteInstance`: the 16 floats of one storage-buffer record, in memory order. */
  datatype SpriteInstance = SpriteInstance(
    x: real, y: real, z: real, rotation: real,
    w: real, h: real, paddingA: real, paddingB: real,
    texU: real, texV: real, texW: real, texH: real,
    r: real, g: real, b: real, a: real)

  /**
   * Record `prev` after the fill loop has assigned its fields from `bunny`. The loop assigns
   * every field but the two padding words, which keep whatever the mapped buffer held.
   */
  function Encoded(prev: SpriteInstance, bunny: Bunny, width: nat, height: nat): SpriteInstance {
    prev.(x := bunny.x, y := bunny.y, z := 0.0, rotation := 0.0,
          w := width as real, h := height as real,
          texU := 0.0, texV := 0.0, texW := 1.0, texH := 1.0,
          r := 1.0, g := 1.0, b := 1.0, a := 1.0)
  }

  /**
   * A record tells the shader where bunny `i` is and draws the whole texture, untinted, at
   * texture size; its previous content survives only in the two padding words.
   */
  lemma EncodedRecord(p: SpriteInstance, q: SpriteInstance, bunny: Bunny, width: nat, height: nat)
    ensures var e := Encoded(p, bunny, width, height);
      && (e.x, e.y, e.z, e.rotation) == (bunny.x, bunny.y, 0.0, 0.0)
      && (e.w, e.h) == (width as real, height as real)
      && (e.texU, e.texV, e.texW, e.texH) == (0.0, 0.0, 1.0, 1.0)
      && (e.r, e.g, e.b, e.a) == (1.0, 1.0, 1.0, 1.0)
      && (e.paddingA, e.paddingB) == (p.paddingA, p.paddingB)
    ensures Encoded(q, bunny, width, height) == Encoded(p, bunny, width, height).(paddingA := q.paddingA, paddingB := q.paddingB)
  {
  }

  /**
   * The per-frame fill of the mapped transfer buffer, which is sized for exactly one record per
   * bunny: record `i` is encoded from bunny `i`, and the bunnies are only read.
   */
  method FillSpriteInstances(bunnies: array<Bunny>, data: array<SpriteInstance>, width: nat, height: nat)
    requires data.Length == bunnies.Length
    modifies data
    ensures forall i :: 0 <= i < data.Length ==> data[i] == Encoded(old(data[i]), bunnies[i], width, height)
  {
    for i := 0 to bunnies.Length
      invariant forall j :: 0 <= j < i ==> data[j] == Encoded(old(data[j]), bunnies[j], width, height)
      invariant forall j :: i <= j < data.Length ==> data[j] == old(data[j])
    {
      var bunny := bunnies[i];
      data[i] := data[i].(x := bunny.x, y := bunny.y);
      data[i] := data[i].(z := 0.0, rotation := 0.0);
      data[i] := data[i].(w := width as real, h := height as real);
      data[i] := data[i].(texU := 0.0, texV := 0.0, texW := 1.0, texH := 1.0);
      data[i] := data[i].(r := 1.0, g := 1.0, b := 1.0, a := 1.0);
    }
  }

  /** Six vertices are drawn per bunny; the vertex stage reads record `vertex / 6`. */
  function PulledRecord(vertex: nat): nat {
    vertex / 6
  }

  /**
   * Every vertex of the draw of `6 n` vertices pulls one of the `n` records written this frame,
   * and record `i` is pulled by exactly the vertices `6i .. 6i + 5`.
   */
  lemma {:induction false} PulledRecordsWritten(n: nat, vertex: nat)
    requires vertex < 6 * n
    ensures PulledRecord(vertex) < n
    ensures 6 * PulledRecord(vertex) <= vertex < 6 * PulledRecord(vertex) + 6
  {
  }

  //
  // Shader format selection
  //

  /** `SDL_GPUShaderFormat` flags. */
  const FormatSpirv: bv32 := 0x02
  const FormatDxil: bv32 := 0x08
  const FormatMsl: bv32 := 0x10

  /** The formats the loader tries, highest priority first. */
  const Preference: seq<bv32> := [FormatSpirv, FormatMsl, FormatDxil]

  /** `supportedFormats & format`, the test the loader makes for each format. */
  predicate Supports(supported: bv32, format: bv32) {
    supported & format != 0
  }

  const ShaderBasePath: string := "../shaders/sdl/compiled"

  /** Size of the `fullPath` buffer the path is formatted into. */
  const PathCapacity: nat := 256

  datatype ShaderSource = ShaderSource(path: string, format: bv32, entrypoint: string)

  function Extension(format: bv32): string {
    if format == FormatSpirv then ".spv" else if format == FormatMsl then ".msl" else ".dxil"
  }

  /** `snprintf` into a buffer of `capacity` bytes keeps at most `capacity - 1` characters. */
  function Truncated(s: string, capacity: nat): (r: string)
    requires capacity > 0
    ensures |r| < capacity && |r| <= |s| && r == s[..|r|]
    ensures |s| < capacity ==> r == s
    ensures |s| >= capacity ==> |r| == capacity - 1
  {
    if |s| < capacity then s else s[..capacity - 1]
  }

  /** The `"%s/%s<ext>"` path formatted into `fullPath`. */
  function ShaderPath(shaderFilename: string, extension: string): string {
    Truncated(ShaderBasePath + "/" + shaderFilename + extension, PathCapacity)
  }

  /**
   * The format decision of `loadShader`: the first of SPIR-V, MSL and DXIL the device supports,
   * with its file extension and entry point, or the error it sets when it supports none of them.
   */
  function SelectShader(supported: bv32, shaderFilename: string): (r: Result<ShaderSource>)
    ensures r.Err? <==> forall k :: 0 <= k < |Preference| ==> !Supports(supported, Preference[k])
    ensures r.Err? ==> r.message == "Unknown shader format"
    ensures r.Ok? ==> exists k :: (0 <= k < |Preference| && r.value.format == Preference[k]
      && Supports(supported, Preference[k])
      && forall j :: 0 <= j < k ==> !Supports(supported, Preference[j]))
    ensures r.Ok? ==> r.value.entrypoint == if r.value.format == FormatMsl then "main0" else "main"
    ensures r.Ok? ==> r.value.path == ShaderPath(shaderFilename, Extension(r.value.format))
  {
    assert Preference[0] == FormatSpirv && Preference[1] == FormatMsl && Preference[2] == FormatDxil;
    if Supports(supported, FormatSpirv) then
      Ok(ShaderSource(ShaderPath(shaderFilename, ".spv"), FormatSpirv, "main"))
    else if Supports(supported, FormatMsl) then
      Ok(ShaderSource(ShaderPath(shaderFilename, ".msl"), FormatMsl, "main0"))
    else if Supports(supported, FormatDxil) then
      Ok(ShaderSource(ShaderPath(shaderFilename, ".dxil"), FormatDxil, "main"))
    else
      Err("Unknown shader format")
  }

  /** The device this benchmark creates accepts all three formats, so the Vulkan path wins when present. */
  lemma SpirvPreferred(supported: bv32, shaderFilename: string)
    requires Supports(supported, FormatSpirv)
    ensures SelectShader(supported, shaderFilename).Ok?
    ensures SelectShader(supported, shaderFilename).value.format == FormatSpirv
  {
  }

  //
  // Camera
  //

  datatype Matrix4x4 = Matrix4x4(
    m11: real, m12: real, m13: real, m14: real,
    m21: real, m22: real, m23: real, m24: real,
    m31: real, m32: real, m33: real, m34: real,
    m41: real, m42: real, m43: real, m44: real)

  datatype Vec4 = Vec4(x: real, y: real, z: real, w: real)

  function CreateOrthographicOffCenter(left: real, right: real, bottom: real, top: real, zNearPlane: real, zFarPlane: real): Matrix4x4
    requires left != right && bottom != top && zNearPlane != zFarPlane
  {
    Matrix4x4(
      2.0 / (right - left), 0.0, 0.0, 0.0,
      0.0, 2.0 / (top - bottom), 0.0, 0.0,
      0.0, 0.0, 1.0 / (zNearPlane - zFarPlane), 0.0,
      (left + right) / (left - right), (top + bottom) / (bottom - top), zNearPlane / (zNearPlane - zFarPlane), 1.0)
  }

  /** A point as a row vector times the matrix; the translation sits in the fourth row. */
  function Transform(p: Vec4, m: Matrix4x4): Vec4 {
    Vec4(
      p.x * m.m11 + p.y * m.m21 + p.z * m.m31 + p.w * m.m41,
      p.x * m.m12 + p.y * m.m22 + p.z * m.m32 + p.w * m.m42,
      p.x * m.m13 + p.y * m.m23 + p.z * m.m33 + p.w * m.m43,
      p.x * m.m14 + p.y * m.m24 + p.z * m.m34 + p.w * m.m44)
  }

  /**
   * The projection maps `[left, right]` onto `[-1, 1]`, `[bottom, top]` onto `[-1, 1]` and depth
   * `-zNear .. -zFar` onto `0 .. 1`, each axis on its own, and keeps `w = 1`.
   */
  lemma {:induction false} OrthographicMapsViewVolume(left: real, right: real, bottom: real, top: real, zNearPlane: real, zFarPlane: real, x: real, y: real, z: real)
    requires left != right && bottom != top && zNearPlane != zFarPlane
    ensures Transform(Vec4(x, y, z, 1.0), CreateOrthographicOffCenter(left, right, bottom, top, zNearPlane, zFarPlane))
      == Vec4(-1.0 + 2.0 * (x - left) / (right - left),
              -1.0 + 2.0 * (y - bottom) / (top - bottom),
              (z + zNearPlane) / (zNearPlane - zFarPlane),
              1.0)
  {
    var m := CreateOrthographicOffCenter(left, right, bottom, top, zNearPlane, zFarPlane);
    assert x * m.m11 + m.m41 == -1.0 + 2.0 * (x - left) / (right - left) by {
      assert (left + right) / (left - right) == -(left + right) / (right - left);
      assert x * (2.0 / (right - left)) == 2.0 * x / (right - left);
    }
    assert y * m.m22 + m.m42 == -1.0 + 2.0 * (y - bottom) / (top - bottom) by {
      assert (top + bottom) / (bottom - top) == -(top + bottom) / (top - bottom);
      assert y * (2.0 / (top - bottom)) == 2.0 * y / (top - bottom);
    }
    assert z * m.m33 + m.m43 == (z + zNearPlane) / (zNearPlane - zFarPlane);
  }

  /** The benchmark's camera puts pixel (0, 0) at the top-left of clip space and (800, 600) at the bottom-right. */
  lemma CameraMapsWindow()
    ensures var cam := CreateOrthographicOffCenter(0.0, WindowWidth as real, WindowHeight as real, 0.0, 0.0, -1.0);
      && Transform(Vec4(0.0, 0.0, 0.0, 1.0), cam) == Vec4(-1.0, 1.0, 0.0, 1.0)
      && Transform(Vec4(800.0, 600.0, 0.0, 1.0), cam) == Vec4(1.0, -1.0, 0.0, 1.0)
  {
    var cam := CreateOrthographicOffCenter(0.0, WindowWidth as real, WindowHeight as real, 0.0, 0.0, -1.0);
    assert cam == Matrix4x4(
      1.0 / 400.0, 0.0, 0.0, 0.0,
      0.0, -1.0 / 300.0, 0.0, 0.0,
      0.0, 0.0, 1.0, 0.0,
      -1.0, 1.0, 0.0, 1.0);
  }

  //
  // One frame of the game loop
  //

  /**
   * Tick the clock, move the bunnies by its `dt`, and encode the moved bunnies into the mapped
   * transfer buffer; returns the FPS report and the vertex count of the draw, six per bunny.
   */
  method Frame(clock: FrameClock, bunnies: array<Bunny>, transfer: array<SpriteInstance>, now: int, width: nat, height: nat)
    returns (report: Option<u32>, vertexCount: nat)
    requires transfer.Length == bunnies.Length
    modifies clock, bunnies, transfer
    ensures clock.State() == NextState(old(clock.State()), now)
    ensures report == FpsReport(old(clock.State()), now)
    ensures forall i :: 0 <= i < bunnies.Length ==> bunnies[i] == Advance(old(bunnies[i]), clock.dt)
    ensures forall i :: 0 <= i < transfer.Length ==> transfer[i] == Encoded(old(transfer[i]), bunnies[i], width, height)
    ensures vertexCount == 6 * transfer.Length
  {
    report := clock.Tick(now);
    Step(bunnies, clock.dt);
    FillSpriteInstances(bunnies, transfer, width, height);
    vertexCount := bunnies.Length * 6;
  }
}
