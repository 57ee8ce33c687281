/** Rendering a whole frame: every 3-byte chunk of the screen buffer is one pixel,
    traced through the camera and converted to output bytes. */
module Draw {
  import opened Vectors
  import opened Utils
  import opened Constants
  import opened Raytracing

  /** Column of pixel `idx` in the row-major screen. */
  function PixelColumn(idx: nat): (u: nat)
    ensures u < SCREEN_WIDTH
  {
    idx % SCREEN_WIDTH
  }

  /** Row of pixel `idx` in the row-major screen. */
  function PixelRow(idx: nat): (v: nat)
    ensures idx < SCREEN_WIDTH * SCREEN_HEIGHT ==> v < SCREEN_HEIGHT
  {
    idx / SCREEN_WIDTH
  }

  /** Column and row are exactly the pixel's position in a row-major layout. */
  lemma PixelPosition(u: nat, v: nat)
    requires u < SCREEN_WIDTH
    ensures PixelColumn(v * SCREEN_WIDTH + u) == u
    ensures PixelRow(v * SCREEN_WIDTH + u) == v
  {
    DivModUnique(v * SCREEN_WIDTH + u, SCREEN_WIDTH, v, u);
  }

  lemma DivModUnique(n: nat, d: nat, q: nat, r: nat)
    requires 0 < d && r < d && n == q * d + r
    ensures n / d == q && n % d == r
  {
    var q0, r0 := n / d, n % d;
    assert (q0 - q) * d == r - r0;
    SmallMultipleIsZero(q0 - q, d);
  }

  lemma SmallMultipleIsZero(x: int, d: int)
    requires 0 < d && -d < x * d < d
    ensures x == 0
  {
    if x >= 1 {
      assert false;
    } else if x <= -1 {
      assert false;
    }
  }

  /** Horizontal viewport coordinate of pixel `idx`. */
  function ScreenX(idx: nat): real {
    PixelColumn(idx) as real / (SCREEN_WIDTH - 1) as real
  }

  /** Vertical viewport coordinate of pixel `idx`. */
  function ScreenY(idx: nat): real {
    PixelRow(idx) as real / (SCREEN_HEIGHT - 1) as real
  }

  /** The columns span the viewport from 0 at the first to 1 at the last; the rows
      of the screen span it from 0 at the first row to 1 at the last. */
  lemma ScreenCoordinates(idx: nat)
    ensures 0.0 <= ScreenX(idx) <= 1.0
    ensures PixelColumn(idx) == 0 ==> ScreenX(idx) == 0.0
    ensures PixelColumn(idx) == SCREEN_WIDTH - 1 ==> ScreenX(idx) == 1.0
    ensures 0.0 <= ScreenY(idx)
    ensures idx < SCREEN_WIDTH * SCREEN_HEIGHT ==> ScreenY(idx) <= 1.0
    ensures PixelRow(idx) == 0 ==> ScreenY(idx) == 0.0
    ensures PixelRow(idx) == SCREEN_HEIGHT - 1 ==> ScreenY(idx) == 1.0
  {
  }

  /** The output bytes of the colour seen along `ray` with the full bounce budget. */
  function Shade(m: MathLib, ray: Ray, scene: Scene, scatter: nat -> Vec3): Rgb
    requires scene.Valid()
  {
    CorrectForOutput(m, Trace(m, ray, scene, REFLECT_DEPTH, scatter))
  }

  /** The bytes of pixel `idx`: the camera ray through its viewport point, traced
      with the pixel's own random samples. */
  function PixelColour(m: MathLib, view: CameraView, scene: Scene, idx: nat, scatter: nat -> Vec3): Rgb
    requires scene.Valid()
  {
    Shade(m, view.CameraRay(m, ScreenX(idx), ScreenY(idx)), scene, scatter)
  }

  /** The renderer of every pixel, pixel `idx` traced with the samples `samples(idx)`. */
  function Pixels(m: MathLib, view: CameraView, scene: Scene, samples: nat -> nat -> Vec3): nat -> Rgb
    requires scene.Valid()
  {
    (idx: nat) => PixelColour(m, view, scene, idx, samples(idx))
  }

  /** Byte `k` of a pixel: red, green, blue. */
  function ByteOf(c: Rgb, k: nat): Byte
    requires k < 3
  {
    if k == 0 then c.r else if k == 1 then c.g else c.b
  }

  /** An empty scene draws the sky gradient seen along each pixel's ray. */
  lemma EmptySceneDrawsSky(m: MathLib, view: CameraView, scene: Scene, idx: nat, scatter: nat -> Vec3)
    requires scene.objects == []
    ensures scene.Valid()
    ensures PixelColour(m, view, scene, idx, scatter)
         == CorrectForOutput(m, Background(view.CameraRay(m, ScreenX(idx), ScreenY(idx)).dir))
  {
    var ray := view.CameraRay(m, ScreenX(idx), ScreenY(idx));
    assert Nearest(scene.objects, m, ray).None?;
    TraceCases(m, ray, scene, REFLECT_DEPTH, scatter);
  }

  /** A scene without Lambertian objects draws the same frame whatever the random
      samples are. */
  lemma FrameIgnoresSamplesWithoutLambertian(
    m: MathLib, view: CameraView, scene: Scene, idx: nat, scatter1: nat -> Vec3, scatter2: nat -> Vec3)
    requires scene.Valid()
    requires forall i :: 0 <= i < |scene.objects| ==> scene.objects[i].GetMaterial() != Lambertian
    ensures PixelColour(m, view, scene, idx, scatter1) == PixelColour(m, view, scene, idx, scatter2)
  {
    var ray := view.CameraRay(m, ScreenX(idx), ScreenY(idx));
    TraceIgnoresScatterWithoutLambertian(m, ray, scene, REFLECT_DEPTH, scatter1, scatter2);
  }

  /** Pixel colours laid out as bytes, three per pixel, in order. */
  function Flatten(pixels: seq<Rgb>): (r: seq<Byte>)
    ensures |r| == 3 * |pixels|
  {
    if pixels == [] then []
    else
      var c := pixels[|pixels| - 1];
      Flatten(pixels[..|pixels| - 1]) + [c.r, c.g, c.b]
  }

  /** Byte `3 * idx + k` of the layout is byte `k` of pixel `idx`. */
  lemma {:induction false} FlattenPlacesPixels(pixels: seq<Rgb>, idx: nat, k: nat)
    requires idx < |pixels| && k < 3
    ensures Flatten(pixels)[3 * idx + k] == ByteOf(pixels[idx], k)
  {
    var n := |pixels|;
    if idx < n - 1 {
      FlattenPlacesPixels(pixels[..n - 1], idx, k);
    }
  }

  /** The colours of the first `n` pixels, in screen order. */
  function Frame(pixel: nat -> Rgb, n: nat): (r: seq<Rgb>)
    ensures |r| == n
  {
    if n == 0 then [] else Frame(pixel, n - 1) + [pixel(n - 1)]
  }

  /** Entry `idx` of the frame is the colour of pixel `idx`. */
  lemma {:induction false} FrameIsPixels(pixel: nat -> Rgb, n: nat, idx: nat)
    requires idx < n
    ensures Frame(pixel, n)[idx] == pixel(idx)
  {
    if idx < n - 1 {
      FrameIsPixels(pixel, n - 1, idx);
    }
  }

  /** One more pixel appends its three bytes to the layout. */
  lemma FlattenFrameStep(pixel: nat -> Rgb, n: nat)
    ensures Flatten(Frame(pixel, n + 1)) == Flatten(Frame(pixel, n)) + [pixel(n).r, pixel(n).g, pixel(n).b]
  {
    assert Frame(pixel, n + 1)[..n] == Frame(pixel, n);
  }

  /** Writing pixel `idx`'s three bytes over a buffer whose first `idx` chunks are
      already drawn extends the drawn part by one chunk. */
  lemma WriteChunk(pixel: nat -> Rgb, idx: nat, orig: seq<Byte>, s: seq<Byte>)
    requires 3 * idx + 3 <= |orig|
    requires s == Flatten(Frame(pixel, idx)) + orig[3 * idx..]
    ensures s[3 * idx := pixel(idx).r][3 * idx + 1 := pixel(idx).g][3 * idx + 2 := pixel(idx).b]
         == Flatten(Frame(pixel, idx + 1)) + orig[3 * idx + 3..]
  {
    var c := pixel(idx);
    var done, rest := Flatten(Frame(pixel, idx)), orig[3 * idx..];
    assert s[3 * idx := c.r][3 * idx + 1 := c.g][3 * idx + 2 := c.b] == done + [c.r, c.g, c.b] + rest[3..];
    assert rest[3..] == orig[3 * idx + 3..];
    FlattenFrameStep(pixel, idx);
  }

  /** Copies a pixel's three bytes into chunk `idx` of the buffer. */
  method CopyToChunk(screen: array<Byte>, idx: nat, c: Rgb)
    requires 3 * idx + 3 <= screen.Length
    modifies screen
    ensures screen[..] == old(screen[..])[3 * idx := c.r][3 * idx + 1 := c.g][3 * idx + 2 := c.b]
  {
    screen[3 * idx] := c.r;
    screen[3 * idx + 1] := c.g;
    screen[3 * idx + 2] := c.b;
  }

  /** Walks the buffer in whole 3-byte chunks, chunk `idx` receiving the bytes of
      `pixel(idx)`; a trailing partial chunk is left untouched. */
  method FillChunks(screen: array<Byte>, pixel: nat -> Rgb)
    modifies screen
    ensures screen[..] == Flatten(Frame(pixel, screen.Length / 3)) + old(screen[..])[screen.Length / 3 * 3..]
  {
    ghost var orig := screen[..];
    var chunks := screen.Length / 3;
    for idx := 0 to chunks
      invariant screen[..] == Flatten(Frame(pixel, idx)) + orig[3 * idx..]
    {
      var colour := pixel(idx);
      WriteChunk(pixel, idx, orig, screen[..]);
      CopyToChunk(screen, idx, colour);
    }
  }

  /** Renders one frame into the screen buffer: every whole 3-byte chunk `idx` gets
      the output bytes of pixel `idx` as the camera currently sees it. */
  method DrawToScreen(m: MathLib, camera: Camera, scene: Scene, screen: array<Byte>, samples: nat -> nat -> Vec3)
    requires scene.Valid()
    modifies screen
    ensures screen[..] == Flatten(Frame(Pixels(m, camera.View(), scene, samples), screen.Length / 3))
                          + old(screen[..])[screen.Length / 3 * 3..]
  {
    FillChunks(screen, Pixels(m, camera.View(), scene, samples));
  }

  /** Byte `3 * idx + k` of a drawn frame is byte `k` of pixel `idx`. */
  lemma DrawnBytesArePixels(m: MathLib, view: CameraView, scene: Scene, samples: nat -> nat -> Vec3, n: nat, idx: nat, k: nat)
    requires scene.Valid()
    requires idx < n && k < 3
    ensures Flatten(Frame(Pixels(m, view, scene, samples), n))[3 * idx + k]
         == ByteOf(PixelColour(m, view, scene, idx, samples(idx)), k)
  {
    var pixel := Pixels(m, view, scene, samples);
    FrameIsPixels(pixel, n, idx);
    FlattenPlacesPixels(Frame(pixel, n), idx, k);
  }
}
