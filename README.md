# Ray tracer core, modelled in Dafny

This project models the rendering library of a small sequential ray tracer:

- the per-shape intersection tests (sphere by perpendicular distance and half chord,
  triangle by Moller-Trumbore);
- the scene-wide nearest-hit scan;
- colour resolution from texture coordinates;
- the recursive tracer with its three materials;
- the camera and its two mutators;
- the numeric helpers (tolerant comparisons, clamping, the gamma/clamp/scale/truncate
  output pipeline);
- the frame fill that writes every 3-byte chunk of the screen buffer.

Modules:

- `Vectors` (vectors.dfy): vectors, the 4x4 matrix, the polynomial vector operations,
  and `MathLib`, the record of library maths the engine calls but does not define
  (square root, normalisation, sine and cosine of an angle in degrees, the y-axis
  rotation matrix). Lemmas that need these functions to behave assume `Lawful(m)`:
  square root is exact on non-negative arguments, and normalising a non-zero vector
  multiplies it by the reciprocal of its length. No operation requires it.
- `Utils` (utils.dfy): the tolerant comparisons with `EPSILON = 0.0005`, homogeneous
  coordinates, clamping and the output pipeline.
- `Constants` (constants.dfy): screen size, bounce budget and the tracer's own colours.
- `Raytracing` (raytracing.dfy): shapes, objects, the scene, the tracer and the camera.
  `Scene.ClosestIntersection` is the source's loop with its running minimum. It is
  proved equal to the recursive definition `Nearest`, and the lemmas are stated
  about `Nearest`. `Camera` is a class whose `Rotate` and `Dolly` update its fields in
  place.
- `Draw` (draw.dfy): the frame fill. `FillChunks` is the in-place loop over the buffer.
  It is proved to leave the buffer equal to `Flatten(Frame(pixel, len / 3))` followed by
  the untouched remainder. `DrawToScreen` instantiates it with the pixel renderer: chunk
  index to column and row, to viewport coordinates, to camera ray, to `Trace` with
  depth `REFLECT_DEPTH`, to output bytes.

Numbers are exact reals. Randomness enters as parameters:

- `Trace` takes `scatter: nat -> Vec3`. The Lambertian bounce at remaining depth `d`
  uses the accepted unit-ball sample `scatter(d)`.
- The frame fill takes one such function per pixel.

The model keeps these behaviours of the code as written, although a reader might expect otherwise:

- The hit point handed to the normal and to the secondary ray is `distance * dir`. The
  ray's start is not added (`HitPosition`). This coincides with the true hit point only
  for rays that start at the origin.
- `rotate` and `dolly` move the origin but leave `horizontal_dir`, `vertical_dir` and
  `lower_left_corner` as they were. Every later primary ray therefore aims at the old
  viewport, shifted by the opposite of the move (`Camera.Rotate`, `Camera.Dolly`,
  `StaleViewportShift`).
- A triangle determinant exactly equal to `-EPSILON` passes both the culling guard and
  the parallel-ray guard, so the back face is hit there (`BackFaceAtMinusEpsilonIsHit`).
- A triangle's distance is never sign-checked, so triangles behind the ray's start are
  reported at a negative distance (`TriangleHitSlidesAlongRay`).
- The colour weights are applied as written: `u` weights `colours[0]`, `v` weights
  `colours[1]` and `w = 1 - u - v` weights `colours[2]`. In Moller-Trumbore, `u` is the
  weight of `v1` (`TriangleHitPoint`).

## Model

| member | source | states |
|---|---|---|
| Vectors.Rem360 | src/raytracing.rs:139 | the yaw remainder `% 360` truncates: its magnitude is below a full turn, it has the sign of the dividend, it is the identity inside (-360, 360), and it differs from the dividend by a whole number of turns |
| Utils.HammingDistance | src/utils/mod.rs:9-13 | the L1 distance is non-negative and is zero exactly when the two vectors are equal |
| Utils.HammingDistanceSymmetric | src/utils/mod.rs:9-13 | the distance does not depend on the order of its arguments |
| Utils.IsEq | src/utils/mod.rs:16-18 | no contract of its own: the absolute difference is below `EPSILON`; its properties are in `IsEqSymmetric`, `IsZero` and `SignClassesAtEpsilon` |
| Utils.IsEqSymmetric | src/utils/mod.rs:16-18 | tolerant equality is symmetric |
| Utils.IsEqVec | src/utils/mod.rs:20-22 | tolerant vector equality is reflexive and implies tolerant equality of every component |
| Utils.IsEqVecSymmetric | src/utils/mod.rs:20-22 | tolerant vector equality is symmetric |
| Utils.IsZero | src/utils/mod.rs:24-26 | `is_zero(x)` holds exactly when `is_eq(x, 0)` |
| Utils.IsNegative | src/utils/mod.rs:28-30 | a tolerantly negative number is not tolerantly zero |
| Utils.IsPositive | src/utils/mod.rs:32-35 | a tolerantly positive number is neither tolerantly zero nor tolerantly negative, so the three sign classes are pairwise exclusive |
| Utils.IsLessThan | src/utils/mod.rs:37-40 | tolerantly less implies not tolerantly equal |
| Utils.IsGreaterThan | src/utils/mod.rs:42-44 | tolerantly greater implies neither tolerantly equal nor tolerantly less |
| Utils.SignClassesAtEpsilon | src/utils/mod.rs:24-35 | none of the three sign classes holds at `EPSILON` or at `-EPSILON` |
| Utils.To3 | src/utils/mod.rs:46-48 | no contract of its own: drops the fourth component; `To4` states that it undoes `to_4` |
| Utils.To4 | src/utils/mod.rs:46-52 | the homogeneous coordinate is 1 and `to_3` undoes `to_4` |
| Utils.Clamp | src/utils/mod.rs:78-86 | the result lies in `[min, max]` when `min <= max`; a value already in range is returned unchanged |
| Utils.ClampPicksBoundOrValue | src/utils/mod.rs:78-86 | below `min` gives `min`, above `max` gives `max`, and the result is always the value or one of the bounds |
| Utils.ClampIdempotent | src/utils/mod.rs:78-86 | clamping twice equals clamping once |
| Utils.ClampColour | src/utils/mod.rs:88-93 | no contract of its own: clamps each component to `[0, 0.999]`; `ClampColourInRange` states the range and that in-range components are kept |
| Utils.ClampColourInRange | src/utils/mod.rs:88-93 | every component of a clamped colour lies in `[0, 0.999]`, and components already in range are kept |
| Utils.AsU8 | src/utils/mod.rs:96 | no contract of its own: the saturating float-to-byte cast; `AsU8Saturates` states its three cases |
| Utils.AsInt | src/utils/mod.rs:95-97 | no contract of its own: the cast applied to each channel; `OutputIsTruncation` states the bytes it produces in the output pipeline |
| Utils.AsU8Saturates | src/utils/mod.rs:95-97 | the float-to-byte cast keeps the integer part in range, gives 0 below zero and 255 from 256 up |
| Utils.GammaCorrect | src/utils/mod.rs:99-101 | no contract of its own: the library square root of each channel; `GammaCorrectIsSquareRoot` states what it yields |
| Utils.GammaCorrectIsSquareRoot | src/utils/mod.rs:99-101 | every non-negative component is replaced by its non-negative square root |
| Utils.CorrectForOutput | src/utils/mod.rs:103-105 | no contract of its own: gamma correction, clamping, scaling by 256 and the byte cast; `OutputIsTruncation` and `OutputExtremes` state its results |
| Utils.OutputIsTruncation | src/utils/mod.rs:103-105 | every output byte is the plain truncation of 256 times the clamped, gamma-corrected component; the cast never needs to saturate |
| Utils.OutputScaleInRange | src/utils/mod.rs:103-105 | 256 times a clamped component lies in `[0, 255.744]` and its byte is its floor |
| Utils.OutputExtremes | src/utils/mod.rs:99-105 | in each of the red, green and blue channels, full or over-full intensity gives byte 255 and zero intensity gives byte 0 |
| Raytracing.NewBarycentric | src/raytracing.rs:285-293 | the given `u` and `v` are kept and the three weights sum to 1 |
| Raytracing.Sphere.Intersect | src/raytracing.rs:329-366 | a hit is reported exactly when the squared perpendicular distance is within the tolerant radius and the nearer root clears the 0.001 floor; the hit is then at the nearer root, with no texture coordinates |
| Raytracing.SphereHitIsNearRoot | src/raytracing.rs:343-357 | when the line passes within the exact radius, the half chord is non-negative and the reported distance is `adjacent - half_chord` |
| Raytracing.SphereHitIsOnSphere | src/raytracing.rs:331-357 | for a unit direction and a line within the exact radius, the reported point `start + distance * dir` lies on the sphere: its squared distance from the centre is `radius^2` |
| Raytracing.SphereMissesFromInside | src/raytracing.rs:345-357 | a ray starting strictly inside the sphere is never reported as a hit |
| Raytracing.SphereHeadOnHit | src/raytracing.rs:329-366 | a unit ray aimed at the centre from distance `d` hits at `d - radius` when that clears the floor |
| Raytracing.SphereTranslationInvariant | src/raytracing.rs:329-366 | translating the sphere and the ray's start by the same offset does not change the result |
| Raytracing.Sphere.GetColour | src/raytracing.rs:221-229 | a sphere shows its stored colour for `TextureCoords::None`; the other pairing panics and is a precondition |
| Raytracing.Sphere.GetNormal | src/raytracing.rs:264-266 | no contract of its own: the normalised offset from the centre divided by the radius, which must be non-zero; `SphereNormalPointsOutward` states its direction and length |
| Raytracing.SphereNormalPointsOutward | src/raytracing.rs:264-266 | the sphere normal at a point other than the centre is a unit vector pointing away from the centre |
| Raytracing.ComputeNormal | src/raytracing.rs:192-196 | no contract of its own: the normalised cross product of the two edges, `v2 - v0` first; `FaceNormalIsPerpendicular` states its properties |
| Raytracing.FaceNormalIsPerpendicular | src/raytracing.rs:192-196 | for a non-degenerate triangle the face normal is a unit vector perpendicular to both edges |
| Raytracing.NewTriangle | src/raytracing.rs:173-190 | the triangle keeps its vertices, colours and material, and stores the computed face normal |
| Raytracing.Triangle.Intersect | src/raytracing.rs:368-411 | a hit is reported exactly when the determinant is at least `EPSILON` or exactly `-EPSILON`, `u` lies in `[-EPSILON, 1 + EPSILON]`, `v >= -EPSILON` and `u + v <= 1 + EPSILON`; the hit carries the plane distance, unchecked in sign, and the weights built from `u` and `v` |
| Raytracing.TriangleHitWeights | src/raytracing.rs:387-406 | the weights of every accepted hit sum to 1 and lie in the tolerance band around `[0, 1]` |
| Raytracing.TriangleHitPoint | src/raytracing.rs:372-402 | whenever the determinant is non-zero, the point `start + distance * dir` equals `(1 - u - v) * v0 + u * v1 + v * v2`; so `u` is the weight of `v1` and `v` that of `v2` |
| Raytracing.TolerantHit | src/raytracing.rs:378-409 | the tolerance band accepts a hit with a negative weight: straight down from `(-EPSILON, 0.5, 1)` onto the unit right triangle in the plane z = 0, the hit is reported at distance 1 with `u = -EPSILON` and `v = 0.5` |
| Raytracing.TriangleHitSlidesAlongRay | src/raytracing.rs:387-402 | moving the ray's start by `s` along the ray keeps the weights and lowers the distance by `s`, so a triangle behind the start is still reported, at a negative distance |
| Raytracing.ReversedRayMirrorsHit | src/raytracing.rs:372-402 | reversing the ray negates the determinant and the distance and keeps both weights |
| Raytracing.BackFaceAtMinusEpsilonIsHit | src/raytracing.rs:378-385 | if the front face is met at determinant exactly `EPSILON`, the reversed ray meets the back face at exactly `-EPSILON` and is reported, at the negated distance |
| Raytracing.Triangle.GetColour | src/raytracing.rs:209-219 | with weights summing to 1, a triangle whose three vertex colours agree shows that colour; `TextureCoords::None` panics and is a precondition |
| Raytracing.TolerantWeightsLeaveUnitCube | src/raytracing.rs:209-219 | at the weights `(-EPSILON, 0.5, 0.5 + EPSILON)`, which `TolerantHit` shows are accepted, a triangle coloured black, white, white has a red component of `1 + EPSILON`, outside the unit cube |
| Raytracing.Triangle.GetNormal | src/raytracing.rs:274-276 | no contract of its own: the stored face normal, whatever the location |
| Raytracing.Object.GetColour | src/raytracing.rs:231-239 | no contract of its own: dispatches to the shape's colour and requires the texture kind that shape accepts, which `Object.Intersect` guarantees for every reported hit |
| Raytracing.Object.GetMaterial | src/raytracing.rs:242-248 | no contract of its own: the shape's material |
| Raytracing.Object.GetNormal | src/raytracing.rs:250-256 | no contract of its own: dispatches to the shape's normal and requires a sphere's radius to be non-zero |
| Raytracing.Object.Intersect | src/raytracing.rs:320-327 | every reported hit carries the texture kind that the object's `get_colour` accepts |
| Raytracing.Nearest | src/raytracing.rs:11-26 | a returned intersection is the reported hit of the object at its index, below `f32::MAX` |
| Raytracing.NearestIsFirstMinimum | src/raytracing.rs:11-26 | none is returned exactly when no object reports a hit below `f32::MAX`; otherwise no object reports a nearer hit, and no earlier object reports one at the same distance, so the earliest object wins ties |
| Raytracing.Scene.ClosestIntersection | src/raytracing.rs:11-26 | the loop with its running minimum seeded at `f32::MAX` and strict `<` returns exactly `Nearest` |
| Raytracing.Background | src/raytracing.rs:86 | the sky is `BACKGROUND_TOP` for a ray pointing straight down and `BACKGROUND_BOTTOM` for one pointing straight up, and lies between them for unit directions |
| Raytracing.Mirror | src/raytracing.rs:41 | no contract of its own: `dir - 2 (dir . normal) normal` before normalisation; `MirrorFlipsNormalComponent` and `MirrorKeepsLength` state its properties |
| Raytracing.Reflect | src/raytracing.rs:40-42 | no contract of its own: the library normalisation of `Mirror`; `ReflectStraightOn` and `ReflectAt45Degrees` state its results |
| Raytracing.MirrorFlipsNormalComponent | src/raytracing.rs:40-42 | before normalisation, the mirrored direction off a unit normal has the negated normal component |
| Raytracing.MirrorKeepsLength | src/raytracing.rs:40-42 | before normalisation, mirroring off a unit normal keeps the direction's length |
| Raytracing.ReflectStraightOn | src/tests/mod.rs:8-16 | head-on incidence against a unit normal reflects back along the normal |
| Raytracing.ReflectAt45Degrees | src/tests/mod.rs:18-25 | the normalised `(1, 0, -1)` reflects off `(0, 0, 1)` to the normalised `(1, 0, 1)` |
| Raytracing.ScatterDirection | src/raytracing.rs:48 | no contract of its own: the normalised sum of the normal and an accepted draw; `DiffuseDirection` returns it for the first accepted draw |
| Raytracing.FirstInsideUnitBall | src/raytracing.rs:44-51 | the index found is the first draw strictly inside the unit ball; none when no draw is |
| Raytracing.DiffuseDirection | src/raytracing.rs:44-51 | the rejection loop returns the normalised sum of the normal and the first draw strictly inside the unit ball |
| Raytracing.HitPosition | src/raytracing.rs:56 | the position the tracer uses equals the true hit point exactly when the ray starts at the origin |
| Raytracing.BounceRay | src/raytracing.rs:62-65 | no contract of its own: the secondary ray starts 0.005 along the normal from the hit position, as in both the Specular and the Lambertian branch |
| Raytracing.Trace | src/raytracing.rs:53-88 | no contract of its own: a miss gives the sky; Diffuse gives the surface colour; Specular and Lambertian recurse with `depth - 1` and scale by 0.9 and 0.5, giving the surface colour and black at depth 0; `TraceStaysInUnitCube`, `TraceIgnoresScatterWithoutLambertian`, `DiffuseHitShowsColour` and `DiffuseSphereAhead` state its properties |
| Raytracing.DiffuseHitShowsColour | src/raytracing.rs:54-71 | a ray whose nearest hit is on a diffuse object is traced to that object's colour at the hit, at any depth |
| Raytracing.DiffuseSphereAhead | src/raytracing.rs:53-88 | a lone diffuse sphere of positive radius whose centre lies at distance `d` along a unit ray is reported by the scan as object 0 at distance `d - radius`, with no texture coordinates, provided `d - radius` clears the 0.001 floor; the ray is then traced to the sphere's colour at any depth |
| Raytracing.TraceIgnoresScatterWithoutLambertian | src/raytracing.rs:53-88 | a scene without Lambertian objects is traced the same whatever the random samples |
| Raytracing.TraceStaysInUnitCube | src/raytracing.rs:53-88 | every traced colour stays in the unit cube, since both attenuations are at most 1, under three assumptions: every sphere's colour is in the unit cube and every triangle has three equal vertex colours in the unit cube (`UnitColoured`); the library normalisation keeps `y` in `[-1, 1]` (`UnitDirections`); and the ray's direction has `-1 <= y <= 1`. Equal triangle colours are needed: `TolerantWeightsLeaveUnitCube` shows a hit whose colour leaves the cube |
| Raytracing.RotateVector | src/raytracing.rs:34-38 | no contract of its own: the vector made homogeneous with `To4`, multiplied by the matrix, and brought back with `To3`; `To4` states the round trip it relies on |
| Raytracing.FreshViewDirection | src/raytracing.rs:100-130 | for a freshly built camera the direction through `(u, v)` is `((2u - 1) * aspect_ratio, 2v - 1, -focal_length)`, whatever the origin |
| Raytracing.StaleViewportShift | src/raytracing.rs:123-149 | moving the origin without touching the viewport shifts every direction by the opposite of the move |
| Raytracing.CameraView.CameraRay | src/raytracing.rs:123-130 | a primary ray starts at the origin and points along the normalised direction through the viewport point |
| Raytracing.Camera.constructor | src/raytracing.rs:100-121 | the new camera holds the given origin and yaw, the rotation for that yaw, a viewport 2 high and `2 * aspect_ratio` wide, and the corresponding lower-left corner |
| Raytracing.Camera.CreateCameraRay | src/raytracing.rs:123-130 | the primary ray starts at the camera origin along the normalised direction through `(u, v)` |
| Raytracing.Camera.Rotate | src/raytracing.rs:132-143 | the yaw becomes the truncated remainder of old yaw plus delta, the rotation matrix follows it, the origin is rotated by delta, and the viewport fields are unchanged |
| Raytracing.Camera.Dolly | src/raytracing.rs:145-149 | only the origin's x and z move, by `-distance * sin(yaw)` and `-distance * cos(yaw)`; yaw, matrix and viewport are unchanged |
| Raytracing.CameraRayIsUnit | src/raytracing.rs:123-130 | every primary ray has a unit direction unless the viewport point is the origin |
| Draw.PixelColumn | src/draw.rs:7 | the column of a chunk index is below `SCREEN_WIDTH` |
| Draw.PixelRow | src/draw.rs:8 | the row of a chunk index inside the screen is below `SCREEN_HEIGHT` |
| Draw.PixelPosition | src/draw.rs:6-8 | column and row invert the row-major layout `v * SCREEN_WIDTH + u` |
| Draw.ScreenX | src/draw.rs:10 | no contract of its own: the column over `SCREEN_WIDTH - 1`; `ScreenCoordinates` states its range and end points |
| Draw.ScreenY | src/draw.rs:11 | no contract of its own: the row over `SCREEN_HEIGHT - 1`; `ScreenCoordinates` states its range and end points |
| Draw.ScreenCoordinates | src/draw.rs:10-11 | `x` lies in `[0, 1]`, from 0 at the first column to 1 at the last; `y` is non-negative, at most 1 inside the screen, 0 on the first row and 1 on the last |
| Draw.Shade | src/draw.rs:14-17 | no contract of its own: trace at depth `REFLECT_DEPTH`, then the output pipeline |
| Draw.PixelColour | src/draw.rs:13-17 | no contract of its own: the shade of the camera ray through the pixel's viewport coordinates; `EmptySceneDrawsSky`, `FrameIgnoresSamplesWithoutLambertian` and `DrawnBytesArePixels` state its properties |
| Draw.EmptySceneDrawsSky | src/draw.rs:13-17 | with no objects, every pixel is the output bytes of the sky seen along its own camera ray |
| Draw.FrameIgnoresSamplesWithoutLambertian | src/draw.rs:13-17 | a scene without Lambertian objects draws the same pixel whatever the random samples |
| Draw.FlattenPlacesPixels | src/draw.rs:6-18 | byte `3 * idx + k` of the byte layout is byte `k` of pixel `idx` |
| Draw.FrameIsPixels | src/draw.rs:6 | entry `idx` of the frame is the colour of pixel `idx` |
| Draw.CopyToChunk | src/draw.rs:18 | copying a pixel into chunk `idx` replaces exactly bytes `3 * idx` to `3 * idx + 2` with its red, green and blue |
| Draw.FillChunks | src/draw.rs:5-19 | after the loop, the first `3 * (len / 3)` bytes are the pixels' bytes in chunk order and the trailing partial chunk is untouched |
| Draw.DrawToScreen | src/draw.rs:5-20 | the buffer holds, chunk by chunk, the output bytes of the pixel each chunk index maps to, traced with depth `REFLECT_DEPTH`; the remainder is untouched, and camera and scene are only read |
| Draw.DrawnBytesArePixels | src/draw.rs:6-18 | byte `3 * idx + k` of a drawn frame is byte `k` of the output colour of pixel `idx` |

## Left out

- Floating point: the model computes with exact reals. It does not capture `f32`
  rounding, infinities or NaN. In particular, it leaves out the NaN from the square root
  of a negative number. That happens when the squared perpendicular distance lies in
  `(r^2, r^2 + EPSILON]` (src/raytracing.rs:338,343), and the model leaves the square
  root unconstrained there.
- `is_sign_negative` on `-0.0` is not modelled. The model uses `< 0`, and with the 0.001
  floor after it the outcome is the same.
- Division by the determinant stands for the engine's multiplication by its reciprocal.
  The two are the same in exact arithmetic.
- Library maths: square root, normalisation, sine and cosine in degrees, and the y-axis
  rotation matrix are abstract functions in `MathLib`. Matrix-vector products are exact.
  There are no lemmas about orbits under `rotate`, or about the angle after normalisation.
- Randomness: the `rand_*` helpers (src/utils/mod.rs:54-76) draw from a thread-local
  generator and are not modelled.
- Raytracing.DiffuseDirection: runs over a finite sequence of draws and returns none when
  no draw is accepted. The source loops until a draw is accepted, which ends only with
  probability 1.
- Raytracing.Trace: takes the accepted sample for each depth as a parameter instead of
  calling the rejection loop.
- Raytracing.Sphere.GetNormal: requires a non-zero radius (`Object.Valid`, `Scene.Valid`).
  The source divides by the radius and gets infinities or NaN otherwise.
- Console output: the `println!` calls in `Camera::new`, `rotate` and `dolly` are not
  modelled.
- The standalone `rotate` helper (src/raytracing.rs:34-38) is `RotateVector`. The
  camera's `rotate` uses the same computation.
- Draw.DrawToScreen: the per-chunk loop is the generic `FillChunks`, applied to the pixel
  renderer `Pixels`. The renderer reads the camera's fields once, through `Camera.View`.
  This is the same because the camera is only read during the fill.
- File and display output, the driver, the benchmark and the hard-coded scene data are
  not part of this model.
