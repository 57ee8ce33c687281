/** The renderer's fixed parameters: screen size, bounce budget and the colours the
    tracer uses itself. */
module Constants {
  import opened Vectors

  const SCREEN_HEIGHT: nat := 200
  const SCREEN_WIDTH: nat := SCREEN_HEIGHT * 16 / 9

  /** The number of secondary bounces every pixel may take. */
  const REFLECT_DEPTH: nat := 5

  const BACKGROUND_BOTTOM: Vec3 := Vec3(1.0, 1.0, 1.0)
  const BACKGROUND_TOP: Vec3 := Vec3(0.5, 0.7, 1.0)
  const BLACK: Vec3 := Vec3(0.0, 0.0, 0.0)

  /** The largest finite single-precision float, the seed of the nearest-hit search. */
  const F32_MAX: real := 340282346638528859811704183484516925440.0
}
