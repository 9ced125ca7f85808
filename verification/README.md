# raytracer-rs: the "hello world" test image

This project models the program entry point of raytracer-rs as it stands in
`src/main.rs`: it creates a 256 x 256 RGB image, paints every pixel `(x, y)`
with `hello_world_image(x, y)`, and saves the image. `hello_world_image` maps
a `u8` coordinate pair to an `Rgb<u8>` colour: red `255 - x`, green `y`, and
blue `x - y_clamp`, where `y_clamp` is `y` lowered to `x`.

Every operand is a `u8`, and Rust's `u8` subtraction panics on underflow in a
debug build and wraps modulo 256 in a release build. The model makes both
behaviours explicit and proves that neither subtraction can underflow, so the
function is total, panic-free, and paints the same colours in either build.

Files and modules:

- `wrappers.dfy` (`Wrappers`): `Option`, where `None` stands for a panic.
- `rust_u8.dfy` (`RustU8`): `u8` and `u32` as subset types of `int`, the build
  profile, and `u8` subtraction under each profile (checked or wrapping). It
  also gives the reference definition `SaturatingSub`, the difference clamped
  at zero.
- `hello_world.dfy` (`HelloWorld`): `Rgb`, the clamp, each channel, the whole
  pixel function, and lemmas about the colours it produces.
- `render.dfy` (`Render`): the nested `0..=255` loops of `main`, as a method
  that fills a two-dimensional array and returns the `put_pixel` call trace.
  Proving every array index in range proves that `put_pixel`'s
  out-of-bounds panic cannot happen.

`src/main.rs` declares no `mod math;` and renders only the test image;
`src/math.rs` is left out (below).

## Model

| member | source | states |
|---|---|---|
| RustU8.CheckedSub | src/main.rs:16 | `u8` subtraction with overflow checks on: it succeeds exactly when the subtrahend is at most the minuend, and then adding the subtrahend back gives the minuend |
| RustU8.WrappingSub | src/main.rs:16 | `u8` subtraction with overflow checks off: adding the subtrahend back gives the minuend modulo 256; this is the true difference when there is no underflow and the difference plus 256 when there is |
| RustU8.Sub | src/main.rs:16 | `-` under a build profile: a release build never panics and on underflow yields the difference plus 256, a debug build panics exactly on underflow, and both give the true difference whenever it is not negative |
| HelloWorld.YClamp | src/main.rs:15 | `y_clamp` is the minimum of `x` and `y`: it is at most both and equals one of them; in particular `y_clamp <= x` |
| HelloWorld.Red | src/main.rs:16 | `255 - x` never panics under either profile, and red plus `x` is exactly 255 |
| HelloWorld.Blue | src/main.rs:15-16 | `x - y_clamp` never panics under either profile; it is `x - y` when `y <= x`, zero when `y > x`, and never more than `x` |
| HelloWorld.HelloWorldImage | src/main.rs:14-17 | `hello_world_image` never panics under either profile; its colour is red `255 - x`, green `y` unchanged, blue the saturating difference of `x` and `y` |
| HelloWorld.PixelColour | src/main.rs:14-17 | the colour `hello_world_image` paints on pixel `(x, y)`: red `255 - x`, green `y`, blue the saturating difference of `x` and `y` |
| HelloWorld.ProfilesAgree | src/main.rs:14-17 | the debug and the release build paint every pixel with the same colour |
| HelloWorld.BlueVanishes | src/main.rs:15-16 | blue is zero exactly when `x <= y`: on the diagonal, in column 0, and in the triangle below the diagonal (rows grow downward), and nowhere else |
| HelloWorld.PixelOfPixelColour | src/main.rs:14-17 | every painted colour satisfies the image's colour relation, and red and green recover the pixel it was painted on |
| HelloWorld.PixelColourPixelOf | src/main.rs:14-17 | a colour satisfies the image's colour relation if and only if it is the colour painted on the pixel its red and green name |
| HelloWorld.PixelColourInjective | src/main.rs:14-17 | distinct pixels are painted with distinct colours |
| Render.RenderHelloWorld | src/main.rs:3-10 | under either build profile, the loops fill a 256 x 256 image in which every pixel `(x, y)` holds `hello_world_image(x, y)`; they make 65536 `put_pixel` calls, all in bounds, `x` outer and `y` inner, each with that pixel's `hello_world_image` colour, covering every pixel and none twice |
| Render.VisitTraceWritesEachPixelOnce | src/main.rs:6-8 | a call trace of 65536 in-bounds calls listed in `x`-outer, `y`-inner order, each carrying its pixel's colour, writes every pixel exactly once, with `hello_world_image(x, y)` |

## Left out

- `RgbImage::new`, `put_pixel` and `img.save` (src/main.rs:4, 8, 11) belong to the external `image` crate. The image is a two-dimensional array initialised to black, `put_pixel` is an array store, and the save, whose result the program discards, is file I/O and is not modelled.
- The `as u32` casts (src/main.rs:8) widen a `u8` to a `u32` without loss. The model stores the `u8` value in a `u32`-typed coordinate, and the verifier checks that it fits.
- Rust's `RangeInclusive` iterator yields `0..=255` as `u8` values without ever computing 256. The model's loop counters are integers that reach 256 only to stop the loop; the loop body sees only `u8` values.
- src/math.rs is not part of this model. `radians`, `ray_sphere_intersect` and the `Ray`/`Sphere` records are 32-bit floating-point arithmetic with `sqrt` and exact float comparisons, which integer or real arithmetic would not reproduce faithfully. `normalize` and `rotate_vec3` forward to `nalgebra_glm`, whose code is not available. `square` is a generic `x * x` with nothing to state beyond its definition.
