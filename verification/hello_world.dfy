/**
  The colour of one pixel of the "hello world" test image.

  `hello_world_image(x, y)` paints pixel `(x, y)` of a 256 x 256 image with
  red `255 - x`, green `y` and blue `x - min(x, y)`, where `min(x, y)` is
  written out as the clamp `y_clamp`. Every operand is a `u8`, so each
  subtraction is a potential underflow; the contracts below show neither can
  happen, under either build profile.
 */
module HelloWorld {
  import opened Wrappers
  import opened RustU8

  /** `Rgb<u8>`: one pixel of an `RgbImage`. */
  datatype Rgb = Rgb(r: U8, g: U8, b: U8)

  /** `y_clamp`: `y` lowered to `x` when it exceeds it, i.e. the minimum of the two. */
  function YClamp(x: U8, y: U8): (c: U8)
    ensures c <= x && c <= y
    ensures c == x || c == y
  {
    if y > x then x else y
  }

  /** The red channel `255 - x`; it never underflows and complements `x` to 255. */
  function Red(profile: Profile, x: U8): (r: Option<U8>)
    ensures r.Some?
    ensures r.value + x == U8_MAX
  {
    Sub(profile, U8_MAX, x)
  }

  /** The blue channel `x - y_clamp`; it never underflows and is the saturating difference of `x` and `y`. */
  function Blue(profile: Profile, x: U8, y: U8): (r: Option<U8>)
    ensures r.Some?
    ensures y <= x ==> r.value + y == x
    ensures x < y ==> r.value == 0
    ensures r.value <= x
  {
    Sub(profile, x, YClamp(x, y))
  }

  /**
    `hello_world_image(x, y)` under `profile`; `None` would be a panic.
    The colour does not depend on the profile, since nothing wraps.
   */
  function HelloWorldImage(profile: Profile, x: U8, y: U8): (r: Option<Rgb>)
    ensures r.Some?
    ensures r.value == Rgb(U8_MAX - x, y, SaturatingSub(x, y))
  {
    var red := Red(profile, x);
    var blue := Blue(profile, x, y);
    if red.None? || blue.None? then None
    else Some(Rgb(red.value, y, blue.value))
  }

  /** The colour of pixel `(x, y)`: `hello_world_image` as it runs, which never panics. */
  function PixelColour(x: U8, y: U8): (c: Rgb)
    ensures c == Rgb(U8_MAX - x, y, SaturatingSub(x, y))
  {
    HelloWorldImage(Debug, x, y).value
  }

  /** The debug and the release build paint every pixel alike. */
  lemma ProfilesAgree(x: U8, y: U8)
    ensures HelloWorldImage(Debug, x, y) == HelloWorldImage(Release, x, y)
    ensures HelloWorldImage(Release, x, y) == Some(PixelColour(x, y))
  {
  }

  /** Blue is zero exactly where `x <= y`: the diagonal, column 0, and the triangle below the diagonal (rows grow downward). */
  lemma BlueVanishes(x: U8, y: U8)
    ensures PixelColour(x, y).b == 0 <==> x <= y
  {
  }

  /** The pixel that a colour of this image was painted on: red gives `x` back, green gives `y`. */
  function PixelOf(c: Rgb): (xy: (U8, U8))
  {
    (U8_MAX - c.r, c.g)
  }

  /** Whether `c` is a colour the test image uses: its blue is fixed by its red and green. */
  predicate IsImageColour(c: Rgb)
  {
    c.b == SaturatingSub(U8_MAX - c.r, c.g)
  }

  /** Every pixel gets its own colour: `PixelOf` undoes `PixelColour`, so no two pixels share one. */
  lemma PixelOfPixelColour(x: U8, y: U8)
    ensures IsImageColour(PixelColour(x, y))
    ensures PixelOf(PixelColour(x, y)) == (x, y)
  {
  }

  /** The image colours are exactly the colours `PixelColour` produces: `PixelColour` undoes `PixelOf` on them. */
  lemma PixelColourPixelOf(c: Rgb)
    ensures IsImageColour(c) <==> PixelColour(PixelOf(c).0, PixelOf(c).1) == c
  {
  }

  /** Distinct pixels receive distinct colours. */
  lemma PixelColourInjective(x1: U8, y1: U8, x2: U8, y2: U8)
    requires (x1, y1) != (x2, y2)
    ensures PixelColour(x1, y1) != PixelColour(x2, y2)
  {
  }

}
