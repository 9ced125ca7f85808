/**
  The driver in `main`: a 256 x 256 `RgbImage` filled by two nested
  `for x in 0..=255 { for y in 0..=255 { ... } }` loops, each pixel set with
  `put_pixel(x as u32, y as u32, hello_world_image(x, y))`.

  The image is a two-dimensional array indexed `[x, y]` (column, row); an
  index outside it would be `put_pixel`'s out-of-bounds panic, so proving
  every access in range proves that panic impossible. The method also
  returns the `put_pixel` calls it makes, in call order, so that "each pixel
  is written exactly once, with its colour" is a statement about its result.
 */
module Render {
  import opened RustU8
  import opened HelloWorld

  /** `RgbImage::new(256, 256)`. */
  const WIDTH: U32 := 256
  const HEIGHT: U32 := 256

  /** The coordinates of one `put_pixel` call, after the `as u32` casts. */
  datatype Coord = Coord(x: U32, y: U32)

  /** One `put_pixel` call: where, and with which colour. */
  datatype PutPixel = PutPixel(at: Coord, colour: Rgb)

  /** Position of pixel `(x, y)` in the loops' visiting order: `x` outer, `y` inner. */
  function VisitIndex(c: Coord): (k: int)
  {
    c.x * HEIGHT + c.y
  }

  /** Whether a call is in bounds and sets its pixel to `hello_world_image`'s colour for it. */
  predicate PaintsOwnColour(call: PutPixel)
  {
    && call.at.x < WIDTH && call.at.y < HEIGHT
    && call.colour == PixelColour(call.at.x, call.at.y)
  }

  /** A `put_pixel` call trace that is in bounds, paints each pixel its colour and lists the pixels in visiting order. */
  predicate IsVisitTrace(writes: seq<PutPixel>)
  {
    && |writes| == WIDTH * HEIGHT
    && (forall k :: 0 <= k < |writes| ==> PaintsOwnColour(writes[k]))
    && (forall k :: 0 <= k < |writes| ==> VisitIndex(writes[k].at) == k)
  }

  /** Such a trace writes every pixel of the image exactly once: each one at its visit index, none twice. */
  lemma VisitTraceWritesEachPixelOnce(writes: seq<PutPixel>)
    requires IsVisitTrace(writes)
    ensures forall x: U8, y: U8 ::
      writes[VisitIndex(Coord(x, y))] == PutPixel(Coord(x, y), HelloWorldImage(Debug, x, y).value)
    ensures forall i, j :: 0 <= i < j < |writes| ==> writes[i].at != writes[j].at
  {
  }

  /** The fill loop of `main`, built under `profile`: every pixel in range is set to its colour, once each, in order. */
  method RenderHelloWorld(profile: Profile) returns (img: array2<Rgb>, writes: seq<PutPixel>)
    ensures img.Length0 == WIDTH && img.Length1 == HEIGHT
    ensures forall x: U8, y: U8 :: img[x, y] == PixelColour(x, y)
    ensures |writes| == WIDTH * HEIGHT
    ensures forall k :: 0 <= k < |writes| ==> writes[k].at.x < WIDTH && writes[k].at.y < HEIGHT
    ensures forall k :: 0 <= k < |writes| ==> writes[k].colour == PixelColour(writes[k].at.x, writes[k].at.y)
    ensures forall k :: 0 <= k < |writes| ==> VisitIndex(writes[k].at) == k
    ensures forall x: U8, y: U8 :: PutPixel(Coord(x, y), PixelColour(x, y)) in writes
    ensures forall i, j :: 0 <= i < j < |writes| ==> writes[i].at != writes[j].at
  {
    img := new Rgb[WIDTH, HEIGHT]((_, _) => Rgb(0, 0, 0));
    writes := [];
    // `i` and `j` reach 256 only to mark the range as exhausted; `x` and `y` are the `u8` values it yields.
    var i := 0;
    while i <= U8_MAX
      invariant 0 <= i <= U8_MAX + 1
      invariant |writes| == i * HEIGHT
      invariant forall k :: 0 <= k < |writes| ==> PaintsOwnColour(writes[k])
      invariant forall k :: 0 <= k < |writes| ==> VisitIndex(writes[k].at) == k
      invariant forall x: U8, y: U8 :: x < i ==> img[x, y] == PixelColour(x, y)
    {
      var x: U8 := i;
      var j := 0;
      while j <= U8_MAX
        invariant 0 <= j <= U8_MAX + 1
        invariant |writes| == x * HEIGHT + j
        invariant forall k :: 0 <= k < |writes| ==> PaintsOwnColour(writes[k])
        invariant forall k :: 0 <= k < |writes| ==> VisitIndex(writes[k].at) == k
        invariant forall x': U8, y: U8 :: x' < x ==> img[x', y] == PixelColour(x', y)
        invariant forall y: U8 :: y < j ==> img[x, y] == PixelColour(x, y)
      {
        var y: U8 := j;
        var colour := HelloWorldImage(profile, x, y).value;
        img[x, y] := colour;
        writes := writes + [PutPixel(Coord(x, y), colour)];
        j := j + 1;
      }
      i := i + 1;
    }
    VisitTraceWritesEachPixelOnce(writes);
  }

}
