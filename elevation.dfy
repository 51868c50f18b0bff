/**
 * The RGB-to-elevation decoder of `png2elevation_rs`: a decoded PNG frame, a flat
 * buffer of R,G,B bytes, becomes one elevation per pixel in the Terrarium encoding
 * `R * 256 + G + B / 256 - 32768`.
 *
 * The source computes in `f32`; the model computes over `real`. Lemma
 * `ArithmeticIsExactInF32` shows that every intermediate value of the formula is an
 * integer multiple of 1/256 below 2^24/256 in magnitude, so every `f32` operation of
 * the source is exact and the real-valued model loses nothing.
 */
module Elevation {
  import opened Wrappers
  import opened Ints

  /** The byte count the decoded frame must have: 256 x 256 pixels, 3 bytes each. */
  const FrameBytes: nat := 256 * 256 * 3

  /** The number of elevation samples of an accepted frame. */
  const FramePixels: nat := 256 * 256

  /** Why a decode stops; in the source each of these is a panic. */
  datatype DecodeError =
    | PngError                  // `read_info()` or `next_frame()` failed and was unwrapped
    | BufferSize(actual: nat)   // the frame size assertion failed
    | TruncatedPixel            // a trailing chunk of fewer than 3 bytes was indexed

  datatype Pixel = Pixel(r: u8, g: u8, b: u8)

  /** The 24-bit big-endian integer that the three channels of a pixel spell. */
  function Code(p: Pixel): (c: int)
    ensures 0 <= c < 0x100_0000
    ensures c / 0x1_0000 == p.r as int && c / 0x100 % 0x100 == p.g as int && c % 0x100 == p.b as int
  {
    var c := p.r as int * 0x1_0000 + p.g as int * 0x100 + p.b as int;
    CodeDigits(p.r as int, p.g as int, p.b as int);
    c
  }

  lemma CodeDigits(r: int, g: int, b: int)
    requires 0 <= r < 0x100 && 0 <= g < 0x100 && 0 <= b < 0x100
    ensures (r * 0x1_0000 + g * 0x100 + b) / 0x1_0000 == r
    ensures (r * 0x1_0000 + g * 0x100 + b) / 0x100 % 0x100 == g
    ensures (r * 0x1_0000 + g * 0x100 + b) % 0x100 == b
  {
    var low := g * 0x100 + b;
    assert 0 <= low < 0x1_0000;
    assert (r * 0x1_0000 + low) / 0x1_0000 == r;
    assert (r * 0x1_0000 + g * 0x100 + b) / 0x100 == r * 0x100 + g;
    assert (r * 0x100 + g) % 0x100 == g;
  }

  /** The pixel whose channels spell the 24-bit code `c`: the inverse of `Code`. */
  function PixelOfCode(c: int): (p: Pixel)
    requires 0 <= c < 0x100_0000
    ensures Code(p) == c
  {
    var p := Pixel((c / 0x1_0000) as u8, (c / 0x100 % 0x100) as u8, (c % 0x100) as u8);
    assert c == (c / 0x1_0000) * 0x1_0000 + (c / 0x100 % 0x100) * 0x100 + c % 0x100 by {
      assert c == (c / 0x100) * 0x100 + c % 0x100;
      assert c / 0x100 == (c / 0x100 / 0x100) * 0x100 + c / 0x100 % 0x100;
      assert c / 0x100 / 0x100 == c / 0x1_0000;
    }
    p
  }

  lemma {:induction false} PixelOfCodeInverts(p: Pixel)
    ensures PixelOfCode(Code(p)) == p
  {
    var c := Code(p);
    assert c / 0x1_0000 == p.r as int && c / 0x100 % 0x100 == p.g as int && c % 0x100 == p.b as int;
  }

  /**
   * The elevation of one pixel, as written on line 54 of the source. It is the
   * pixel's 24-bit code, offset by 128 * 65536, in units of 1/256.
   */
  function PixelElevation(p: Pixel): (e: real)
    ensures e == (Code(p) - 0x80_0000) as real / 256.0
    ensures -32768.0 <= e <= 32767.99609375
  {
    p.r as real * 256.0 + p.g as real + p.b as real / 256.0 - 32768.0
  }

  /** `x` is `m / 256` for an integer `m` of magnitude below 2^24: a value `f32` holds exactly. */
  ghost predicate OnF32Grid(x: real, m: int)
  {
    -0x100_0000 < m < 0x100_0000 && x == m as real / 256.0
  }

  /**
   * Every operand and every intermediate result of the source's `f32` expression lies
   * on the grid of `OnF32Grid`, so each `as f32` conversion and each `f32` operation is
   * exact and the `real` model computes what the source computes.
   */
  lemma ArithmeticIsExactInF32(p: Pixel)
    ensures OnF32Grid(p.r as real, p.r as int * 256)
    ensures OnF32Grid(p.g as real, p.g as int * 256)
    ensures OnF32Grid(p.b as real, p.b as int * 256)
    ensures OnF32Grid(p.r as real * 256.0, p.r as int * 0x1_0000)
    ensures OnF32Grid(p.r as real * 256.0 + p.g as real, p.r as int * 0x1_0000 + p.g as int * 256)
    ensures OnF32Grid(p.b as real / 256.0, p.b as int)
    ensures OnF32Grid(p.r as real * 256.0 + p.g as real + p.b as real / 256.0, Code(p))
    ensures OnF32Grid(PixelElevation(p), Code(p) - 0x80_0000)
  {
  }

  /** Distinct pixels decode to distinct elevations. */
  lemma ElevationInjective(p: Pixel, q: Pixel)
    ensures PixelElevation(p) == PixelElevation(q) <==> p == q
  {
    if PixelElevation(p) == PixelElevation(q) {
      assert Code(p) == Code(q);
      PixelOfCodeInverts(p);
      PixelOfCodeInverts(q);
    }
  }

  /** The pixel-to-elevation map is strictly increasing in the 24-bit code. */
  lemma ElevationStrictlyIncreasing(p: Pixel, q: Pixel)
    ensures Code(p) < Code(q) <==> PixelElevation(p) < PixelElevation(q)
  {
  }

  /** Each on-grid elevation in range has exactly one pixel: `PixelOfCode` recovers it. */
  lemma ElevationRoundTrip(c: int)
    requires 0 <= c < 0x100_0000
    ensures PixelElevation(PixelOfCode(c)) == (c - 0x80_0000) as real / 256.0
  {
  }

  /** A black pixel is the lowest elevation, -32768. */
  lemma BlackPixelIsLowest()
    ensures PixelElevation(Pixel(0, 0, 0)) == -32768.0
    ensures forall p: Pixel :: PixelElevation(Pixel(0, 0, 0)) <= PixelElevation(p)
  {
  }

  /** Pixel (128, 0, 0) decodes to exactly 0. */
  lemma SeaLevelPixel()
    ensures PixelElevation(Pixel(128, 0, 0)) == 0.0
  {
  }

  /**
   * `buf.chunks(3).map(...).collect()` (lines 53-55): one elevation per 3-byte chunk,
   * in order. A trailing chunk of one or two bytes makes the closure index past its
   * end, which panics.
   */
  function Elevations(buf: seq<u8>): (r: Result<seq<real>, DecodeError>)
    ensures r.Ok? <==> |buf| % 3 == 0
    ensures r.Err? ==> r.error == TruncatedPixel
    ensures r.Ok? ==> |r.value| == |buf| / 3
    ensures r.Ok? ==> forall i :: 0 <= i < |r.value| ==>
      r.value[i] == PixelElevation(Pixel(buf[3 * i], buf[3 * i + 1], buf[3 * i + 2]))
    decreases |buf|
  {
    if |buf| == 0 then Ok([])
    else if |buf| < 3 then Err(TruncatedPixel)
    else
      match Elevations(buf[3..])
      case Err(e) => Err(e)
      case Ok(rest) =>
        var r := [PixelElevation(Pixel(buf[0], buf[1], buf[2]))] + rest;
        assert forall i :: 1 <= i < |r| ==> buf[3..][3 * (i - 1)] == buf[3 * i];
        Ok(r)
  }

  /**
   * `png2elevation_rs` on a decoded frame: `frame` is what the PNG decoder produced
   * (`None` when `read_info` or `next_frame` failed). Only the byte count of the
   * frame is checked (line 37), then every 3 bytes become one elevation.
   */
  function Png2Elevation(frame: Option<seq<u8>>): (r: Result<seq<real>, DecodeError>)
    ensures r.Ok? <==> frame.Some? && |frame.value| == FrameBytes
    ensures frame.None? ==> r == Err(PngError)
    ensures frame.Some? && |frame.value| != FrameBytes ==> r == Err(BufferSize(|frame.value|))
    ensures r.Ok? ==> |r.value| == FramePixels
    ensures r.Ok? ==> forall i :: 0 <= i < |r.value| ==>
      r.value[i] == PixelElevation(Pixel(frame.value[3 * i], frame.value[3 * i + 1], frame.value[3 * i + 2]))
  {
    match frame
    case None => Err(PngError)
    case Some(buf) =>
      if |buf| != FrameBytes then Err(BufferSize(|buf|)) else Elevations(buf)
  }

  /** Sample `i` depends only on bytes `3i`, `3i+1` and `3i+2` of the buffer. */
  lemma SampleDependsOnItsPixel(buf: seq<u8>, buf': seq<u8>, i: nat)
    requires |buf| == |buf'| && |buf| % 3 == 0 && i < |buf| / 3
    requires buf[3 * i..3 * i + 3] == buf'[3 * i..3 * i + 3]
    ensures Elevations(buf).Ok? && Elevations(buf').Ok?
    ensures Elevations(buf).value[i] == Elevations(buf').value[i]
  {
    assert buf[3 * i] == buf[3 * i..3 * i + 3][0] == buf'[3 * i];
    assert buf[3 * i + 1] == buf[3 * i..3 * i + 3][1] == buf'[3 * i + 1];
    assert buf[3 * i + 2] == buf[3 * i..3 * i + 3][2] == buf'[3 * i + 2];
  }

  /** Every pixel of `buf` has the colour `p`. */
  ghost predicate Uniform(buf: seq<u8>, p: Pixel)
  {
    |buf| % 3 == 0 &&
    forall i :: 0 <= i < |buf| / 3 ==> Pixel(buf[3 * i], buf[3 * i + 1], buf[3 * i + 2]) == p
  }

  /** A frame of one colour decodes to a constant height field of that colour's elevation. */
  lemma UniformFrameIsFlat(buf: seq<u8>, p: Pixel)
    requires Uniform(buf, p)
    ensures Elevations(buf) == Ok(seq(|buf| / 3, _ => PixelElevation(p)))
  {
    var r := Elevations(buf).value;
    forall i | 0 <= i < |buf| / 3
      ensures r[i] == PixelElevation(p)
    {
      assert Pixel(buf[3 * i], buf[3 * i + 1], buf[3 * i + 2]) == p;
    }
    assert r == seq(|buf| / 3, _ => PixelElevation(p));
  }

  /** A one-colour frame of the expected size decodes to 65536 copies of the colour's elevation. */
  lemma UniformTileIsFlat(frame: seq<u8>, p: Pixel, e: real)
    requires |frame| == FrameBytes && Uniform(frame, p) && PixelElevation(p) == e
    ensures Png2Elevation(Some(frame)) == Ok(seq(FramePixels, _ => e))
  {
    UniformFrameIsFlat(frame, p);
    assert seq(FramePixels, _ => PixelElevation(p)) == seq(FramePixels, _ => e);
  }

  /** An all-zero 256 x 256 frame decodes to 65536 samples of exactly -32768. */
  lemma BlackFrame(frame: seq<u8>)
    requires |frame| == FrameBytes
    requires forall k :: 0 <= k < |frame| ==> frame[k] == 0
    ensures Png2Elevation(Some(frame)) == Ok(seq(FramePixels, _ => -32768.0))
  {
    forall i | 0 <= i < |frame| / 3
      ensures Pixel(frame[3 * i], frame[3 * i + 1], frame[3 * i + 2]) == Pixel(0, 0, 0)
    {
      assert frame[3 * i] == 0 && frame[3 * i + 1] == 0 && frame[3 * i + 2] == 0;
    }
    UniformTileIsFlat(frame, Pixel(0, 0, 0), -32768.0);
  }

  /** A 256 x 256 frame of pixels (128, 0, 0) decodes to 65536 samples of exactly 0. */
  lemma SeaLevelFrame(frame: seq<u8>)
    requires |frame| == FrameBytes && Uniform(frame, Pixel(128, 0, 0))
    ensures Png2Elevation(Some(frame)) == Ok(seq(FramePixels, _ => 0.0))
  {
    UniformTileIsFlat(frame, Pixel(128, 0, 0), 0.0);
  }
}
