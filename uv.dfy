/**
 * The UV synthesis at the end of `png2mesh` (lines 157-162): every chunk of three
 * coordinates `x, y, z` of the final vertex buffer yields the texture coordinate
 * `((x + size/2) / size, (y + size/2) / size)`; `z` is never read.
 *
 * The source computes in `f32`; the model computes over `real` and makes no claim
 * about rounding.
 */
module UvSynthesis {
  import opened Wrappers

  /** Why the UV map stops; in the source it is a panic. */
  datatype UvError = TruncatedVertex   // a trailing chunk of one coordinate was indexed at 1

  /** One planar coordinate of a tile of edge `size` centred on the origin, rescaled. */
  function Normalize(c: real, size: real): (t: real)
    requires size != 0.0
    ensures t * size - size / 2.0 == c
  {
    (c + size / 2.0) / size
  }

  /** The planar coordinate whose texture coordinate is `t`: the inverse of `Normalize`. */
  function Denormalize(t: real, size: real): real
  {
    t * size - size / 2.0
  }

  lemma NormalizeRoundTrip(c: real, t: real, size: real)
    requires size != 0.0
    ensures Denormalize(Normalize(c, size), size) == c
    ensures Normalize(Denormalize(t, size), size) == t
  {
    assert Normalize(c, size) * size == c + size / 2.0;
  }

  /** A coordinate inside the tile, and only such a coordinate, maps into [0, 1]. */
  lemma NormalizeInUnitInterval(c: real, size: real)
    requires size > 0.0
    ensures -size / 2.0 <= c <= size / 2.0 <==> 0.0 <= Normalize(c, size) <= 1.0
  {
    var t := Normalize(c, size);
    assert t * size == c + size / 2.0;
    if 0.0 <= t <= 1.0 {
      assert 0.0 <= t * size <= size;
    }
    if -size / 2.0 <= c <= size / 2.0 {
      assert 0.0 <= t * size <= 1.0 * size;
    }
  }

  /** Index into the vertex buffer of entry `i` of the UV buffer: `x` for even `i`, `y` for odd. */
  function Source(i: nat): (j: nat)
    ensures j % 3 != 2
  {
    3 * (i / 2) + i % 2
  }

  /**
   * `chunks(3).map(|xyz| [u, v]).flatten().collect()`: one pair per chunk, in order.
   * A trailing chunk of two coordinates still yields a pair; one of a single
   * coordinate panics at `xyz[1]`.
   */
  function Uvs(positions: seq<real>, size: real): (r: Result<seq<real>, UvError>)
    requires size != 0.0
    ensures r.Ok? <==> |positions| % 3 != 1
    ensures r.Ok? ==> |r.value| == 2 * ((|positions| + 2) / 3)
    ensures r.Ok? ==> forall i :: 0 <= i < |r.value| ==>
      Source(i) < |positions| && r.value[i] == Normalize(positions[Source(i)], size)
    decreases |positions|
  {
    if |positions| == 0 then Ok([])
    else if |positions| == 1 then Err(TruncatedVertex)
    else
      var uv := [Normalize(positions[0], size), Normalize(positions[1], size)];
      if |positions| == 2 then Ok(uv)
      else
        match Uvs(positions[3..], size)
        case Err(e) => Err(e)
        case Ok(rest) =>
          var r := uv + rest;
          assert forall i :: 2 <= i < |r| ==> Source(i) == 3 + Source(i - 2);
          Ok(r)
  }

  /** A vertex buffer of whole vertices yields exactly one pair per vertex. */
  lemma UvsPerVertex(positions: seq<real>, size: real)
    requires size != 0.0 && |positions| % 3 == 0
    ensures Uvs(positions, size).Ok?
    ensures |Uvs(positions, size).value| == 2 * (|positions| / 3)
    ensures forall k :: 0 <= k < |positions| / 3 ==>
      Uvs(positions, size).value[2 * k] == Normalize(positions[3 * k], size) &&
      Uvs(positions, size).value[2 * k + 1] == Normalize(positions[3 * k + 1], size)
  {
    var r := Uvs(positions, size).value;
    forall k | 0 <= k < |positions| / 3
      ensures r[2 * k] == Normalize(positions[3 * k], size)
      ensures r[2 * k + 1] == Normalize(positions[3 * k + 1], size)
    {
      assert Source(2 * k) == 3 * k;
      assert Source(2 * k + 1) == 3 * k + 1;
    }
  }

  /** The UV buffer does not depend on the `z` coordinates. */
  lemma UvsIgnoreZ(positions: seq<real>, positions': seq<real>, size: real)
    requires size != 0.0 && |positions| == |positions'|
    requires forall j :: 0 <= j < |positions| && j % 3 != 2 ==> positions[j] == positions'[j]
    ensures Uvs(positions, size) == Uvs(positions', size)
  {
    var r, r' := Uvs(positions, size), Uvs(positions', size);
    if r.Ok? {
      assert r.value == r'.value;
    }
  }

  /** When every vertex lies in the tile, every texture coordinate lies in [0, 1]. */
  lemma UvsInUnitSquare(positions: seq<real>, size: real)
    requires size > 0.0
    requires forall j :: 0 <= j < |positions| && j % 3 != 2 ==> -size / 2.0 <= positions[j] <= size / 2.0
    ensures Uvs(positions, size).Ok? ==>
      forall i :: 0 <= i < |Uvs(positions, size).value| ==> 0.0 <= Uvs(positions, size).value[i] <= 1.0
  {
    var r := Uvs(positions, size);
    if r.Ok? {
      forall i | 0 <= i < |r.value|
        ensures 0.0 <= r.value[i] <= 1.0
      {
        NormalizeInUnitInterval(positions[Source(i)], size);
      }
    }
  }
}
