/**
 * `png2mesh` (lines 133-165): decode the frame, build the tile mesh, simplify it,
 * compact its vertex buffer, and derive one texture coordinate per final vertex.
 *
 * The tessellation `plane::build_tile_mesh` is not part of this model: its output is
 * an input here. The two library calls behave as their outcome values say.
 */
module Pipeline {
  import opened Wrappers
  import opened Ints
  import Elevation
  import MeshOpt
  import UvSynthesis

  /** The simplification error bound `png2mesh` passes to `simplify`. */
  const TargetError: real := 0.01

  /** The `(position, index)` pair that `plane::build_tile_mesh` returns. */
  datatype TileMesh = TileMesh(positions: seq<real>, indices: seq<u32>)

  /** What `png2mesh` hands to the host: `(new_position, new_index, uv)`. */
  datatype Mesh = Mesh(positions: seq<real>, indices: seq<u32>, uvs: seq<real>)

  /**
   * The mesh of one tile. `tile` is what tessellating the decoded height field gave,
   * `targetCount` the triangle budget computed from it; `simplified` and `fetched`
   * are what the two library calls do. A decode failure aborts the whole call.
   */
  method Png2Mesh(frame: Option<seq<u8>>, size: real, tile: TileMesh, targetCount: nat,
                  simplified: MeshOpt.SimplifyOutcome, fetched: MeshOpt.FetchOutcome)
    returns (r: Result<Mesh, Elevation.DecodeError>)
    requires size != 0.0
    requires |simplified.written| <= |tile.indices|
    requires |fetched.written| <= |tile.positions|
    requires |fetched.remapped| == simplified.count
    ensures r.Ok? <==> Elevation.Png2Elevation(frame).Ok?
    ensures r.Err? ==> r.error == Elevation.Png2Elevation(frame).error
    ensures r.Ok? ==> r.value.positions == MeshOpt.OptimizedPositions(|tile.positions|, fetched)
    ensures r.Ok? ==> r.value.indices == fetched.remapped
    ensures r.Ok? ==> |r.value.positions| == 3 * fetched.count && |r.value.uvs| == 2 * fetched.count
    ensures r.Ok? ==> forall k :: 0 <= k < fetched.count ==>
      r.value.uvs[2 * k] == UvSynthesis.Normalize(r.value.positions[3 * k], size) &&
      r.value.uvs[2 * k + 1] == UvSynthesis.Normalize(r.value.positions[3 * k + 1], size)
  {
    var heightmap := Elevation.Png2Elevation(frame);
    if heightmap.Err? {
      return Err(heightmap.error);
    }
    var newIndex := MeshOpt.Simplify(tile.indices, tile.positions, targetCount, TargetError, simplified);
    var newPosition := MeshOpt.Optimize(newIndex, tile.positions, fetched);
    UvSynthesis.UvsPerVertex(newPosition, size);
    var uv := UvSynthesis.Uvs(newPosition, size).value;
    r := Ok(Mesh(newPosition, newIndex.elems, uv));
  }
}
