/**
 * The wrappers `simplify` and `optimize` around the meshoptimizer library. Each
 * allocates a zero-filled scratch vector as long as its input, lets the library
 * write into it through a raw pointer, and resizes the vector to the count the
 * library returns.
 *
 * The library itself is not modelled. Each call into it is a method whose effect
 * is supplied by the caller as an outcome value: what it writes at the start of its
 * destination, what it writes back into the index buffer, and the count it returns.
 * The only thing demanded of an outcome is what memory safety demands of the C
 * code: it writes no more than the destination holds.
 */
module MeshOpt {
  import opened Ints
  import opened RustVec

  /** Bytes per vertex passed to both library calls: three `f32` coordinates. */
  const VertexStride: nat := 12

  /** What `meshopt_simplify` does: the indices it writes and the index count it returns. */
  datatype SimplifyOutcome = SimplifyOutcome(written: seq<u32>, count: nat)

  /**
   * What `meshopt_optimizeVertexFetch` does: the coordinates it writes, the values it
   * writes over the index buffer it is given, and the vertex count it returns.
   */
  datatype FetchOutcome = FetchOutcome(written: seq<real>, remapped: seq<u32>, count: nat)

  /** A scratch buffer of `len` copies of `zero` after a call wrote `written` at its start. */
  function Scratch<T>(written: seq<T>, len: nat, zero: T): (s: seq<T>)
    requires |written| <= len
    ensures |s| == len
    ensures forall i :: 0 <= i < len ==> s[i] == if i < |written| then written[i] else zero
  {
    written + seq(len - |written|, _ => zero)
  }

  /** Stand-in for `meshopt_simplify` (lines 101-110): writes `outcome.written` into `destination`. */
  method MeshoptSimplify(destination: Vec<u32>, indices: seq<u32>, vertexCount: nat, vertexStride: nat,
                         targetCount: nat, targetError: real, outcome: SimplifyOutcome)
    returns (indexCount: nat)
    requires |outcome.written| <= |destination.elems|
    modifies destination
    ensures destination.elems == outcome.written + old(destination.elems)[|outcome.written|..]
    ensures indexCount == outcome.count
  {
    destination.elems := outcome.written + destination.elems[|outcome.written|..];
    indexCount := outcome.count;
  }

  /**
   * Stand-in for `meshopt_optimizeVertexFetch` (lines 119-126): writes `outcome.written`
   * into `destination` and rewrites the index buffer with `outcome.remapped`, which the
   * source passes as a pointer cast from a shared slice.
   */
  method MeshoptOptimizeVertexFetch(destination: Vec<real>, indices: Vec<u32>, vertices: seq<real>,
                                    vertexCount: nat, vertexStride: nat, outcome: FetchOutcome)
    returns (vertexCountOut: nat)
    requires |outcome.written| <= |destination.elems|
    requires |outcome.remapped| == |indices.elems|
    modifies destination, indices
    ensures destination.elems == outcome.written + old(destination.elems)[|outcome.written|..]
    ensures indices.elems == outcome.remapped
    ensures vertexCountOut == outcome.count
  {
    destination.elems := outcome.written + destination.elems[|outcome.written|..];
    indices.elems := outcome.remapped;
    vertexCountOut := outcome.count;
  }

  /** The index buffer `simplify` returns for an input of `len` indices. */
  function SimplifiedIndices(len: nat, outcome: SimplifyOutcome): (r: seq<u32>)
    requires |outcome.written| <= len
    ensures |r| == outcome.count
    ensures forall i :: 0 <= i < |r| ==> r[i] == if i < |outcome.written| then outcome.written[i] else 0
  {
    Resized(Scratch(outcome.written, len, 0), outcome.count, 0)
  }

  /** The vertex buffer `optimize` returns for an input of `len` coordinates. */
  function OptimizedPositions(len: nat, outcome: FetchOutcome): (r: seq<real>)
    requires |outcome.written| <= len
    ensures |r| == 3 * outcome.count
    ensures forall i :: 0 <= i < |r| ==> r[i] == if i < |outcome.written| then outcome.written[i] else 0.0
  {
    Resized(Scratch(outcome.written, len, 0.0), 3 * outcome.count, 0.0)
  }

  /** `simplify` (lines 90-114). */
  method Simplify(indices: seq<u32>, vertices: seq<real>, targetCount: nat, targetError: real,
                  outcome: SimplifyOutcome)
    returns (indexResult: Vec<u32>)
    requires |outcome.written| <= |indices|
    ensures fresh(indexResult)
    ensures indexResult.elems == SimplifiedIndices(|indices|, outcome)
  {
    indexResult := new Vec<u32>.Filled(|indices|, 0);
    var indexCount := MeshoptSimplify(indexResult, indices, |vertices|, VertexStride,
                                      targetCount, targetError, outcome);
    assert indexResult.elems == Scratch(outcome.written, |indices|, 0);
    indexResult.Resize(indexCount, 0);
  }

  /**
   * `optimize` (lines 116-130). The index buffer is passed as a `Vec` because the
   * library rewrites it in place.
   */
  method Optimize(index: Vec<u32>, position: seq<real>, outcome: FetchOutcome)
    returns (positionResult: seq<real>)
    requires |outcome.written| <= |position|
    requires |outcome.remapped| == |index.elems|
    modifies index
    ensures index.elems == outcome.remapped
    ensures positionResult == OptimizedPositions(|position|, outcome)
  {
    var scratch := new Vec<real>.Filled(|position|, 0.0);
    var positionCount := MeshoptOptimizeVertexFetch(scratch, index, position, |position|,
                                                    VertexStride, outcome);
    assert scratch.elems == Scratch(outcome.written, |position|, 0.0);
    scratch.Resize(positionCount * 3, 0.0);
    positionResult := scratch.elems;
  }

  /**
   * When the reported count is at most the input length, `simplify` returns exactly
   * the first `count` entries of its scratch buffer and never more indices than it
   * was given; when the library also reports what it wrote, that is the result.
   */
  lemma SimplifyKeepsScratchPrefix(len: nat, outcome: SimplifyOutcome)
    requires |outcome.written| <= len && outcome.count <= len
    ensures SimplifiedIndices(len, outcome) == Scratch(outcome.written, len, 0)[..outcome.count]
    ensures |SimplifiedIndices(len, outcome)| <= len
    ensures outcome.count == |outcome.written| ==> SimplifiedIndices(len, outcome) == outcome.written
  {
    ResizedShrinksToPrefix(Scratch(outcome.written, len, 0), outcome.count, 0);
  }

  /**
   * When the library reports a whole number of triangles, at most the input length,
   * the result is whole triangles too, whatever it wrote into the scratch buffer.
   */
  lemma SimplifyKeepsWholeTriangles(len: nat, outcome: SimplifyOutcome)
    requires |outcome.written| <= len && outcome.count <= len && outcome.count % 3 == 0
    ensures |SimplifiedIndices(len, outcome)| % 3 == 0
    ensures |SimplifiedIndices(len, outcome)| <= len
  {
  }

  /**
   * `optimize` always returns three coordinates per reported vertex; when at most
   * `len / 3` vertices are reported, that is the first `3 * count` entries of the
   * scratch buffer and no longer than the input.
   */
  lemma OptimizeKeepsScratchPrefix(len: nat, outcome: FetchOutcome)
    requires |outcome.written| <= len && outcome.count <= len / 3
    ensures OptimizedPositions(len, outcome) == Scratch(outcome.written, len, 0.0)[..3 * outcome.count]
    ensures |OptimizedPositions(len, outcome)| <= len
    ensures |outcome.written| == 3 * outcome.count ==> OptimizedPositions(len, outcome) == outcome.written
  {
    ResizedShrinksToPrefix(Scratch(outcome.written, len, 0.0), 3 * outcome.count, 0.0);
  }

  /**
   * Every remapped index smaller than the reported vertex count names a whole vertex
   * of the buffer `optimize` returns.
   */
  lemma RemappedIndicesAddressResult(len: nat, outcome: FetchOutcome)
    requires |outcome.written| <= len
    requires forall j :: 0 <= j < |outcome.remapped| ==> outcome.remapped[j] as int < outcome.count
    ensures forall j :: 0 <= j < |outcome.remapped| ==>
      3 * outcome.remapped[j] as int + 2 < |OptimizedPositions(len, outcome)|
  {
  }
}
