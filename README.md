# dem2mesh core, modelled in Dafny

`dem2mesh` turns a Terrarium-encoded elevation tile (a 256 x 256 RGB PNG) into a
simplified, render-ready triangle mesh for a terrain viewer. This project models the
statable logic of `src/terrain/dem2mesh/src/lib.rs`:

- **Elevation decoding** (`Elevation`): `png2elevation_rs` checks the byte count of the
  decoded frame and maps every `R,G,B` triple to `R*256 + G + B/256 - 32768`. The model
  computes over `real`; `ArithmeticIsExactInF32` shows every intermediate value is
  `m/256` with `|m| < 2^24`, so the source's `f32` arithmetic is exact and the model
  is faithful. The map is shown strictly increasing in the 24-bit code `R*65536+G*256+B`
  and inverted by `PixelOfCode`.
- **Vectors** (`RustVec`): `vec![x; n]` and the in-place `Vec::resize`.
- **Mesh wrappers** (`MeshOpt`): `simplify` and `optimize` allocate a zero-filled
  scratch vector, let meshoptimizer write into it, and resize it to the returned count
  (`simplify`) or to three times it (`optimize`). The library calls are methods whose
  effect is an outcome value supplied by the caller.
- **UV synthesis** (`UvSynthesis`): each vertex `x, y, z` becomes
  `((x + size/2)/size, (y + size/2)/size)`.
- **Allocator hooks** (`Allocator`): the single `LAYOUT` slot that `meshopt_alloc`
  writes and `meshopt_dealloc` reads, as a class, with a replay function over call
  sequences and lemmas about it.
- **Orchestration** (`Pipeline`): `png2mesh`, given the tessellated tile.

Shared types live in `Wrappers` (`Option`, `Result`) and `Ints` (`u8`, `u32`). Every
panic of the source (`unwrap`, a failed `assert_eq!`, an out-of-bounds index) is an
`Err` value in the model.

The code checks less than its comment on line 34 ("check we have a 256x256px image")
suggests: the assertion on line 37 compares only the frame's byte count with `256 * 256 * 3`. It checks neither
width, height nor channel count, so, for example, a 256 x 192 RGBA frame passes it.
The model follows the code: `Png2Elevation` accepts every frame of 196608 bytes.

## Model

| member | source | states |
|---|---|---|
| `Elevation.PixelElevation` | src/terrain/dem2mesh/src/lib.rs:54 | the elevation equals the pixel's 24-bit code minus 128*65536, divided by 256, so it lies in [-32768, 32767.99609375] |
| `Elevation.Code` | src/terrain/dem2mesh/src/lib.rs:54 | the code of a pixel is below 2^24 and its base-256 digits are R, G and B |
| `Elevation.PixelOfCode` | src/terrain/dem2mesh/src/lib.rs:54 | every code below 2^24 is the code of the pixel it builds |
| `Elevation.PixelOfCodeInverts` | src/terrain/dem2mesh/src/lib.rs:54 | decoding a pixel's code gives back that pixel, so `Code` and `PixelOfCode` are inverse |
| `Elevation.ArithmeticIsExactInF32` | src/terrain/dem2mesh/src/lib.rs:54 | each operand and intermediate of the `f32` expression is `m/256` with `|m| < 2^24`, so each `f32` step is exact |
| `Elevation.ElevationInjective` | src/terrain/dem2mesh/src/lib.rs:54 | two pixels decode to the same elevation exactly when they are the same pixel |
| `Elevation.ElevationStrictlyIncreasing` | src/terrain/dem2mesh/src/lib.rs:54 | a smaller 24-bit code gives a smaller elevation, and conversely |
| `Elevation.ElevationRoundTrip` | src/terrain/dem2mesh/src/lib.rs:54 | the pixel built from code `c` decodes to `(c - 128*65536)/256` |
| `Elevation.BlackPixelIsLowest` | src/terrain/dem2mesh/src/lib.rs:54 | pixel (0,0,0) decodes to -32768, the lowest elevation of any pixel |
| `Elevation.SeaLevelPixel` | src/terrain/dem2mesh/src/lib.rs:54 | pixel (128,0,0) decodes to exactly 0 |
| `Elevation.Elevations` | src/terrain/dem2mesh/src/lib.rs:53-55 | succeeds exactly when the buffer length is a multiple of 3 (otherwise the trailing chunk panics); then yields one sample per 3 bytes, sample i being the elevation of bytes 3i, 3i+1, 3i+2 |
| `Elevation.Png2Elevation` | src/terrain/dem2mesh/src/lib.rs:33-56 | fails on a decoder error and on any frame whose size is not 196608 bytes (reporting it); otherwise returns exactly 65536 samples in raster order |
| `Elevation.SampleDependsOnItsPixel` | src/terrain/dem2mesh/src/lib.rs:53-55 | two buffers that agree on bytes 3i..3i+2 agree on sample i |
| `Elevation.UniformFrameIsFlat` | src/terrain/dem2mesh/src/lib.rs:53-55 | a frame of one colour decodes to a constant height field of that colour's elevation |
| `Elevation.UniformTileIsFlat` | src/terrain/dem2mesh/src/lib.rs:33-56 | a one-colour frame of 196608 bytes decodes to 65536 copies of the colour's elevation |
| `Elevation.BlackFrame` | src/terrain/dem2mesh/src/lib.rs:33-56 | an all-zero frame of 196608 bytes decodes to 65536 samples of -32768 |
| `Elevation.SeaLevelFrame` | src/terrain/dem2mesh/src/lib.rs:33-56 | a frame of pixels (128,0,0) decodes to 65536 samples of exactly 0 |
| `RustVec.Resized` | src/terrain/dem2mesh/src/lib.rs:112 | resizing gives length n, keeps every old element below n and fills the rest with the fill value |
| `RustVec.ResizedShrinksToPrefix` | src/terrain/dem2mesh/src/lib.rs:112 | resizing to at most the current length is taking the prefix |
| `RustVec.ResizedIdempotent` | src/terrain/dem2mesh/src/lib.rs:112 | resizing twice to the same length changes nothing more |
| `RustVec.Vec.Filled` | src/terrain/dem2mesh/src/lib.rs:98 | `vec![x; n]` holds n copies of x |
| `RustVec.Vec.Resize` | src/terrain/dem2mesh/src/lib.rs:112 | the in-place resize leaves the vector holding `Resized` of its old contents |
| `MeshOpt.Scratch` | src/terrain/dem2mesh/src/lib.rs:98-111 | the zero-filled scratch buffer after a library write holds the written values first and zeros after |
| `MeshOpt.MeshoptSimplify` | src/terrain/dem2mesh/src/lib.rs:100-111 | the library call overwrites the start of the destination with what it writes, leaves the rest, and returns its count |
| `MeshOpt.MeshoptOptimizeVertexFetch` | src/terrain/dem2mesh/src/lib.rs:118-127 | the library call overwrites the start of the destination, rewrites the caller's index buffer, and returns its count |
| `MeshOpt.SimplifiedIndices` | src/terrain/dem2mesh/src/lib.rs:97-113 | the result has exactly the returned count of entries, each a written index or, past what was written, 0 |
| `MeshOpt.OptimizedPositions` | src/terrain/dem2mesh/src/lib.rs:117-129 | the result has exactly three entries per returned vertex, each a written coordinate or, past what was written, 0.0 |
| `MeshOpt.Simplify` | src/terrain/dem2mesh/src/lib.rs:90-114 | returns a new vector holding `SimplifiedIndices` for the input length and the library outcome |
| `MeshOpt.Optimize` | src/terrain/dem2mesh/src/lib.rs:116-130 | returns `OptimizedPositions` for the input length and outcome, and leaves the index buffer rewritten by the library |
| `MeshOpt.SimplifyKeepsScratchPrefix` | src/terrain/dem2mesh/src/lib.rs:98-113 | with a count at most the input length, the result is the first count entries of the scratch buffer, never longer than the input, and exactly what was written when the count is what was written |
| `MeshOpt.SimplifyKeepsWholeTriangles` | src/terrain/dem2mesh/src/lib.rs:112-113 | when the library reports a whole number of triangles, at most the input length, the result length is a multiple of 3 and at most the input length, whatever the library wrote into the scratch buffer |
| `MeshOpt.OptimizeKeepsScratchPrefix` | src/terrain/dem2mesh/src/lib.rs:117-129 | with at most len/3 vertices reported, the result is the first 3*count scratch entries, no longer than the input, and exactly what was written when that is 3*count coordinates |
| `MeshOpt.RemappedIndicesAddressResult` | src/terrain/dem2mesh/src/lib.rs:119-129 | every remapped index below the reported count names a whole vertex of the returned buffer |
| `UvSynthesis.Normalize` | src/terrain/dem2mesh/src/lib.rs:159-160 | the texture coordinate t of planar coordinate c satisfies t * size - size/2 = c |
| `UvSynthesis.NormalizeRoundTrip` | src/terrain/dem2mesh/src/lib.rs:159-160 | normalising and denormalising a coordinate are inverse |
| `UvSynthesis.NormalizeInUnitInterval` | src/terrain/dem2mesh/src/lib.rs:159-160 | for a positive size, a coordinate maps into [0,1] exactly when it lies in [-size/2, size/2] |
| `UvSynthesis.Source` | src/terrain/dem2mesh/src/lib.rs:157-162 | the vertex-buffer entry behind each UV entry is an x or a y coordinate, never z |
| `UvSynthesis.Uvs` | src/terrain/dem2mesh/src/lib.rs:157-162 | succeeds unless a trailing chunk has a single coordinate; then yields two values per chunk, entry i being the normalised x (even i) or y (odd i) of vertex i/2 |
| `UvSynthesis.UvsPerVertex` | src/terrain/dem2mesh/src/lib.rs:157-162 | a buffer of whole vertices yields exactly 2 values per vertex: u from x_k and v from y_k |
| `UvSynthesis.UvsIgnoreZ` | src/terrain/dem2mesh/src/lib.rs:157-162 | two vertex buffers that differ only in z give the same UV buffer |
| `UvSynthesis.UvsInUnitSquare` | src/terrain/dem2mesh/src/lib.rs:157-162 | when every x and y lies in [-size/2, size/2] and size > 0, every UV value lies in [0,1] |
| `Allocator.LayoutFor` | src/terrain/dem2mesh/src/lib.rs:77 | `Layout::from_size_align(size, 1)` succeeds exactly when size is at most `isize::MAX`, giving alignment 1; otherwise its `unwrap` panics with an overflow |
| `Allocator.DeallocLayout` | src/terrain/dem2mesh/src/lib.rs:82 | `LAYOUT.unwrap()` yields the recorded layout exactly when one is recorded, and panics otherwise |
| `Allocator.Step` | src/terrain/dem2mesh/src/lib.rs:76-83 | one hook call panics exactly for an oversized allocation or a deallocation with nothing recorded; an allocation records its layout, a deallocation keeps the slot |
| `Allocator.Run` | src/terrain/dem2mesh/src/lib.rs:76-83 | replaying calls stops at the first panic; an overflow panic needs an oversized allocation, and deallocations alone keep a recorded slot |
| `Allocator.LastAllocSize` | src/terrain/dem2mesh/src/lib.rs:76-83 | reference definition: the size of the last allocation call, present exactly when some allocation call exists |
| `Allocator.MeshoptAllocator.constructor` | src/terrain/dem2mesh/src/lib.rs:64 | the slot starts empty |
| `Allocator.MeshoptAllocator.Alloc` | src/terrain/dem2mesh/src/lib.rs:76-79 | an accepted size (at most `isize::MAX`) is recorded in the slot with alignment 1; a rejected size panics and leaves the slot as it was |
| `Allocator.MeshoptAllocator.Dealloc` | src/terrain/dem2mesh/src/lib.rs:81-83 | frees with the recorded layout whatever the pointer, panics when nothing is recorded, and does not change the slot |
| `Allocator.RunAppend` | src/terrain/dem2mesh/src/lib.rs:76-83 | replaying two call sequences in turn is replaying their concatenation |
| `Allocator.RunRecordsLastAlloc` | src/terrain/dem2mesh/src/lib.rs:64-83 | after any panic-free sequence of calls the slot holds the layout of the most recent allocation, or its initial content if there was none |
| `Allocator.DeallocUsesLastAlloc` | src/terrain/dem2mesh/src/lib.rs:64-83 | from the initial empty slot, a deallocation succeeds exactly when an allocation preceded it, and frees with the most recent allocation's size |
| `Allocator.DeallocIgnoresPointer` | src/terrain/dem2mesh/src/lib.rs:81-83 | a deallocation's effect does not depend on its pointer and leaves the slot unchanged |
| `Allocator.DeallocFirstPanics` | src/terrain/dem2mesh/src/lib.rs:64-83 | a deallocation before any allocation panics, whatever follows |
| `Allocator.OverlappingAllocationsShareSlot` | src/terrain/dem2mesh/src/lib.rs:76-83 | after allocating a and then b, the next deallocation uses size b even if it frees the first block |
| `Pipeline.Png2Mesh` | src/terrain/dem2mesh/src/lib.rs:133-165 | fails exactly when decoding fails, with its error; otherwise returns the compacted positions (3 per vertex), the remapped indices, and exactly one normalised (u, v) pair per final vertex |

## Left out

- PNG decoding through the `png` crate (lines 35-42) is not modelled: the model takes the decoded frame, or `None` when `read_info` or `next_frame` failed.
- `plane::build_tile_mesh` (lines 2 and 136) is not part of this model; its output is an input of `Pipeline.Png2Mesh`, which therefore does not tie the tile to the decoded height field, and the `segments` argument does not appear.
- The meshoptimizer algorithms behind `meshopt_simplify` and `meshopt_optimizeVertexFetch` are foreign C++ code: what they write and return is a caller-supplied outcome, so the model does not relate that outcome to the target count, the error bound or the vertex data.
- Both library calls are passed `vertices.len()` / `position.len()`, a count of floats rather than of vertices, as their vertex count; since the library is not modelled, what it does with that argument is not captured.
- `meshopt_setAllocator` (lines 143-146) and the order in which the hooks are installed before the library calls are not modelled; the library's own use of the hooks is not modelled either, so the allocator is analysed on call sequences (`Allocator.Run`).
- Actual memory allocation and freeing through `alloc`/`dealloc`, and the raw pointer casts (lines 78, 82, 97, 102-105, 120-123), are memory plumbing and are not modelled; in particular a zero-size `alloc` and a `dealloc` with a mismatched layout are not detected.
- wasm-bindgen and serde marshalling, console logging, `__assert_fail`, the panicking `_Znwm`/`_ZdlPv` stubs and `init` (lines 21-31, 58-62, 66-74, 85-88, 164, 167-170) are host-boundary I/O.
- The target triangle count `(index.len() as f32 * 0.2) as usize` (line 151) depends on `f32` rounding; it is the `targetCount` input of `Pipeline.Png2Mesh`.
- UvSynthesis.Uvs: computed over `real`, so the `f32` rounding of the UV division is not modelled; it also requires a non-zero size, whereas the source divides by zero into infinities or NaN.
- Pipeline.Png2Mesh: requires a non-zero size for the same reason.
- MeshOpt.Optimize: `position_count * 3` is computed on unbounded integers; a `usize` overflow cannot occur for counts bounded by the input length in a 32-bit address space and is not modelled.
- Allocator.MeshoptAllocator.Alloc: sizes are unbounded naturals; only the `isize::MAX` rejection of `Layout::from_size_align` with alignment 1 on a 32-bit target is modelled.
