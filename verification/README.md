# Coordinate conversions of liboverviewer, in Dafny

This project models the coordinate layer of liboverviewer, a reader for
Minecraft-style worlds. A world is made of blocks. Blocks are grouped into
chunks of 16 x 16 x 16, and chunks are grouped horizontally into region
files of 32 x 32 chunks. The Rust code offers three conversions:

- `BlockCoord::to_chunk_coord`: the chunk that holds a global block position
  (`>> 4` on each axis);
- `BlockCoord::to_inchunk_coord`: the block's offset inside that chunk
  (Rust's truncating `% 16`, plus 16 when the component is negative);
- `ChunkCoord::to_region_coord`: the region file that holds a chunk
  (`>> 5` on x and z; y is dropped).

Files:

- `rust_int.dfy` (module `RustInt`): the `i32` range, Rust's arithmetic
  shift `>>` (`Shr`, repeated halving toward minus infinity) and Rust's
  truncating remainder `%` (`RustRem`). Lemmas tie them to Dafny's Euclidean
  `/` and `%`.
- `coords.dfy` (module `Coords`): one datatype per coordinate level
  (`BlockCoord`, `ChunkCoord`, `BlockInChunkCoord`, `RegionCoord`) and the
  three conversions. It also holds `ToInChunkCoordFloor`, the corrected
  in-chunk conversion (see Findings).
- `coord_laws.dfy` (module `CoordLaws`): floor-division characterisations,
  the in-chunk bound, reconstruction, the split/recombine round trip and
  region facts.
- `coord_vectors.dfy` (module `CoordVectors`): the concrete vectors of the
  module's unit test.

The Rust code uses the phantom type parameters `CoordType` and `SystemType`
to keep levels apart at compile time. Here each combination is its own
datatype, so the levels cannot be mixed either. Every component is an
`int` that `Valid()` confines to the `i32` range. Each conversion requires
a valid input and ensures a valid output. Every intermediate value
(`RustRem(c, 16)` lies in -15..15) also stays in range, so no conversion
overflows.

The doc comment on `BlockInChunkCoord` (coords.rs:42) bounds every in-chunk
component between 0 and 15 inclusive. The code computes `(c % 16) + 16` for
a negative component, with Rust's truncating `%`, and that gives 16 on a
negative multiple of 16. The model follows the code in `ToInChunkCoord`
and records the difference under Findings.

## Model

| member | source | states |
|---|---|---|
| RustInt.Shr | liboverviewer/src/coords.rs:51-53 | `>>` on an `i32` keeps the sign and never moves away from zero, so it stays within `i32`; Rust's shift amount must be below 32 |
| RustInt.ShrBrackets | liboverviewer/src/coords.rs:51-53 | `x >> n` lies between two consecutive multiples of 2^n around `x`: `2^n * r <= x < 2^n * (r + 1)`, so the shift rounds toward minus infinity |
| RustInt.ShrIsFloorDiv | liboverviewer/src/coords.rs:51-53 | `x >> n` equals Dafny's `x / 2^n`, which is floor division for a positive divisor, also for negative `x` |
| RustInt.ShrShr | liboverviewer/src/coords.rs:50-81 | shifting by 4 and then by 5 (block to chunk to region) is a single shift by 9 |
| RustInt.RustRem | liboverviewer/src/coords.rs:63-65 | Rust's `%`: magnitude below the divisor's, sign of the dividend, dividend minus result divisible by the divisor; panicking inputs (zero divisor, `i32::MIN % -1`) excluded |
| RustInt.RustRemVersusFloorMod | liboverviewer/src/coords.rs:60-65 | for a positive divisor the truncating remainder equals the floor remainder on non-negative input, is 0 on negative multiples, and is one divisor below the floor remainder otherwise |
| Coords.ChunkAxis | liboverviewer/src/coords.rs:51-53 | one axis of `>> 4`: the chunk index whose 16-block span holds the block, within `i32` |
| Coords.ToChunkCoord | liboverviewer/src/coords.rs:50-57 | the chunk returned holds the block on all three axes, `16*r <= b < 16*r + 16`, and is within `i32` |
| Coords.InChunkAxis | liboverviewer/src/coords.rs:60-65 | one axis of `(c % 16) + (c < 0 ? 16 : 0)`: the floor remainder by 16, except 16 on a negative multiple of 16 |
| Coords.ToInChunkCoord | liboverviewer/src/coords.rs:59-69 | each component is the floor remainder by 16, or 16 on a negative multiple of 16; all in 0..16 and within `i32` |
| Coords.ToInChunkCoordFloor | liboverviewer/src/coords.rs:42-43 | the corrected offset: every component in 0..15, and 16 times the chunk from `ToChunkCoord` plus the offset is the block |
| Coords.RegionAxis | liboverviewer/src/coords.rs:76-77 | one axis of `>> 5`: the region index whose 32-chunk span holds the chunk, within `i32` |
| Coords.ToRegionCoord | liboverviewer/src/coords.rs:75-81 | the region returned holds the chunk on x and z, `32*r <= c < 32*r + 32`, and is within `i32` |
| CoordLaws.ChunkIsFloorDiv | liboverviewer/src/coords.rs:50-57 | the chunk is the floor division by 16 of x, y and z, negative inputs included |
| CoordLaws.InChunkBoundIff | liboverviewer/src/coords.rs:42-69 | the documented 0..15 bound holds if and only if no component is a negative multiple of 16; a negative non-multiple lands in 1..15 |
| CoordLaws.MinusSixteenLeavesChunk | liboverviewer/src/coords.rs:59-69 | block (-16,0,0) is in chunk (-1,0,0) but gets offset (16,0,0), outside the chunk; chunk and offset recombine to (0,0,0) |
| CoordLaws.ReconstructIff | liboverviewer/src/coords.rs:50-69 | `16*chunk + offset == block` if and only if no component is a negative multiple of 16; per axis, a component that is not a negative multiple of 16 is rebuilt exactly and one that is comes out 16 too far |
| CoordLaws.AsWrittenAgreesWithFloor | liboverviewer/src/coords.rs:59-69 | the written in-chunk conversion equals the floor-remainder one if and only if no component is a negative multiple of 16 |
| CoordLaws.SplitRecombine | liboverviewer/src/coords.rs:42-69 | any chunk with any in-chunk offset names a block that converts back to exactly that chunk and offset |
| CoordLaws.RegionIsFloorDiv | liboverviewer/src/coords.rs:75-81 | the region is the floor division by 32 of the chunk's x and z |
| CoordLaws.RegionIgnoresY | liboverviewer/src/coords.rs:75-81 | two chunks share a region if and only if their x and z agree after floor division by 32; y plays no part |
| CoordLaws.RegionOfBlock | liboverviewer/src/coords.rs:50-81 | block to chunk to region is floor division by 512 of x and z |
| CoordVectors.SmallPositiveBlock | liboverviewer/src/coords.rs:95-104 | block (5,68,0) gives chunk (0,4,0) and offset (5,4,0) |
| CoordVectors.LastBlockOfChunk | liboverviewer/src/coords.rs:108-117 | block (31,79,31) gives chunk (1,4,1) and offset (15,15,15) |
| CoordVectors.NegativeBlock | liboverviewer/src/coords.rs:121-130 | block (-1,63,-2) gives chunk (-1,3,-1) and offset (15,15,14) |
| CoordVectors.RegionOfSmallChunk | liboverviewer/src/coords.rs:133-136 | chunk (30,4,-3) gives region (0,-1) |
| CoordVectors.RegionOfFarChunk | liboverviewer/src/coords.rs:139-142 | chunk (70,16,-30) gives region (2,-1) |

## Left out

- liboverviewer/src/world.rs: every operation of `World`, `Regionset` and their iterators is `unimplemented!()`, so there is no behaviour to model.
- src/height_map.rs: a command-line program doing file and image I/O. The `coord!` macro and the `join` method it calls are not defined in coords.rs, and they are not part of this model.
- liboverviewer/src/error.rs: error-message formatting and `From` conversions only.
- liboverviewer/src/lib.rs: crate and module declarations only.
- The `PhantomData` markers and the `block_coord!` / `chunk_coord!` macros: compile-time plumbing. They are represented by separate datatypes, not by runtime data.
- The generic `Coord3<T, …>` and `Coord2<T, …>` structs: every alias in the code instantiates `T` as `i32`, so the model fixes the component type to an `i32`-bounded `int`.
- The region-file cache, container index and world discovery belong to the unimplemented world layer and are not modelled.

## Findings

| source | as written | input that shows it | evidently intended | confidence | as-written member | corrected member |
|---|---|---|---|---|---|---|
| liboverviewer/src/coords.rs:59-69 | `(c % 16) + 16` for negative `c`, with truncating `%` | block (-16,0,0): the truncating remainder is 0, so the offset is 16. The doc comment at line 42 promises 0..15, and chunk (-1,0,0) with offset 16 recombines to (0,0,0) | the floor remainder, 0 for (-16,0,0), as `c & 15` or `rem_euclid(16)` computes | high; not executed | CoordLaws.MinusSixteenLeavesChunk | Coords.ToInChunkCoordFloor |
