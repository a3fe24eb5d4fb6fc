/**
 The coordinate types of the world and the conversions between them.

 A world is divided into chunks of 16 x 16 x 16 blocks, and chunks are
 grouped horizontally into region files of 32 x 32 chunks. Each level of
 position is its own datatype, standing for one combination of a coordinate
 type (block, chunk, region) and the system it is measured in (the world or
 one chunk), so positions of different levels cannot be mixed up.
 Every component is an `i32`; `Valid` says so.
 */
module Coords {
  import opened RustInt

  /** A global block position, in blocks from the world origin. */
  datatype BlockCoord = BlockCoord(x: int, y: int, z: int) {
    predicate Valid() {
      InI32(x) && InI32(y) && InI32(z)
    }
  }

  /** A global chunk position, in chunks from the world origin. */
  datatype ChunkCoord = ChunkCoord(x: int, y: int, z: int) {
    predicate Valid() {
      InI32(x) && InI32(y) && InI32(z)
    }
  }

  /** A block position measured from the origin of its chunk. */
  datatype BlockInChunkCoord = BlockInChunkCoord(x: int, y: int, z: int) {
    predicate Valid() {
      InI32(x) && InI32(y) && InI32(z)
    }

    /** Every component names one of the 16 block columns of a chunk axis. */
    predicate InChunk() {
      0 <= x < ChunkWidth && 0 <= y < ChunkWidth && 0 <= z < ChunkWidth
    }
  }

  /** The position of a region file; regions have no vertical extent. */
  datatype RegionCoord = RegionCoord(x: int, z: int) {
    predicate Valid() {
      InI32(x) && InI32(z)
    }
  }

  /** log2 of the number of blocks along one axis of a chunk. */
  const ChunkShift: nat := 4
  const ChunkWidth: int := 16
  /** log2 of the number of chunks along one horizontal axis of a region. */
  const RegionShift: nat := 5
  const RegionWidth: int := 32

  /** True when `c` is a negative multiple of the chunk width: the inputs the in-chunk conversion gets wrong. */
  predicate NegativeChunkMultiple(c: int) {
    c < 0 && c % ChunkWidth == 0
  }

  /** True when some component of `b` is a negative multiple of the chunk width. */
  predicate OnNegativeChunkBoundary(b: BlockCoord) {
    NegativeChunkMultiple(b.x) || NegativeChunkMultiple(b.y) || NegativeChunkMultiple(b.z)
  }

  /** The block position at offset `o` inside chunk `ch`. */
  function Recombine(ch: ChunkCoord, o: BlockInChunkCoord): BlockCoord {
    BlockCoord(ChunkWidth * ch.x + o.x, ChunkWidth * ch.y + o.y, ChunkWidth * ch.z + o.z)
  }

  /** `c >> 4`: the index of the chunk whose 16-block span along this axis holds block `c`. */
  function ChunkAxis(c: int): (r: int)
    requires InI32(c)
    ensures InI32(r)
    ensures ChunkWidth * r <= c < ChunkWidth * r + ChunkWidth
  {
    ShrIsFloorDiv(c, ChunkShift);
    Shr(c, ChunkShift)
  }

  /** What chunk contains these coordinates: the chunk whose span holds the block on every axis. */
  function ToChunkCoord(b: BlockCoord): (r: ChunkCoord)
    requires b.Valid()
    ensures r.Valid()
    ensures ChunkWidth * r.x <= b.x < ChunkWidth * r.x + ChunkWidth
    ensures ChunkWidth * r.y <= b.y < ChunkWidth * r.y + ChunkWidth
    ensures ChunkWidth * r.z <= b.z < ChunkWidth * r.z + ChunkWidth
  {
    ChunkCoord(ChunkAxis(b.x), ChunkAxis(b.y), ChunkAxis(b.z))
  }

  /**
   `(c % 16) + (if c < 0 { 16 } else { 0 })` with Rust's truncating `%`.
   This is the floor remainder of `c` by 16 except on a negative multiple of
   16, where the truncating remainder is already 0 and the correction pushes
   the result to 16, outside the chunk.
   */
  function InChunkAxis(c: int): (r: int)
    requires InI32(c)
    ensures !NegativeChunkMultiple(c) ==> r == c % ChunkWidth
    ensures NegativeChunkMultiple(c) ==> r == ChunkWidth
  {
    RustRemVersusFloorMod(c, ChunkWidth);
    var correction := if c < 0 then ChunkWidth else 0;
    RustRem(c, ChunkWidth) + correction
  }

  /**
   Within a chunk, what are these coordinates, as the conversion is written:
   each component is the floor remainder by 16, except that a component
   that is a negative multiple of 16 becomes 16.
   */
  function ToInChunkCoord(b: BlockCoord): (r: BlockInChunkCoord)
    requires b.Valid()
    ensures r.Valid()
    ensures 0 <= r.x <= ChunkWidth && 0 <= r.y <= ChunkWidth && 0 <= r.z <= ChunkWidth
    ensures r.x == if NegativeChunkMultiple(b.x) then ChunkWidth else b.x % ChunkWidth
    ensures r.y == if NegativeChunkMultiple(b.y) then ChunkWidth else b.y % ChunkWidth
    ensures r.z == if NegativeChunkMultiple(b.z) then ChunkWidth else b.z % ChunkWidth
  {
    BlockInChunkCoord(InChunkAxis(b.x), InChunkAxis(b.y), InChunkAxis(b.z))
  }

  /**
   The in-chunk offset the conversion is documented to produce: the floor
   remainder by 16 on every axis (what `c & 15` computes on an `i32`). It is
   the offset that, added to the origin of the chunk `ToChunkCoord` picks,
   gives back the block.
   */
  function ToInChunkCoordFloor(b: BlockCoord): (r: BlockInChunkCoord)
    requires b.Valid()
    ensures r.Valid() && r.InChunk()
    ensures Recombine(ToChunkCoord(b), r) == b
  {
    var ch := ToChunkCoord(b);
    var r := BlockInChunkCoord(b.x % ChunkWidth, b.y % ChunkWidth, b.z % ChunkWidth);
    OffsetFromSpan(b.x, ch.x);
    OffsetFromSpan(b.y, ch.y);
    OffsetFromSpan(b.z, ch.z);
    r
  }

  /** If block `c` lies in the span of chunk `k`, its floor remainder is its distance from that chunk's origin. */
  lemma OffsetFromSpan(c: int, k: int)
    requires ChunkWidth * k <= c < ChunkWidth * k + ChunkWidth
    ensures ChunkWidth * k + c % ChunkWidth == c
    ensures c / ChunkWidth == k
  {
    DivModUnique(c, ChunkWidth, k, c - ChunkWidth * k);
  }

  /** `c >> 5`: the index of the region whose 32-chunk span along this axis holds chunk `c`. */
  function RegionAxis(c: int): (r: int)
    requires InI32(c)
    ensures InI32(r)
    ensures RegionWidth * r <= c < RegionWidth * r + RegionWidth
  {
    ShrIsFloorDiv(c, RegionShift);
    Shr(c, RegionShift)
  }

  /** What region contains this chunk: the region whose span holds the chunk on both horizontal axes. */
  function ToRegionCoord(c: ChunkCoord): (r: RegionCoord)
    requires c.Valid()
    ensures r.Valid()
    ensures RegionWidth * r.x <= c.x < RegionWidth * r.x + RegionWidth
    ensures RegionWidth * r.z <= c.z < RegionWidth * r.z + RegionWidth
  {
    RegionCoord(RegionAxis(c.x), RegionAxis(c.z))
  }
}
