/**
 Properties relating the coordinate conversions to each other and to plain
 floor division: which block offsets stay inside their chunk, when a block
 can be rebuilt from its chunk and offset, and which region a chunk or a
 block falls in.
 */
module CoordLaws {
  import opened RustInt
  import opened Coords

  /** The chunk conversion is floor division by 16 on all three axes, negative positions included. */
  lemma ChunkIsFloorDiv(b: BlockCoord)
    requires b.Valid()
    ensures ToChunkCoord(b) == ChunkCoord(b.x / ChunkWidth, b.y / ChunkWidth, b.z / ChunkWidth)
  {
    var ch := ToChunkCoord(b);
    OffsetFromSpan(b.x, ch.x);
    OffsetFromSpan(b.y, ch.y);
    OffsetFromSpan(b.z, ch.z);
  }

  /**
   The documented bound of the in-chunk offset, 0 to 15 on every axis, holds
   exactly when no component is a negative multiple of 16. A negative
   component that is not a multiple of 16 lands in 1 to 15.
   */
  lemma InChunkBoundIff(b: BlockCoord)
    requires b.Valid()
    ensures ToInChunkCoord(b).InChunk() <==> !OnNegativeChunkBoundary(b)
    ensures b.x < 0 && !NegativeChunkMultiple(b.x) ==> 1 <= ToInChunkCoord(b).x <= 15
    ensures b.y < 0 && !NegativeChunkMultiple(b.y) ==> 1 <= ToInChunkCoord(b).y <= 15
    ensures b.z < 0 && !NegativeChunkMultiple(b.z) ==> 1 <= ToInChunkCoord(b).z <= 15
  {
  }

  /** Block -16 is the first block of chunk -1, yet the conversion places it at offset 16. */
  lemma MinusSixteenLeavesChunk()
    ensures ToInChunkCoord(BlockCoord(-16, 0, 0)) == BlockInChunkCoord(16, 0, 0)
    ensures ToChunkCoord(BlockCoord(-16, 0, 0)) == ChunkCoord(-1, 0, 0)
    ensures !ToInChunkCoord(BlockCoord(-16, 0, 0)).InChunk()
    ensures Recombine(ToChunkCoord(BlockCoord(-16, 0, 0)), ToInChunkCoord(BlockCoord(-16, 0, 0))) == BlockCoord(0, 0, 0)
  {
    ChunkIsFloorDiv(BlockCoord(-16, 0, 0));
  }

  /**
   Reconstruction: 16 times the chunk plus the in-chunk offset gives the
   block back exactly when no component is a negative multiple of 16; on
   such a component the rebuilt block is 16 too far.
   */
  lemma ReconstructIff(b: BlockCoord)
    requires b.Valid()
    ensures Recombine(ToChunkCoord(b), ToInChunkCoord(b)) == b <==> !OnNegativeChunkBoundary(b)
    ensures Recombine(ToChunkCoord(b), ToInChunkCoord(b)).x == if NegativeChunkMultiple(b.x) then b.x + ChunkWidth else b.x
    ensures Recombine(ToChunkCoord(b), ToInChunkCoord(b)).y == if NegativeChunkMultiple(b.y) then b.y + ChunkWidth else b.y
    ensures Recombine(ToChunkCoord(b), ToInChunkCoord(b)).z == if NegativeChunkMultiple(b.z) then b.z + ChunkWidth else b.z
  {
    var ch := ToChunkCoord(b);
    OffsetFromSpan(b.x, ch.x);
    OffsetFromSpan(b.y, ch.y);
    OffsetFromSpan(b.z, ch.z);
  }

  /** The conversion as written and the floor-remainder conversion agree exactly off the negative chunk boundaries. */
  lemma AsWrittenAgreesWithFloor(b: BlockCoord)
    requires b.Valid()
    ensures ToInChunkCoord(b) == ToInChunkCoordFloor(b) <==> !OnNegativeChunkBoundary(b)
  {
  }

  /**
   Splitting undoes joining: for any chunk and any offset inside a chunk,
   the block they name converts back to that same chunk and offset. With
   the reconstruction in `ToInChunkCoordFloor`'s contract, a block's
   (chunk, offset) pair is the only one that names it.
   */
  lemma SplitRecombine(ch: ChunkCoord, o: BlockInChunkCoord)
    requires o.InChunk() && Recombine(ch, o).Valid()
    ensures ToChunkCoord(Recombine(ch, o)) == ch
    ensures ToInChunkCoordFloor(Recombine(ch, o)) == o
  {
    var b := Recombine(ch, o);
    OffsetFromSpan(b.x, ch.x);
    OffsetFromSpan(b.y, ch.y);
    OffsetFromSpan(b.z, ch.z);
    ChunkIsFloorDiv(b);
  }

  /** The region conversion is floor division by 32 of x and of z, negative positions included. */
  lemma RegionIsFloorDiv(c: ChunkCoord)
    requires c.Valid()
    ensures ToRegionCoord(c) == RegionCoord(c.x / RegionWidth, c.z / RegionWidth)
  {
    var r := ToRegionCoord(c);
    DivModUnique(c.x, RegionWidth, r.x, c.x - RegionWidth * r.x);
    DivModUnique(c.z, RegionWidth, r.z, c.z - RegionWidth * r.z);
  }

  /** The region ignores the vertical chunk index: chunks differing only in y share a region. */
  lemma RegionIgnoresY(c: ChunkCoord, c': ChunkCoord)
    requires c.Valid() && c'.Valid()
    ensures ToRegionCoord(c) == ToRegionCoord(c') <==> c.x / RegionWidth == c'.x / RegionWidth && c.z / RegionWidth == c'.z / RegionWidth
    ensures c.x == c'.x && c.z == c'.z ==> ToRegionCoord(c) == ToRegionCoord(c')
  {
    RegionIsFloorDiv(c);
    RegionIsFloorDiv(c');
  }

  /** Going from a block to its chunk and then to its region is floor division of x and z by 16 * 32 = 512. */
  lemma RegionOfBlock(b: BlockCoord)
    requires b.Valid()
    ensures ToRegionCoord(ToChunkCoord(b)) == RegionCoord(b.x / (ChunkWidth * RegionWidth), b.z / (ChunkWidth * RegionWidth))
  {
    var blocksPerRegion := ChunkWidth * RegionWidth;
    assert Pow2(9) == 512;
    assert blocksPerRegion == Pow2(ChunkShift + RegionShift);
    ShrShr(b.x, ChunkShift, RegionShift);
    ShrShr(b.z, ChunkShift, RegionShift);
    ShrIsFloorDiv(b.x, ChunkShift + RegionShift);
    ShrIsFloorDiv(b.z, ChunkShift + RegionShift);
  }
}
