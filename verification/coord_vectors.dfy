/**
 The concrete conversions the coordinate module's unit test checks, stated
 as lemmas about the model.
 */
module CoordVectors {
  import opened Coords

  /** Block (5, 68, 0) lies in chunk (0, 4, 0) at offset (5, 4, 0). */
  lemma SmallPositiveBlock()
    ensures ToChunkCoord(BlockCoord(5, 68, 0)) == ChunkCoord(0, 4, 0)
    ensures ToInChunkCoord(BlockCoord(5, 68, 0)) == BlockInChunkCoord(5, 4, 0)
  {
  }

  /** Block (31, 79, 31) is the last block of chunk (1, 4, 1) on every axis. */
  lemma LastBlockOfChunk()
    ensures ToChunkCoord(BlockCoord(31, 79, 31)) == ChunkCoord(1, 4, 1)
    ensures ToInChunkCoord(BlockCoord(31, 79, 31)) == BlockInChunkCoord(15, 15, 15)
  {
  }

  /** Block (-1, 63, -2) lies in chunk (-1, 3, -1) at offset (15, 15, 14). */
  lemma NegativeBlock()
    ensures ToChunkCoord(BlockCoord(-1, 63, -2)) == ChunkCoord(-1, 3, -1)
    ensures ToInChunkCoord(BlockCoord(-1, 63, -2)) == BlockInChunkCoord(15, 15, 14)
  {
  }

  /** Chunk (30, 4, -3) is in region (0, -1). */
  lemma RegionOfSmallChunk()
    ensures ToRegionCoord(ChunkCoord(30, 4, -3)) == RegionCoord(0, -1)
  {
  }

  /** Chunk (70, 16, -30) is in region (2, -1). */
  lemma RegionOfFarChunk()
    ensures ToRegionCoord(ChunkCoord(70, 16, -30)) == RegionCoord(2, -1)
  {
  }
}
