/** The load-time constants of the chunk manager. The dimensions are
    parameters of the model; the game's build values are named constants. */
module Settings {

  datatype Config = Config(
    chunkWidth: int,           // voxels along x and z in one chunk
    chunkHeight: int,          // vertical extent of a ground chunk
    waterChunkHeight: int,     // vertical extent of a water chunk
    worldSizeInChunks: int,    // side of the square loaded at start-up
    viewDistanceInChunks: int  // half side of the visibility window
  ) {
    /** Dimensions for which the mesh builder's arithmetic is meaningful. */
    predicate Valid() {
      chunkWidth >= 1 && chunkHeight >= 2 && waterChunkHeight >= 2
    }

    /** The vertical extent a column is denormalised against. */
    function Extent(isWater: bool): int {
      if isWater then waterChunkHeight else chunkHeight
    }
  }

  const CHUNK_WIDTH: int := 24
  const CHUNK_HEIGHT: int := 12
  const WORLD_SIZE_IN_CHUNKS: int := 2
  const VIEW_DISTANCE_IN_CHUNKS: int := 6

  /** Light level every face vertex carries in its colour's alpha channel. */
  const SHADOW_LIGHT_LEVEL: real := 0.1

  /** Brightening factor applied to top faces. */
  const TOP_FACE_LIGHT_FACTOR: real := 1.25
}
