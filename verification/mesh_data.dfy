/** The mesh buffers the builder fills: positions, triangle indices, texture
    coordinates and per-vertex colours, plus the index of the next vertex. */
module Mesh {
  import opened Primitives
  import opened VoxelData

  datatype MeshData = MeshData(
    vertices: seq<Vec3>,
    triangles: seq<int>,
    uvs: seq<Vec2>,
    vertexIndex: int,
    colors: seq<Color>
  )

  const EMPTY_MESH: MeshData := MeshData([], [], [], 0, [])

  /** Offsets, from a quad's first vertex, of the two triangles drawn for it:
      (0, 1, 2) and (2, 1, 3), which share the diagonal 1-2. */
  const QUAD_TRIANGLES: seq<int> := [0, 1, 2, 2, 1, 3]

  /** The six triangle indices of a quad whose first vertex is `v`. */
  function QuadIndices(v: int): seq<int> {
    [v + QUAD_TRIANGLES[0], v + QUAD_TRIANGLES[1], v + QUAD_TRIANGLES[2],
     v + QUAD_TRIANGLES[3], v + QUAD_TRIANGLES[4], v + QUAD_TRIANGLES[5]]
  }

  /** Appends the two triangles of the quad whose four vertices start at
      `vertexIndex`, then moves `vertexIndex` past them. */
  function AddFace(m: MeshData): (r: MeshData)
    ensures r.vertexIndex == m.vertexIndex + 4
    ensures r.triangles == m.triangles + QuadIndices(m.vertexIndex)
    ensures forall j :: |m.triangles| <= j < |r.triangles| ==> m.vertexIndex <= r.triangles[j] < r.vertexIndex
    ensures r.vertices == m.vertices && r.uvs == m.uvs && r.colors == m.colors
  {
    var v := m.vertexIndex;
    m.(triangles := m.triangles + [v, v + 1, v + 2, v + 2, v + 1, v + 3], vertexIndex := v + 4)
  }

  /** Atlas row of a texture id: C#'s truncating `id / TextureAtlasSizeInBlocks`. */
  function AtlasRow(id: int): int {
    TruncDiv(id, TEXTURE_ATLAS_SIZE_IN_BLOCKS)
  }

  /** Atlas column of a texture id: what is left of `id` after whole rows. */
  function AtlasColumn(id: int): int {
    id - AtlasRow(id) * TEXTURE_ATLAS_SIZE_IN_BLOCKS
  }

  /** Reference description of atlas cell (col, row) with row 0 at the top of
      the image: u spans [col/N, (col+1)/N] and v spans [1-(row+1)/N, 1-row/N].
      The corners are listed (umin,vmin), (umin,vmax), (umax,vmin), (umax,vmax). */
  function CellCorners(col: int, row: int): seq<Vec2> {
    var n := TEXTURE_ATLAS_SIZE_IN_BLOCKS as real;
    var uMin := col as real / n;
    var uMax := (col + 1) as real / n;
    var vMin := 1.0 - (row + 1) as real / n;
    var vMax := 1.0 - row as real / n;
    [Vec2(uMin, vMin), Vec2(uMin, vMax), Vec2(uMax, vMin), Vec2(uMax, vMax)]
  }

  /** The four texture coordinates AddTexture appends for `id`. For a
      non-negative id they are the corners of the atlas cell in column
      `id mod N` and row `id div N`, counted from the top. */
  function AtlasUVs(id: int): (uvs: seq<Vec2>)
    ensures |uvs| == 4
    ensures id >= 0 ==> uvs == CellCorners(id % TEXTURE_ATLAS_SIZE_IN_BLOCKS, id / TEXTURE_ATLAS_SIZE_IN_BLOCKS)
  {
    var s := NORMALIZED_BLOCK_TEXTURE_SIZE;
    var x := AtlasColumn(id) as real * s;
    var y := 1.0 - AtlasRow(id) as real * s - s;
    [Vec2(x, y), Vec2(x, y + s), Vec2(x + s, y), Vec2(x + s, y + s)]
  }

  /** Appends the texture coordinates of atlas block `id` for the face just added. */
  function AddTexture(m: MeshData, id: int): (r: MeshData)
    ensures r.uvs == m.uvs + AtlasUVs(id)
    ensures id >= 0 ==> r.uvs[|m.uvs|..] == CellCorners(id % TEXTURE_ATLAS_SIZE_IN_BLOCKS, id / TEXTURE_ATLAS_SIZE_IN_BLOCKS)
    ensures r.vertices == m.vertices && r.triangles == m.triangles
    ensures r.colors == m.colors && r.vertexIndex == m.vertexIndex
  {
    m.(uvs := m.uvs + AtlasUVs(id))
  }

  /** Every id that names a block of the atlas maps inside the texture. */
  lemma AtlasUVsInUnitSquare(id: int)
    requires 0 <= id < TEXTURE_ATLAS_SIZE_IN_BLOCKS * TEXTURE_ATLAS_SIZE_IN_BLOCKS
    ensures forall i :: 0 <= i < 4 ==> InUnitSquare(AtlasUVs(id)[i])
  {
    CellCornersInUnitSquare(id % 4, id / 4);
  }

  lemma CellCornersInUnitSquare(col: int, row: int)
    requires 0 <= col < TEXTURE_ATLAS_SIZE_IN_BLOCKS && 0 <= row < TEXTURE_ATLAS_SIZE_IN_BLOCKS
    ensures forall i :: 0 <= i < 4 ==> InUnitSquare(CellCorners(col, row)[i])
  {
    var c, r := col as real, row as real;
    assert 0.0 <= c / 4.0 && (c + 1.0) / 4.0 <= 1.0;
    assert 0.0 <= 1.0 - (r + 1.0) / 4.0 && 1.0 - r / 4.0 <= 1.0;
  }

  /** The atlas block whose cell has `p` as its (umin, vmin) corner. */
  function AtlasIdAt(p: Vec2): int {
    var n := TEXTURE_ATLAS_SIZE_IN_BLOCKS;
    var col := (p.u * n as real).Floor;
    var row := n - 1 - (p.v * n as real).Floor;
    row * n + col
  }

  /** Distinct atlas ids give distinct cells: the id can be read back from
      the first corner AddTexture appends. */
  lemma AtlasRoundTrip(id: int)
    requires 0 <= id < TEXTURE_ATLAS_SIZE_IN_BLOCKS * TEXTURE_ATLAS_SIZE_IN_BLOCKS
    ensures AtlasIdAt(AtlasUVs(id)[0]) == id
  {
    var col, row := id % 4, id / 4;
    assert AtlasUVs(id)[0] == CellCorners(col, row)[0];
    CellIdRoundTrip(col, row);
  }

  /** The (umin, vmin) corner of cell (col, row) reads back as row * N + col. */
  lemma CellIdRoundTrip(col: int, row: int)
    requires 0 <= col < TEXTURE_ATLAS_SIZE_IN_BLOCKS && 0 <= row < TEXTURE_ATLAS_SIZE_IN_BLOCKS
    ensures AtlasIdAt(CellCorners(col, row)[0]) == row * TEXTURE_ATLAS_SIZE_IN_BLOCKS + col
  {
    var p := CellCorners(col, row)[0];
    assert p.u * 4.0 == col as real;
    assert p.v * 4.0 == (3 - row) as real;
    assert (col as real).Floor == col;
    assert ((3 - row) as real).Floor == 3 - row;
  }

  /** The -1 that a face lookup returns for an unknown face lands outside the
      texture: the column is -1 because C# division truncates toward zero. */
  lemma NegativeIdLeavesAtlas()
    ensures AtlasUVs(-1)[0].u < 0.0
  {
    assert AtlasRow(-1) == 0;
  }
}
