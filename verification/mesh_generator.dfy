/** The voxel mesh builder: column heights from a normalised height grid, the
    per-face visibility rule, and the mesh assembled from every visible face
    in the builder's loop order (x, then z, then y, then face). */
module MeshGenerator {
  import opened Primitives
  import opened Settings
  import opened VoxelData
  import opened Mesh
  import opened Terrain

  /** A chunk's height grid, indexed `grid[x][z]`. */
  type HeightGrid = seq<seq<real>>

  predicate IsGrid(grid: HeightGrid, width: int) {
    |grid| == width && forall x :: 0 <= x < width ==> |grid[x]| == width
  }

  /** Every height in the grid is normalised to [0, 1]. */
  predicate Normalized(grid: HeightGrid) {
    forall x, z :: 0 <= x < |grid| && 0 <= z < |grid[x]| ==> 0.0 <= grid[x][z] <= 1.0
  }

  predicate InChunk(width: int, x: int, z: int) {
    0 <= x < width && 0 <= z < width
  }

  /** The number of voxels stacked in a column whose normalised height is
      `value`, in a chunk `extent` voxels tall: the floor of `extent * value`,
      pulled down to `extent - 1` when it reaches the extent, and raised to 1
      when it is exactly 0. */
  function StackHeight(extent: int, value: real): (h: int)
    ensures (extent as real * value).Floor != 0 && (extent as real * value).Floor < extent ==> h == (extent as real * value).Floor
    ensures (extent as real * value).Floor >= extent ==> h == if extent == 1 then 1 else extent - 1
    ensures extent >= 1 && (extent as real * value).Floor == 0 ==> h == 1
    ensures extent >= 2 ==> h <= extent - 1
    ensures extent >= 2 && 0.0 <= value <= 1.0 ==> 1 <= h
  {
    var h := (extent as real * value).Floor;
    assert extent >= 0 && value >= 0.0 ==> h >= 0 by {
      if extent >= 0 && value >= 0.0 {
        assert extent as real * value >= 0.0;
      }
    }
    var capped := if h >= extent then extent - 1 else h;
    if capped == 0 then 1 else capped
  }

  /** The height of column (x, z), against the water extent in a water chunk
      and the chunk height otherwise. */
  function GetHeightOfStack(cfg: Config, grid: HeightGrid, isWater: bool, x: int, z: int): (h: int)
    requires IsGrid(grid, cfg.chunkWidth) && InChunk(cfg.chunkWidth, x, z)
    ensures cfg.Valid() ==> h <= cfg.Extent(isWater) - 1
    ensures cfg.Valid() && 0.0 <= grid[x][z] <= 1.0 ==> 1 <= h
  {
    StackHeight(cfg.Extent(isWater), grid[x][z])
  }

  /** A side face on the chunk's border: its neighbour column would lie in
      another chunk. */
  predicate OnChunkEdge(width: int, x: int, z: int, face: int) {
    || (face == LEFT && x == 0)
    || (face == RIGHT && x >= width - 1)
    || (face == FRONT && z >= width - 1)
    || (face == BACK && z == 0)
  }

  /** The column across an interior side face. It is inside the chunk and
      one step away along the face's axis. */
  function NeighbourColumn(width: int, x: int, z: int, face: int): (n: (int, int))
    requires InChunk(width, x, z) && IsSideFace(face) && !OnChunkEdge(width, x, z, face)
    ensures InChunk(width, n.0, n.1)
    ensures Axis(face) == 0 ==> n == (x + 2 * Side(face) - 1, z)
    ensures Axis(face) == 2 ==> n == (x, z + 2 * Side(face) - 1)
  {
    var d := FaceCheck(face);
    (x + d.x, z + d.z)
  }

  /** Whether face `face` of the voxel at (x, y, z) is drawn. */
  function IsFaceVisible(cfg: Config, grid: HeightGrid, isWater: bool, x: int, y: int, z: int, face: int): (visible: bool)
    requires IsGrid(grid, cfg.chunkWidth) && InChunk(cfg.chunkWidth, x, z) && IsFace(face)
    // the two lowest bottom faces are drawn exactly in a water chunk
    ensures face == BOT && y <= 1 ==> (visible <==> isWater)
    // a higher bottom face looks into its own column
    ensures face == BOT && y > 1 ==> (visible <==> GetHeightOfStack(cfg, grid, isWater, x, z) <= y)
    // side faces of the lowest layer are never drawn, not even on the border
    ensures IsSideFace(face) && y == 0 ==> !visible
    // border side faces above the lowest layer are always drawn
    ensures IsSideFace(face) && y != 0 && OnChunkEdge(cfg.chunkWidth, x, z, face) ==> visible
    // an interior side face is drawn iff the neighbouring column does not reach it
    ensures IsSideFace(face) && y != 0 && !OnChunkEdge(cfg.chunkWidth, x, z, face) ==>
      var n := NeighbourColumn(cfg.chunkWidth, x, z, face);
      (visible <==> GetHeightOfStack(cfg, grid, isWater, n.0, n.1) <= y)
    // a top face is drawn iff it is at or above the column's top voxel
    ensures face == TOP ==> (visible <==> y >= GetHeightOfStack(cfg, grid, isWater, x, z) - 1)
  {
    if y <= 1 && face == BOT then
      isWater
    else if face != TOP then
      if y == 0 then
        false
      else if OnChunkEdge(cfg.chunkWidth, x, z, face) then
        true
      else
        var d := FaceCheck(face);
        y > GetHeightOfStack(cfg, grid, isWater, x + d.x, z + d.z) - 1
    else
      y >= GetHeightOfStack(cfg, grid, isWater, x, z) - 1
  }

  /** Voxel (x, y, z) is part of the chunk: its column is in the chunk and it
      is below the column's height. */
  predicate Solid(cfg: Config, grid: HeightGrid, isWater: bool, x: int, y: int, z: int)
    requires IsGrid(grid, cfg.chunkWidth)
  {
    InChunk(cfg.chunkWidth, x, z) && 0 <= y < GetHeightOfStack(cfg, grid, isWater, x, z)
  }

  /** Reference culling rule: a face is exposed when the cell across it is not
      a voxel of this chunk (cells of other chunks count as empty), except that
      side faces of the lowest layer are hidden and bottom faces are drawn only
      for the two lowest layers of a water chunk. */
  predicate Exposed(cfg: Config, grid: HeightGrid, isWater: bool, x: int, y: int, z: int, face: int)
    requires IsGrid(grid, cfg.chunkWidth) && IsFace(face)
  {
    if face == BOT then isWater && y <= 1
    else if face != TOP && y == 0 then false
    else
      var d := FaceCheck(face);
      !Solid(cfg, grid, isWater, x + d.x, y + d.y, z + d.z)
  }

  /** For every voxel of the chunk, the visibility rule agrees with the
      reference culling rule. */
  lemma VisibleIffExposed(cfg: Config, grid: HeightGrid, isWater: bool, x: int, y: int, z: int, face: int)
    requires IsGrid(grid, cfg.chunkWidth) && IsFace(face) && Solid(cfg, grid, isWater, x, y, z)
    ensures IsFaceVisible(cfg, grid, isWater, x, y, z, face) <==> Exposed(cfg, grid, isWater, x, y, z, face)
  {
  }

  /** One face of one voxel. */
  datatype FaceRef = FaceRef(x: int, y: int, z: int, face: int)

  /** `r` names a visible face of a voxel of the chunk. */
  predicate Emits(cfg: Config, grid: HeightGrid, isWater: bool, r: FaceRef)
    requires IsGrid(grid, cfg.chunkWidth)
  {
    && InChunk(cfg.chunkWidth, r.x, r.z)
    && 0 <= r.y < GetHeightOfStack(cfg, grid, isWater, r.x, r.z)
    && IsFace(r.face)
    && IsFaceVisible(cfg, grid, isWater, r.x, r.y, r.z, r.face)
  }

  /** The visible faces numbered `face` and up of voxel (x, y, z), in face order. */
  function VoxelFaces(cfg: Config, grid: HeightGrid, isWater: bool, x: int, y: int, z: int, face: int): (fs: seq<FaceRef>)
    requires IsGrid(grid, cfg.chunkWidth) && InChunk(cfg.chunkWidth, x, z) && 0 <= face <= FACE_COUNT
    ensures forall r {:trigger r in fs} :: r in fs <==>
      r.x == x && r.y == y && r.z == z && face <= r.face < FACE_COUNT && IsFaceVisible(cfg, grid, isWater, x, y, z, r.face)
    ensures Distinct(fs)
    ensures |fs| <= 6 - face
    decreases FACE_COUNT - face
  {
    if face == FACE_COUNT then []
    else
      var rest := VoxelFaces(cfg, grid, isWater, x, y, z, face + 1);
      if IsFaceVisible(cfg, grid, isWater, x, y, z, face) then
        DistinctConcat([FaceRef(x, y, z, face)], rest);
        [FaceRef(x, y, z, face)] + rest
      else rest
  }

  /** The visible faces of the voxels at heights `y` up to `height` of
      column (x, z); the builder computes `height` once per column. */
  function StackFaces(cfg: Config, grid: HeightGrid, isWater: bool, x: int, z: int, y: int, height: int): (fs: seq<FaceRef>)
    requires IsGrid(grid, cfg.chunkWidth) && InChunk(cfg.chunkWidth, x, z) && 0 <= y
    ensures forall r {:trigger r in fs} :: r in fs <==>
      r.x == x && r.z == z && y <= r.y < height && IsFace(r.face) && IsFaceVisible(cfg, grid, isWater, x, r.y, z, r.face)
    ensures Distinct(fs)
    ensures |fs| <= 6 * (if y < height then height - y else 0)
    decreases height - y
  {
    if y >= height then []
    else
      var here := VoxelFaces(cfg, grid, isWater, x, y, z, 0);
      var above := StackFaces(cfg, grid, isWater, x, z, y + 1, height);
      DistinctConcat(here, above);
      here + above
  }

  /** The visible faces of columns (x, z), (x, z + 1), ... of row x. */
  function RowFaces(cfg: Config, grid: HeightGrid, isWater: bool, x: int, z: int): (fs: seq<FaceRef>)
    requires IsGrid(grid, cfg.chunkWidth) && 0 <= x < cfg.chunkWidth && 0 <= z
    ensures forall r {:trigger r in fs} :: r in fs <==> Emits(cfg, grid, isWater, r) && r.x == x && z <= r.z
    ensures Distinct(fs)
    decreases cfg.chunkWidth - z
  {
    if z >= cfg.chunkWidth then []
    else
      var column := StackFaces(cfg, grid, isWater, x, z, 0, GetHeightOfStack(cfg, grid, isWater, x, z));
      var rest := RowFaces(cfg, grid, isWater, x, z + 1);
      DistinctConcat(column, rest);
      column + rest
  }

  /** The visible faces of rows x, x + 1, ... of the chunk. */
  function GridFaces(cfg: Config, grid: HeightGrid, isWater: bool, x: int): (fs: seq<FaceRef>)
    requires IsGrid(grid, cfg.chunkWidth) && 0 <= x
    ensures forall r {:trigger r in fs} :: r in fs <==> Emits(cfg, grid, isWater, r) && x <= r.x
    ensures Distinct(fs)
    decreases cfg.chunkWidth - x
  {
    if x >= cfg.chunkWidth then []
    else
      var row := RowFaces(cfg, grid, isWater, x, 0);
      var rest := GridFaces(cfg, grid, isWater, x + 1);
      DistinctConcat(row, rest);
      row + rest
  }

  /** Every face the builder emits, once each, in emission order. */
  function VisibleFaces(cfg: Config, grid: HeightGrid, isWater: bool): (fs: seq<FaceRef>)
    requires IsGrid(grid, cfg.chunkWidth)
    ensures forall r {:trigger r in fs} :: r in fs <==> Emits(cfg, grid, isWater, r)
    ensures Distinct(fs)
  {
    GridFaces(cfg, grid, isWater, 0)
  }

  /** Every column has exactly one visible top face, on its highest voxel. */
  lemma OneTopFacePerColumn(cfg: Config, grid: HeightGrid, isWater: bool, x: int, z: int)
    requires cfg.Valid() && IsGrid(grid, cfg.chunkWidth) && Normalized(grid) && InChunk(cfg.chunkWidth, x, z)
    ensures var fs := VisibleFaces(cfg, grid, isWater);
      var top := FaceRef(x, GetHeightOfStack(cfg, grid, isWater, x, z) - 1, z, TOP);
      && top in fs
      && (forall i :: 0 <= i < |fs| && fs[i].face == TOP && fs[i].x == x && fs[i].z == z ==> fs[i] == top)
      && (forall i, j :: 0 <= i < |fs| && 0 <= j < |fs| && fs[i] == top && fs[j] == top ==> i == j)
  {
    var fs := VisibleFaces(cfg, grid, isWater);
    var h := GetHeightOfStack(cfg, grid, isWater, x, z);
    assert Emits(cfg, grid, isWater, FaceRef(x, h - 1, z, TOP));
    forall i | 0 <= i < |fs| && fs[i].face == TOP && fs[i].x == x && fs[i].z == z
      ensures fs[i] == FaceRef(x, h - 1, z, TOP)
    {
      assert fs[i] in fs;
    }
  }

  /** A ground chunk emits no bottom face; a water chunk emits the bottom
      faces of its two lowest layers and no others. */
  lemma BottomFacesOnlyUnderWater(cfg: Config, grid: HeightGrid, isWater: bool)
    requires IsGrid(grid, cfg.chunkWidth)
    ensures forall r :: r in VisibleFaces(cfg, grid, isWater) && r.face == BOT ==> isWater && r.y <= 1
    ensures forall x, y, z :: isWater && 0 <= y <= 1 && Solid(cfg, grid, isWater, x, y, z) ==>
      FaceRef(x, y, z, BOT) in VisibleFaces(cfg, grid, isWater)
  {
    var fs := VisibleFaces(cfg, grid, isWater);
    forall x, y, z | isWater && 0 <= y <= 1 && Solid(cfg, grid, isWater, x, y, z)
      ensures FaceRef(x, y, z, BOT) in fs
    {
      assert Emits(cfg, grid, isWater, FaceRef(x, y, z, BOT));
    }
  }

  /** The lowest layer only ever shows its top, or its bottom under water. */
  lemma LowestLayerHasNoSides(cfg: Config, grid: HeightGrid, isWater: bool)
    requires IsGrid(grid, cfg.chunkWidth)
    ensures forall r :: r in VisibleFaces(cfg, grid, isWater) && r.y == 0 ==> r.face == TOP || r.face == BOT
  {
  }

  /** A texture volume indexed `tex[x][y][z]`, covering the chunk's full
      extent, whose entries index the terrain table. */
  predicate IsVolume(tex: seq<seq<seq<int>>>, width: int, extent: int, typeCount: int) {
    && |tex| == width
    && forall x :: 0 <= x < width ==>
      && |tex[x]| == extent
      && forall y :: 0 <= y < extent ==>
        && |tex[x][y]| == width
        && forall z :: 0 <= z < width ==> 0 <= tex[x][y][z] < typeCount
  }

  /** The texture volume has an entry for the voxel of `r`, and it names a terrain type. */
  predicate HasTexel(tex: seq<seq<seq<int>>>, types: seq<TerrainType>, r: FaceRef) {
    && IsFace(r.face)
    && 0 <= r.x < |tex| && 0 <= r.y < |tex[r.x]| && 0 <= r.z < |tex[r.x][r.y]|
    && 0 <= tex[r.x][r.y][r.z] < |types|
  }

  /** The texture volume has an entry, naming a terrain type, at every voxel
      the builder looks up: those with a visible face. */
  predicate CoversVisibleFaces(cfg: Config, grid: HeightGrid, tex: seq<seq<seq<int>>>, types: seq<TerrainType>, isWater: bool)
    requires IsGrid(grid, cfg.chunkWidth)
  {
    forall r :: r in VisibleFaces(cfg, grid, isWater) ==> HasTexel(tex, types, r)
  }

  /** Each listed face is one the builder emits. */
  lemma VisibleFacesEmitted(cfg: Config, grid: HeightGrid, isWater: bool)
    requires IsGrid(grid, cfg.chunkWidth)
    ensures var fs := VisibleFaces(cfg, grid, isWater);
      forall k :: 0 <= k < |fs| ==> Emits(cfg, grid, isWater, fs[k])
  {
    var fs := VisibleFaces(cfg, grid, isWater);
    forall k | 0 <= k < |fs|
      ensures Emits(cfg, grid, isWater, fs[k])
    {
      assert fs[k] in fs;
    }
  }

  /** No visible face lies in the top layer of the extent: a column is at
      most `extent - 1` voxels high, so that layer is never looked up. */
  lemma VisibleFacesBelowTop(cfg: Config, grid: HeightGrid, isWater: bool)
    requires cfg.Valid() && IsGrid(grid, cfg.chunkWidth)
    ensures forall r :: r in VisibleFaces(cfg, grid, isWater) ==> 0 <= r.y <= cfg.Extent(isWater) - 2
  {
    forall r | r in VisibleFaces(cfg, grid, isWater)
      ensures 0 <= r.y <= cfg.Extent(isWater) - 2
    {
      assert Emits(cfg, grid, isWater, r);
    }
  }

  /** A volume covering the whole width x extent x width box covers every
      voxel the builder looks up. */
  lemma VisibleFacesHaveTexels(cfg: Config, grid: HeightGrid, tex: seq<seq<seq<int>>>, types: seq<TerrainType>, isWater: bool)
    requires cfg.Valid() && IsGrid(grid, cfg.chunkWidth)
    requires IsVolume(tex, cfg.chunkWidth, cfg.Extent(isWater), |types|)
    ensures CoversVisibleFaces(cfg, grid, tex, types, isWater)
  {
    forall r | r in VisibleFaces(cfg, grid, isWater)
      ensures HasTexel(tex, types, r)
    {
      assert Emits(cfg, grid, isWater, r);
      assert GetHeightOfStack(cfg, grid, isWater, r.x, r.z) <= cfg.Extent(isWater) - 1;
      assert |tex[r.x]| == cfg.Extent(isWater);
      assert |tex[r.x][r.y]| == cfg.chunkWidth;
    }
  }

  /** The atlas block drawn on face `r`: its voxel's terrain type's texture for that face. */
  function TextureOf(tex: seq<seq<seq<int>>>, types: seq<TerrainType>, r: FaceRef): int
    requires HasTexel(tex, types, r)
  {
    types[tex[r.x][r.y][r.z]].GetTextureID(r.face)
  }

  /** The corners of face `r`, in its row order, placed at the voxel. */
  function FaceVertices(r: FaceRef): seq<Vec3>
    requires IsFace(r.face)
  {
    var p := Vec3(r.x, r.y, r.z);
    [p.Plus(Corner(r.face, 0)), p.Plus(Corner(r.face, 1)), p.Plus(Corner(r.face, 2)), p.Plus(Corner(r.face, 3))]
  }

  /** The shading of every vertex of a face: black, with the shadow light
      level as alpha, brightened by a quarter on top faces. */
  function FaceColor(face: int): Color {
    Color(0.0, 0.0, 0.0, if face == TOP then SHADOW_LIGHT_LEVEL * TOP_FACE_LIGHT_FACTOR else SHADOW_LIGHT_LEVEL)
  }

  /** A visible face together with the atlas block drawn on it. */
  datatype Quad = Quad(r: FaceRef, texture: int)

  /** The visible faces paired with the texture of their voxel's terrain type. */
  function Textured(tex: seq<seq<seq<int>>>, types: seq<TerrainType>, faces: seq<FaceRef>): (qs: seq<Quad>)
    requires forall r :: r in faces ==> HasTexel(tex, types, r)
    ensures |qs| == |faces|
    ensures forall k :: 0 <= k < |faces| ==> qs[k] == Quad(faces[k], TextureOf(tex, types, faces[k]))
  {
    seq(|faces|, k requires 0 <= k < |faces| => Quad(faces[k], TextureOf(tex, types, faces[k])))
  }

  /** Face number `k` of mesh `m` is quad `q`: four vertices at its corners,
      four colours, four texture coordinates and six triangle indices, each
      group at its own offset in its buffer. */
  predicate HoldsFace(m: MeshData, k: int, q: Quad) {
    && 0 <= k && IsFace(q.r.face)
    && 4 * k + 4 <= |m.vertices| && 4 * k + 4 <= |m.colors| && 4 * k + 4 <= |m.uvs|
    && 6 * k + 6 <= |m.triangles|
    && m.vertices[4 * k .. 4 * k + 4] == FaceVertices(q.r)
    && m.colors[4 * k .. 4 * k + 4] == [FaceColor(q.r.face), FaceColor(q.r.face), FaceColor(q.r.face), FaceColor(q.r.face)]
    && m.uvs[4 * k .. 4 * k + 4] == AtlasUVs(q.texture)
    && m.triangles[6 * k .. 6 * k + 6] == QuadIndices(4 * k)
  }

  /** What the builder's inner loop does for one visible face: four vertices
      with their colours, the quad's triangles, then the texture coordinates. */
  function EmitFace(m: MeshData, q: Quad): (m': MeshData)
    requires IsFace(q.r.face)
    ensures m'.vertices == m.vertices + FaceVertices(q.r)
    ensures m'.colors == m.colors + [FaceColor(q.r.face), FaceColor(q.r.face), FaceColor(q.r.face), FaceColor(q.r.face)]
    ensures m'.uvs == m.uvs + AtlasUVs(q.texture)
    ensures m'.triangles == m.triangles + QuadIndices(m.vertexIndex)
    ensures m'.vertexIndex == m.vertexIndex + 4
  {
    var c := FaceColor(q.r.face);
    AddTexture(AddFace(m.(vertices := m.vertices + FaceVertices(q.r), colors := m.colors + [c, c, c, c])), q.texture)
  }

  predicate AllFaces(qs: seq<Quad>) {
    forall k :: 0 <= k < |qs| ==> IsFace(qs[k].r.face)
  }

  /** `m` holds the quads of `qs` in order, with aligned buffers and in-range
      triangle indices. */
  predicate Assembled(qs: seq<Quad>, m: MeshData) {
    && |m.vertices| == 4 * |qs| && |m.colors| == 4 * |qs| && |m.uvs| == 4 * |qs|
    && |m.triangles| == 6 * |qs| && m.vertexIndex == 4 * |qs|
    && (forall j :: 0 <= j < |m.triangles| ==> 0 <= m.triangles[j] < m.vertexIndex)
    && (forall k :: 0 <= k < |qs| ==> HoldsFace(m, k, qs[k]))
    && ((forall k :: 0 <= k < |qs| ==> InAtlas(qs[k].texture)) ==>
      forall j :: 0 <= j < |m.uvs| ==> InUnitSquare(m.uvs[j]))
  }

  /** Emitting the last quad after the others extends an assembled mesh. */
  lemma AssembleStep(qs: seq<Quad>, prefix: MeshData, m: MeshData)
    requires AllFaces(qs) && |qs| > 0
    requires Assembled(qs[..|qs| - 1], prefix)
    requires m == EmitFace(prefix, qs[|qs| - 1])
    ensures Assembled(qs, m)
  {
    var n := |qs| - 1;
    assert forall k :: 0 <= k < n ==> qs[..n][k] == qs[k];
    KeepEarlierFaces(qs, prefix, m);
    NewFaceInPlace(prefix, m, n, qs[n]);
    TrianglesStayInRange(prefix, m, n);
    if forall k :: 0 <= k < |qs| ==> InAtlas(qs[k].texture) {
      AssembleUVStep(prefix, m, qs[n]);
    }
  }

  /** The mesh built from `qs` in order. */
  function Assemble(qs: seq<Quad>): (m: MeshData)
    requires AllFaces(qs)
    ensures |m.vertices| == 4 * |qs| && |m.colors| == 4 * |qs| && |m.uvs| == 4 * |qs|
    ensures |m.triangles| == 6 * |qs| && m.vertexIndex == 4 * |qs|
    ensures forall j :: 0 <= j < |m.triangles| ==> 0 <= m.triangles[j] < m.vertexIndex
    ensures forall k :: 0 <= k < |qs| ==> HoldsFace(m, k, qs[k])
    ensures (forall k :: 0 <= k < |qs| ==> InAtlas(qs[k].texture)) ==>
      forall j :: 0 <= j < |m.uvs| ==> InUnitSquare(m.uvs[j])
    decreases |qs|
  {
    if qs == [] then EMPTY_MESH
    else
      var n := |qs| - 1;
      var prefix := Assemble(qs[..n]);
      assert Assembled(qs[..n], prefix);
      var m := EmitFace(prefix, qs[n]);
      AssembleStep(qs, prefix, m);
      m
  }


  predicate InAtlas(id: int) {
    0 <= id < TEXTURE_ATLAS_SIZE_IN_BLOCKS * TEXTURE_ATLAS_SIZE_IN_BLOCKS
  }

  lemma SliceOfPrefix<T>(a: seq<T>, b: seq<T>, i: int, j: int)
    requires 0 <= i <= j <= |a|
    ensures (a + b)[i..j] == a[i..j]
  {
  }

  lemma SliceOfSuffix<T>(a: seq<T>, b: seq<T>)
    ensures (a + b)[|a|..|a| + |b|] == b
  {
  }

  /** Appending a face leaves a face already in the mesh where it was. */
  lemma KeepFace(prefix: MeshData, m: MeshData, k: int, q: Quad, q': Quad)
    requires IsFace(q'.r.face) && HoldsFace(prefix, k, q)
    requires m == EmitFace(prefix, q')
    ensures HoldsFace(m, k, q)
  {
    SliceOfPrefix(prefix.vertices, FaceVertices(q'.r), 4 * k, 4 * k + 4);
    var c := FaceColor(q'.r.face);
    SliceOfPrefix(prefix.colors, [c, c, c, c], 4 * k, 4 * k + 4);
    SliceOfPrefix(prefix.uvs, AtlasUVs(q'.texture), 4 * k, 4 * k + 4);
    SliceOfPrefix(prefix.triangles, QuadIndices(prefix.vertexIndex), 6 * k, 6 * k + 6);
  }

  lemma KeepEarlierFaces(qs: seq<Quad>, prefix: MeshData, m: MeshData)
    requires |qs| > 0 && AllFaces(qs)
    requires forall k :: 0 <= k < |qs| - 1 ==> HoldsFace(prefix, k, qs[k])
    requires m == EmitFace(prefix, qs[|qs| - 1])
    ensures forall k :: 0 <= k < |qs| - 1 ==> HoldsFace(m, k, qs[k])
  {
    forall k | 0 <= k < |qs| - 1
      ensures HoldsFace(m, k, qs[k])
    {
      KeepFace(prefix, m, k, qs[k], qs[|qs| - 1]);
    }
  }

  /** The appended face lands in slot `n` when `n` faces came before it. */
  lemma NewFaceInPlace(prefix: MeshData, m: MeshData, n: int, q: Quad)
    requires 0 <= n && IsFace(q.r.face)
    requires |prefix.vertices| == 4 * n && |prefix.colors| == 4 * n && |prefix.uvs| == 4 * n
    requires |prefix.triangles| == 6 * n && prefix.vertexIndex == 4 * n
    requires m == EmitFace(prefix, q)
    ensures HoldsFace(m, n, q)
  {
    SliceOfSuffix(prefix.vertices, FaceVertices(q.r));
    var c := FaceColor(q.r.face);
    SliceOfSuffix(prefix.colors, [c, c, c, c]);
    SliceOfSuffix(prefix.uvs, AtlasUVs(q.texture));
    SliceOfSuffix(prefix.triangles, QuadIndices(4 * n));
  }

  /** Triangle indices stay below the vertex count as faces are appended. */
  lemma TrianglesStayInRange(prefix: MeshData, m: MeshData, n: int)
    requires 0 <= n && |prefix.triangles| == 6 * n && prefix.vertexIndex == 4 * n
    requires forall j :: 0 <= j < |prefix.triangles| ==> 0 <= prefix.triangles[j] < prefix.vertexIndex
    requires m.triangles == prefix.triangles + QuadIndices(prefix.vertexIndex)
    requires m.vertexIndex == prefix.vertexIndex + 4
    ensures forall j :: 0 <= j < |m.triangles| ==> 0 <= m.triangles[j] < m.vertexIndex
  {
    forall j | 0 <= j < |m.triangles|
      ensures 0 <= m.triangles[j] < m.vertexIndex
    {
      if j >= 6 * n {
        assert m.triangles[j] == QuadIndices(4 * n)[j - 6 * n];
      } else {
        assert m.triangles[j] == prefix.triangles[j];
      }
    }
  }

  /** Texture coordinates of faces drawn from the atlas stay inside the texture. */
  lemma AssembleUVStep(prefix: MeshData, m: MeshData, q: Quad)
    requires IsFace(q.r.face) && InAtlas(q.texture)
    requires forall j :: 0 <= j < |prefix.uvs| ==> InUnitSquare(prefix.uvs[j])
    requires m == EmitFace(prefix, q)
    ensures forall j :: 0 <= j < |m.uvs| ==> InUnitSquare(m.uvs[j])
  {
    AtlasUVsInUnitSquare(q.texture);
    forall j | 0 <= j < |m.uvs|
      ensures InUnitSquare(m.uvs[j])
    {
      if j >= |prefix.uvs| {
        assert m.uvs[j] == AtlasUVs(q.texture)[j - |prefix.uvs|];
      } else {
        assert m.uvs[j] == prefix.uvs[j];
      }
    }
  }

  /** Builds the mesh of one chunk: every visible face of every voxel, in
      column-then-layer order, textured by the terrain type of its voxel. */
  function GenerateMesh(cfg: Config, grid: HeightGrid, tex: seq<seq<seq<int>>>, types: seq<TerrainType>, isWater: bool): (m: MeshData)
    requires IsGrid(grid, cfg.chunkWidth)
    requires CoversVisibleFaces(cfg, grid, tex, types, isWater)
    // the buffers stay aligned: four vertices, colours and UVs and six indices per emitted face
    ensures var faces := VisibleFaces(cfg, grid, isWater);
      && |m.vertices| == 4 * |faces| && |m.colors| == 4 * |faces| && |m.uvs| == 4 * |faces|
      && |m.triangles| == 6 * |faces| && m.vertexIndex == |m.vertices|
    // every triangle refers to an emitted vertex
    ensures forall j :: 0 <= j < |m.triangles| ==> 0 <= m.triangles[j] < m.vertexIndex
    // terrain types drawn from the atlas give texture coordinates inside the texture
    ensures (forall i :: 0 <= i < |types| ==> types[i].TexturesInAtlas()) ==>
      forall j :: 0 <= j < |m.uvs| ==> InUnitSquare(m.uvs[j])
  {
    var faces := VisibleFaces(cfg, grid, isWater);
    VisibleFacesEmitted(cfg, grid, isWater);
    var qs := Textured(tex, types, faces);
    assert AllFaces(qs);
    var m := Assemble(qs);
    if forall i :: 0 <= i < |types| ==> types[i].TexturesInAtlas() then
      TexturedInAtlas(tex, types, faces);
      m
    else
      m
  }

  /** Face k of the mesh is the k-th visible face, textured by its voxel's terrain type. */
  lemma GenerateMeshFaces(cfg: Config, grid: HeightGrid, tex: seq<seq<seq<int>>>, types: seq<TerrainType>, isWater: bool)
    requires IsGrid(grid, cfg.chunkWidth)
    requires CoversVisibleFaces(cfg, grid, tex, types, isWater)
    ensures var faces := VisibleFaces(cfg, grid, isWater);
      forall k :: 0 <= k < |faces| ==>
        HasTexel(tex, types, faces[k]) &&
        HoldsFace(GenerateMesh(cfg, grid, tex, types, isWater), k, Quad(faces[k], TextureOf(tex, types, faces[k])))
  {
    var faces := VisibleFaces(cfg, grid, isWater);
    VisibleFacesEmitted(cfg, grid, isWater);
    var qs := Textured(tex, types, faces);
    assert AllFaces(qs);
    var m := Assemble(qs);
    assert m == GenerateMesh(cfg, grid, tex, types, isWater);
    forall k | 0 <= k < |faces|
      ensures HasTexel(tex, types, faces[k]) && HoldsFace(m, k, Quad(faces[k], TextureOf(tex, types, faces[k])))
    {
      assert faces[k] in faces;
      assert qs[k] == Quad(faces[k], TextureOf(tex, types, faces[k]));
    }
  }

  /** One column of a row: its stack, then the later columns. */
  lemma RowFacesStep(cfg: Config, grid: HeightGrid, isWater: bool, x: int, z: int)
    requires IsGrid(grid, cfg.chunkWidth) && 0 <= x < cfg.chunkWidth && 0 <= z < cfg.chunkWidth
    ensures RowFaces(cfg, grid, isWater, x, z) ==
      StackFaces(cfg, grid, isWater, x, z, 0, GetHeightOfStack(cfg, grid, isWater, x, z)) + RowFaces(cfg, grid, isWater, x, z + 1)
  {
  }

  /** One row of the chunk: its columns, then the later rows. */
  lemma GridFacesStep(cfg: Config, grid: HeightGrid, isWater: bool, x: int)
    requires IsGrid(grid, cfg.chunkWidth) && 0 <= x < cfg.chunkWidth
    ensures GridFaces(cfg, grid, isWater, x) == RowFaces(cfg, grid, isWater, x, 0) + GridFaces(cfg, grid, isWater, x + 1)
  {
  }

  /** One more block of at most `block` items keeps the running bound. */
  lemma BlockBound(here: int, rest: int, k: int, block: int, count: int)
    requires here <= block && rest + (k + 1) * block <= count * block
    ensures here + rest + k * block <= count * block
  {
    MulStep(k, block);
  }

  lemma {:induction false} RowFacesBound(cfg: Config, grid: HeightGrid, isWater: bool, x: int, z: int, column: int)
    requires cfg.Valid() && IsGrid(grid, cfg.chunkWidth) && 0 <= x < cfg.chunkWidth && 0 <= z <= cfg.chunkWidth
    requires column == 6 * cfg.Extent(isWater)
    ensures |RowFaces(cfg, grid, isWater, x, z)| + z * column <= cfg.chunkWidth * column
    decreases cfg.chunkWidth - z
  {
    if z < cfg.chunkWidth {
      var height := GetHeightOfStack(cfg, grid, isWater, x, z);
      var here := StackFaces(cfg, grid, isWater, x, z, 0, height);
      var rest := RowFaces(cfg, grid, isWater, x, z + 1);
      RowFacesStep(cfg, grid, isWater, x, z);
      assert height <= cfg.Extent(isWater);
      RowFacesBound(cfg, grid, isWater, x, z + 1, column);
      BlockBound(|here|, |rest|, z, column, cfg.chunkWidth);
    } else {
      assert z == cfg.chunkWidth;
    }
  }

  lemma {:induction false} GridFacesBound(cfg: Config, grid: HeightGrid, isWater: bool, x: int, row: int)
    requires cfg.Valid() && IsGrid(grid, cfg.chunkWidth) && 0 <= x <= cfg.chunkWidth
    requires row == cfg.chunkWidth * (6 * cfg.Extent(isWater))
    ensures |GridFaces(cfg, grid, isWater, x)| + x * row <= cfg.chunkWidth * row
    decreases cfg.chunkWidth - x
  {
    if x < cfg.chunkWidth {
      var here := RowFaces(cfg, grid, isWater, x, 0);
      var rest := GridFaces(cfg, grid, isWater, x + 1);
      GridFacesStep(cfg, grid, isWater, x);
      RowFacesBound(cfg, grid, isWater, x, 0, 6 * cfg.Extent(isWater));
      GridFacesBound(cfg, grid, isWater, x + 1, row);
      BlockBound(|here|, |rest|, x, row, cfg.chunkWidth);
    } else {
      assert x == cfg.chunkWidth;
    }
  }

  /** A chunk shows at most six faces per voxel of its width x width x extent box. */
  lemma VisibleFacesBound(cfg: Config, grid: HeightGrid, isWater: bool)
    requires cfg.Valid() && IsGrid(grid, cfg.chunkWidth)
    ensures |VisibleFaces(cfg, grid, isWater)| <= cfg.chunkWidth * (cfg.chunkWidth * (6 * cfg.Extent(isWater)))
  {
    GridFacesBound(cfg, grid, isWater, 0, cfg.chunkWidth * (6 * cfg.Extent(isWater)));
  }

  /** With the game's 24-wide chunks and an extent of at most 12, every buffer
      count and triangle index of a chunk's mesh fits C#'s 32-bit `int`. */
  lemma BuildMeshFitsInt32(cfg: Config, grid: HeightGrid, tex: seq<seq<seq<int>>>, types: seq<TerrainType>, isWater: bool)
    requires cfg.Valid() && IsGrid(grid, cfg.chunkWidth)
    requires CoversVisibleFaces(cfg, grid, tex, types, isWater)
    requires cfg.chunkWidth == CHUNK_WIDTH && cfg.Extent(isWater) <= CHUNK_HEIGHT
    ensures var m := GenerateMesh(cfg, grid, tex, types, isWater);
      && m.vertexIndex <= 4 * CHUNK_WIDTH * CHUNK_WIDTH * FACE_COUNT * CHUNK_HEIGHT < 0x8000_0000
      && |m.triangles| <= 6 * CHUNK_WIDTH * CHUNK_WIDTH * FACE_COUNT * CHUNK_HEIGHT < 0x8000_0000
      && forall j :: 0 <= j < |m.triangles| ==> 0 <= m.triangles[j] < 0x8000_0000
  {
    VisibleFacesBound(cfg, grid, isWater);
    assert cfg.chunkWidth * (cfg.chunkWidth * (6 * cfg.Extent(isWater))) <= 24 * (24 * (6 * 12));
  }

  /** Terrain types drawn from the atlas put every quad's texture in the atlas. */
  lemma TexturedInAtlas(tex: seq<seq<seq<int>>>, types: seq<TerrainType>, faces: seq<FaceRef>)
    requires forall r :: r in faces ==> HasTexel(tex, types, r)
    requires forall i :: 0 <= i < |types| ==> types[i].TexturesInAtlas()
    ensures forall k :: 0 <= k < |faces| ==> InAtlas(Textured(tex, types, faces)[k].texture)
  {
    var qs := Textured(tex, types, faces);
    forall k | 0 <= k < |faces|
      ensures InAtlas(qs[k].texture)
    {
      assert faces[k] in faces;
      var t := tex[faces[k].x][faces[k].y][faces[k].z];
      assert types[t].TexturesInAtlas();
      assert IsFace(faces[k].face);
    }
  }

  /** Vertex `4k + i` of the mesh is corner `i` of the k-th visible face,
      placed at its voxel, and is shaded black with the shadow light level as
      alpha, a quarter brighter on top faces. */
  lemma VertexOfFace(cfg: Config, grid: HeightGrid, tex: seq<seq<seq<int>>>, types: seq<TerrainType>, isWater: bool, k: int, i: int)
    requires IsGrid(grid, cfg.chunkWidth)
    requires CoversVisibleFaces(cfg, grid, tex, types, isWater)
    requires 0 <= k < |VisibleFaces(cfg, grid, isWater)| && 0 <= i < 4
    ensures var m := GenerateMesh(cfg, grid, tex, types, isWater);
      var r := VisibleFaces(cfg, grid, isWater)[k];
      && 4 * k + i < |m.vertices| && 4 * k + i < |m.colors|
      && m.vertices[4 * k + i] == Vec3(r.x, r.y, r.z).Plus(Corner(r.face, i))
      && OnFace(r.face, Corner(r.face, i))
      && m.colors[4 * k + i] == Color(0.0, 0.0, 0.0, if r.face == TOP then 0.125 else 0.1)
  {
    var m := GenerateMesh(cfg, grid, tex, types, isWater);
    var r := VisibleFaces(cfg, grid, isWater)[k];
    GenerateMeshFaces(cfg, grid, tex, types, isWater);
    SlotContents(m, k, Quad(r, TextureOf(tex, types, r)), i);
  }

  /** Vertex and colour `i` of a face held in slot `k`. */
  lemma SlotContents(m: MeshData, k: int, q: Quad, i: int)
    requires HoldsFace(m, k, q) && 0 <= i < 4
    ensures 4 * k + i < |m.vertices| && 4 * k + i < |m.colors|
    ensures m.vertices[4 * k + i] == Vec3(q.r.x, q.r.y, q.r.z).Plus(Corner(q.r.face, i))
    ensures m.colors[4 * k + i] == Color(0.0, 0.0, 0.0, if q.r.face == TOP then 0.125 else 0.1)
  {
    assert m.vertices[4 * k + i] == m.vertices[4 * k .. 4 * k + 4][i];
    assert m.colors[4 * k + i] == m.colors[4 * k .. 4 * k + 4][i];
  }

  /** A flat 4 x 4 grid at half height in a chunk 10 voxels tall: every column
      is 5 voxels high, each shows its top face at y = 4, and no bottom face is drawn. */
  lemma FlatGridScenario(cfg: Config, grid: HeightGrid)
    requires cfg.chunkWidth == 4 && cfg.chunkHeight == 10 && cfg.waterChunkHeight >= 2
    requires IsGrid(grid, 4) && forall x, z :: 0 <= x < 4 && 0 <= z < 4 ==> grid[x][z] == 0.5
    ensures forall x, z :: InChunk(4, x, z) ==> GetHeightOfStack(cfg, grid, false, x, z) == 5
    ensures forall x, z :: InChunk(4, x, z) ==> FaceRef(x, 4, z, TOP) in VisibleFaces(cfg, grid, false)
    ensures forall r :: r in VisibleFaces(cfg, grid, false) ==> r.face != BOT
  {
    assert (10.0 * 0.5).Floor == 5;
    forall x, z | InChunk(4, x, z)
      ensures FaceRef(x, 4, z, TOP) in VisibleFaces(cfg, grid, false)
    {
      assert Normalized(grid);
      OneTopFacePerColumn(cfg, grid, false, x, z);
    }
    BottomFacesOnlyUnderWater(cfg, grid, false);
  }
}
