/** The static geometry of one voxel: face numbering, the unit cube's corners,
    which corners make up each face, each face's outward direction, and the
    texture atlas dimensions. */
module VoxelData {
  import opened Primitives

  /** The atlas is a square of this many blocks per side. */
  const TEXTURE_ATLAS_SIZE_IN_BLOCKS: int := 4

  /** Side of one atlas block in normalised texture space. */
  const NORMALIZED_BLOCK_TEXTURE_SIZE: real := 1.0 / (TEXTURE_ATLAS_SIZE_IN_BLOCKS as real)

  const BACK: int := 0
  const FRONT: int := 1
  const TOP: int := 2
  const BOT: int := 3
  const LEFT: int := 4
  const RIGHT: int := 5
  const FACE_COUNT: int := 6

  predicate IsFace(f: int) {
    0 <= f < FACE_COUNT
  }

  /** The four faces that can sit on a chunk's border. */
  predicate IsSideFace(f: int) {
    f == BACK || f == FRONT || f == LEFT || f == RIGHT
  }

  /** The unit cube's corners; a corner's index is the row other tables use. */
  const VOXEL_VERTS: seq<Vec3> := [
    Vec3(0, 0, 0), Vec3(1, 0, 0), Vec3(1, 1, 0), Vec3(0, 1, 0),
    Vec3(0, 0, 1), Vec3(1, 0, 1), Vec3(1, 1, 1), Vec3(0, 1, 1)
  ]

  /** Per face, in face order, the four corners of its quad. */
  const VOXEL_TRIS: seq<seq<int>> := [
    [0, 3, 1, 2],  // back
    [5, 6, 4, 7],  // front
    [3, 7, 2, 6],  // top
    [1, 5, 0, 4],  // bottom
    [4, 7, 0, 3],  // left
    [1, 2, 5, 6]   // right
  ]

  /** Per face, in face order, the step from a voxel to the cell across that face. */
  const VOXEL_FACE_CHECKS: seq<Vec3> := [
    Vec3(0, 0, -1),  // back
    Vec3(0, 0, 1),   // front
    Vec3(0, 1, 0),   // top
    Vec3(0, -1, 0),  // bottom
    Vec3(-1, 0, 0),  // left
    Vec3(1, 0, 0)    // right
  ]

  // A description of the cube independent of the tables: each face is
  // perpendicular to one axis and sits at its low or high end.

  /** The axis a face is perpendicular to: 0 for x, 1 for y, 2 for z. */
  function Axis(f: int): int
    requires IsFace(f)
  {
    if f == LEFT || f == RIGHT then 0 else if f == TOP || f == BOT then 1 else 2
  }

  /** The end of its axis a face sits at: 1 for front, top and right, 0 otherwise. */
  function Side(f: int): int
    requires IsFace(f)
  {
    if f == FRONT || f == TOP || f == RIGHT then 1 else 0
  }

  function Component(v: Vec3, axis: int): int {
    if axis == 0 then v.x else if axis == 1 then v.y else v.z
  }

  /** The unit vector along `axis` scaled by `s`. */
  function AlongAxis(axis: int, s: int): Vec3 {
    Vec3(if axis == 0 then s else 0, if axis == 1 then s else 0, if axis == 2 then s else 0)
  }

  predicate IsUnitCubeCorner(c: Vec3) {
    (c.x == 0 || c.x == 1) && (c.y == 0 || c.y == 1) && (c.z == 0 || c.z == 1)
  }

  /** `c` is a corner of the cube lying on face `f`. */
  predicate OnFace(f: int, c: Vec3)
    requires IsFace(f)
  {
    IsUnitCubeCorner(c) && Component(c, Axis(f)) == Side(f)
  }

  /** The face on the other end of the same axis. */
  function Opposite(f: int): (g: int)
    requires IsFace(f)
    ensures IsFace(g) && g != f && Axis(g) == Axis(f) && Side(g) == 1 - Side(f)
  {
    if f == BACK then FRONT else if f == FRONT then BACK
    else if f == TOP then BOT else if f == BOT then TOP
    else if f == LEFT then RIGHT else LEFT
  }

  lemma FaceNumbering()
    ensures [BACK, FRONT, TOP, BOT, LEFT, RIGHT] == [0, 1, 2, 3, 4, 5]
    ensures |VOXEL_TRIS| == FACE_COUNT && |VOXEL_FACE_CHECKS| == FACE_COUNT
    ensures forall f :: IsFace(f) ==> (IsSideFace(f) <==> f != TOP && f != BOT)
  {
  }

  lemma CornerTableIsUnitCube()
    ensures |VOXEL_VERTS| == 8
    ensures forall k :: 0 <= k < 8 ==> IsUnitCubeCorner(VOXEL_VERTS[k])
    ensures forall k, l :: 0 <= k < l < 8 ==> VOXEL_VERTS[k] != VOXEL_VERTS[l]
  {
  }

  /** Every row of the face table names four distinct valid corners, and each
      of them lies on the face the row is labelled with. */
  lemma FaceTableRows(f: int)
    requires IsFace(f)
    ensures |VOXEL_TRIS[f]| == 4
    ensures forall i :: 0 <= i < 4 ==> 0 <= VOXEL_TRIS[f][i] < 8
    ensures forall i, j :: 0 <= i < j < 4 ==> VOXEL_TRIS[f][i] != VOXEL_TRIS[f][j]
    ensures forall i :: 0 <= i < 4 ==> OnFace(f, VOXEL_VERTS[VOXEL_TRIS[f][i]])
  {
    assert f == 0 || f == 1 || f == 2 || f == 3 || f == 4 || f == 5;
  }

  /** Corner `i` of face `f`. */
  function Corner(f: int, i: int): (c: Vec3)
    requires IsFace(f) && 0 <= i < 4
    ensures OnFace(f, c)
  {
    FaceTableRows(f);
    VOXEL_VERTS[VOXEL_TRIS[f][i]]
  }

  /** The four corners of a face are four different points, so a face is the
      whole square side of the cube. */
  lemma FaceCornersDistinct(f: int, i: int, j: int)
    requires IsFace(f) && 0 <= i < 4 && 0 <= j < 4 && i != j
    ensures Corner(f, i) != Corner(f, j)
  {
    FaceTableRows(f);
    CornerTableIsUnitCube();
  }

  /** The step across face `f`: the outward unit normal of that face. */
  function FaceCheck(f: int): (d: Vec3)
    requires IsFace(f)
    ensures d == AlongAxis(Axis(f), 2 * Side(f) - 1)
  {
    assert f == 0 || f == 1 || f == 2 || f == 3 || f == 4 || f == 5;
    VOXEL_FACE_CHECKS[f]
  }

  /** Opposite faces step in opposite directions. */
  lemma OppositeChecksNegate(f: int)
    requires IsFace(f)
    ensures FaceCheck(Opposite(f)) == FaceCheck(f).Neg()
  {
  }
}
