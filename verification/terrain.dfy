/** Terrain classification from the chunk manager: the ordered table of
    terrain types, the per-face texture lookup, the height classifier and the
    preview colour map. */
module Terrain {
  import opened Primitives
  import opened VoxelData

  /** One band of the terrain table: its upper threshold on the normalised
      height, its preview colour and the atlas block drawn on each face. */
  datatype TerrainType = TerrainType(
    name: string,
    height: real,
    color: Color,
    backFaceTexture: int,
    frontFaceTexture: int,
    topFaceTexture: int,
    botFaceTexture: int,
    leftFaceTexture: int,
    rightFaceTexture: int
  ) {
    /** The atlas block for a face index; -1 for an index that is not a face. */
    function GetTextureID(faceIndex: int): (id: int)
      ensures faceIndex == BACK ==> id == backFaceTexture
      ensures faceIndex == FRONT ==> id == frontFaceTexture
      ensures faceIndex == TOP ==> id == topFaceTexture
      ensures faceIndex == BOT ==> id == botFaceTexture
      ensures faceIndex == LEFT ==> id == leftFaceTexture
      ensures faceIndex == RIGHT ==> id == rightFaceTexture
      ensures !IsFace(faceIndex) ==> id == -1
    {
      match faceIndex
      case 0 => backFaceTexture
      case 1 => frontFaceTexture
      case 2 => topFaceTexture
      case 3 => botFaceTexture
      case 4 => leftFaceTexture
      case 5 => rightFaceTexture
      case _ => -1
    }

    /** Every face of this type is drawn from a block of the atlas. */
    predicate TexturesInAtlas() {
      forall f :: 0 <= f < FACE_COUNT ==> 0 <= GetTextureID(f) < TEXTURE_ATLAS_SIZE_IN_BLOCKS * TEXTURE_ATLAS_SIZE_IN_BLOCKS
    }
  }

  /** The first entry at or after `from` whose threshold is at least `value`. */
  function FirstMatchFrom(types: seq<TerrainType>, value: real, from: nat): (r: Option<nat>)
    requires from <= |types|
    ensures r.Some? ==> from <= r.value < |types| && value <= types[r.value].height
    ensures r.Some? ==> forall j :: from <= j < r.value ==> types[j].height < value
    ensures r.None? ==> forall j :: from <= j < |types| ==> types[j].height < value
    decreases |types| - from
  {
    if from == |types| then None
    else if value <= types[from].height then Some(from)
    else FirstMatchFrom(types, value, from + 1)
  }

  /** The table scan both classifiers share: the first type, in table order,
      whose threshold is at least `value`; None when every threshold is lower. */
  function FirstMatch(types: seq<TerrainType>, value: real): (r: Option<nat>)
    ensures r.Some? ==> r.value < |types| && value <= types[r.value].height
    ensures r.Some? ==> forall j :: 0 <= j < r.value ==> types[j].height < value
    ensures r.None? <==> forall j :: 0 <= j < |types| ==> types[j].height < value
  {
    FirstMatchFrom(types, value, 0)
  }

  /** A voxel layer's height as a fraction of the top layer's index. */
  function HeightFraction(chunkHeight: int, height: int): real
    requires chunkHeight >= 2
  {
    height as real / (chunkHeight - 1) as real
  }

  /** The terrain type of the voxel layer at `height`, as the byte the
      texture volume stores: the first matching index (reduced mod 256 by the
      byte cast) or 0 when nothing matches. */
  function GetTerrainType(chunkHeight: int, types: seq<TerrainType>, height: int): (id: int)
    requires chunkHeight >= 2
    ensures 0 <= id < 256
    ensures |types| <= 256 && (exists i :: 0 <= i < |types| && HeightFraction(chunkHeight, height) <= types[i].height) ==>
      && id < |types|
      && HeightFraction(chunkHeight, height) <= types[id].height
      && forall j :: 0 <= j < id ==> types[j].height < HeightFraction(chunkHeight, height)
    ensures (forall i :: 0 <= i < |types| ==> types[i].height < HeightFraction(chunkHeight, height)) ==> id == 0
    ensures |types| > 0 && |types| <= 256 ==> id < |types|
  {
    match FirstMatch(types, HeightFraction(chunkHeight, height))
    case Some(i) => i % 256
    case None => 0
  }

  /** The classifier on an ordered three-band table: a fraction of 0.45 falls
      in the middle band. */
  lemma ClassifyMiddleBand(low: TerrainType, mid: TerrainType, high: TerrainType)
    requires low.height == 0.3 && mid.height == 0.6 && high.height == 1.0
    ensures FirstMatch([low, mid, high], 0.45) == Some(1)
  {
    assert FirstMatchFrom([low, mid, high], 0.45, 1) == Some(1);
  }

  /** Index of the first cell of preview row `y`: `y` rows of `width` cells. */
  function RowStart(width: int, y: nat): int {
    if y == 0 then 0 else RowStart(width, y - 1) + width
  }

  /** Row-major position of preview cell (x, y) in a map `width` cells wide. */
  function Cell(width: int, x: int, y: nat): int {
    RowStart(width, y) + x
  }

  lemma {:induction false} RowStartIsProduct(width: int, y: nat)
    ensures RowStart(width, y) == y * width
  {
    if y > 0 {
      RowStartIsProduct(width, y - 1);
      MulStep(y - 1, width);
    }
  }

  /** Later rows start at least a full row further on. */
  lemma {:induction false} RowsAreWidthApart(width: int, y: nat, y': nat)
    requires 0 <= width && y < y'
    ensures RowStart(width, y) + width <= RowStart(width, y')
  {
    if y' > y + 1 {
      RowsAreWidthApart(width, y, y' - 1);
    }
  }

  lemma CellInRange(width: int, x: int, y: nat)
    requires 0 <= x < width && y < width
    ensures 0 <= Cell(width, x, y) < width * width
  {
    RowsAreWidthApart(width, y, width);
    RowStartIsProduct(width, width);
    if y > 0 {
      RowsAreWidthApart(width, 0, y);
    }
  }

  lemma CellInjective(width: int, x: int, y: nat, x': int, y': nat)
    requires 0 <= x < width && 0 <= x' < width
    requires Cell(width, x, y) == Cell(width, x', y')
    ensures x == x' && y == y'
  {
    if y < y' {
      RowsAreWidthApart(width, y, y');
    } else if y' < y {
      RowsAreWidthApart(width, y', y);
    }
  }

  /** The colour a preview cell of normalised height `value` gets: that of the
      first type whose threshold is at least `value`, or the cleared default. */
  function CellColor(types: seq<TerrainType>, value: real): Color {
    match FirstMatch(types, value)
    case Some(i) => types[i].color
    case None => CLEAR
  }

  /** Colours a `width` x `width` preview of a height grid `noiseMap[x][y]`,
      storing cell (x, y) at index y * width + x. */
  method ColorMap(width: int, noiseMap: seq<seq<real>>, types: seq<TerrainType>) returns (colorMap: seq<Color>)
    requires width >= 0
    requires |noiseMap| == width && forall x :: 0 <= x < width ==> |noiseMap[x]| == width
    ensures |colorMap| == width * width
    ensures forall x, y :: 0 <= x < width && 0 <= y < width ==>
      0 <= Cell(width, x, y) < |colorMap| && colorMap[Cell(width, x, y)] == CellColor(types, noiseMap[x][y])
  {
    colorMap := seq(width * width, _ => CLEAR);
    forall x', y' | 0 <= x' < width && 0 <= y' < width
      ensures 0 <= Cell(width, x', y') < width * width
    {
      CellInRange(width, x', y');
    }
    var y := 0;
    while y < width
      invariant 0 <= y <= width
      invariant |colorMap| == width * width
      invariant forall x', y' :: 0 <= x' < width && 0 <= y' < width ==>
        colorMap[Cell(width, x', y')] == if y' < y then CellColor(types, noiseMap[x'][y']) else CLEAR
    {
      var x := 0;
      while x < width
        invariant 0 <= x <= width
        invariant |colorMap| == width * width
        invariant forall x', y' :: 0 <= x' < width && 0 <= y' < width ==>
          colorMap[Cell(width, x', y')] == if y' < y || (y' == y && x' < x) then CellColor(types, noiseMap[x'][y']) else CLEAR
      {
        var curHeight := noiseMap[x][y];
        // the first type whose threshold is at least the height, as the break leaves it
        var i := 0;
        while i < |types| && curHeight > types[i].height
          invariant 0 <= i <= |types|
          invariant forall j :: 0 <= j < i ==> types[j].height < curHeight
        {
          i := i + 1;
        }
        assert CellColor(types, curHeight) == if i < |types| then types[i].color else CLEAR;
        if i < |types| {
          colorMap := colorMap[Cell(width, x, y) := types[i].color];
        }
        forall x', y' | 0 <= x' < width && 0 <= y' < width && Cell(width, x', y') == Cell(width, x, y)
          ensures x' == x && y' == y
        {
          CellInjective(width, x', y', x, y);
        }
        x := x + 1;
      }
      y := y + 1;
    }
  }
}
