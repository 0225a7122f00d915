# Voxel terrain meshing and chunk streaming, in Dafny

This project models the terrain core of Pokefish Snap, a Unity game whose
world is a grid of voxel chunks. The model covers five pieces:

- **Column height and face culling.** From a normalised height grid the
  mesh builder derives how many voxels each column of a chunk holds. It then
  decides, face by face, which voxel faces are drawn.
- **Mesh assembly.** For each visible face the builder appends four corner
  vertices, four shaded colours, two triangles and four texture coordinates
  taken from a 4 x 4 texture atlas.
- **Geometry tables.** These are the unit cube's corners, the face-to-corner
  table and the outward step across each face.
- **Terrain classification.** A height fraction is classified against an
  ordered threshold table. Each terrain type maps a face to an atlas block,
  and a preview colour map is coloured from the same table.
- **Chunk streaming.** The chunk manager keeps a map of resident chunks with
  shown/hidden flags. It loads a square of chunks at start-up, and each
  visibility update shows a square window around the viewer's chunk.

State is immutable datatypes. Every operation is a pure function, except
`Terrain.ColorMap`, a method whose three loops follow the preview's loops.
In more detail:

- Mesh buffers are sequences, built by a fold over the visible faces in the
  builder's loop order (x, then z, then y, then face).
- Heights and texture coordinates are `real`.
- C#'s truncating integer division and its byte cast are written out
  explicitly.
- Chunk streaming is a state-transition function on a map from integer pairs
  to shown flags.

Modules:

| module | file | models |
|---|---|---|
| `Primitives` | `primitives.dfy` | vectors, colours, `Option`, C# truncating division, distinct sequences |
| `Settings` | `settings.dfy` | chunk dimensions, world size, view distance and light constants, as a `Config` |
| `VoxelData` | `voxel_data.dfy` | face numbering, corner/face/step tables, atlas size |
| `Mesh` | `mesh_data.dfy` | the mesh buffers, `AddFace`, `AddTexture` |
| `Terrain` | `terrain.dfy` | `TerrainType.GetTextureID`, `GetTerrainType`, `ColorMap` |
| `MeshGenerator` | `mesh_generator.dfy` | `GetHeightOfStack`, `IsFaceVisible`, `GenerateMesh` |
| `ChunkStreaming` | `chunk_streaming.dfy` | `LoadChunk`, `SpawnWorld`, `UpdateVisibleChunks` |

The chunk width, the ground and water chunk heights, the world size and the
view distance are parameters (`Settings.Config`). `MeshGenerator.cs` reads
`ChunkManager.WATER_CHUNK_HEIGHT`, which `ChunkManager.cs` does not define, so
the dimensions are parameters rather than constants. The game's chunk width
and height (24, 12) appear in `MeshGenerator.BuildMeshFitsInt32`, and its
world size and view distance (2, 6) in `ChunkStreaming.DefaultSpawn`.

Behaviours of the code the model keeps:

- A visibility update runs every frame. It does not skip the work when the
  viewer stays in the same chunk.
- The update hides every chunk on the remembered list, then shows every
  chunk of the window.
- The remembered list (`chunksVisibleLastFrame`) is never cleared, only
  appended to. Every resident window chunk is appended on every frame, even
  when it is on the list already. With a viewer standing still, the list
  therefore grows by 4V^2 entries (144 for V = 6) per frame without bound,
  and the hiding loop walks all of it each frame.
  - Freshly loaded chunks are shown but not appended.
  - A chunk that leaves the window is therefore hidden only if an earlier
    update had remembered it.
- The window is half-open: offsets -V through V - 1 on each axis, 2V x 2V
  chunks.
- Missing chunks are loaded and shown on the spot. Nothing is queued for
  later.
- The threshold test is `fraction <= threshold`, and the first match in
  table order wins.
- `GetTerrainType` has no water case.
- The two lowest bottom faces of a water chunk are drawn. This means y = 0
  and y = 1, not only the floor.

## Model

| member | source | states |
|---|---|---|
| `Primitives.TruncDiv` | Assets/Scripts/Map/MeshData.cs:48 | C# integer division truncates toward zero: the remainder has the sign of the dividend and is smaller than the divisor |
| `VoxelData.FaceNumbering` | Assets/Scripts/Map/VoxelData.cs:13-18 | BACK..RIGHT are 0..5. The face and step tables have one row per face, and the side faces are the four that are neither top nor bottom |
| `VoxelData.CornerTableIsUnitCube` | Assets/Scripts/Map/VoxelData.cs:20-30 | the corner table holds the 8 distinct corners of the unit cube |
| `VoxelData.FaceTableRows` | Assets/Scripts/Map/VoxelData.cs:32-40 | each face row names 4 distinct corner indices in [0, 8), and each corner lies on the cube side the row is labelled with (back z=0, front z=1, top y=1, bot y=0, left x=0, right x=1) |
| `VoxelData.Corner` | Assets/Scripts/Map/VoxelData.cs:20-40 | corner i of face f, looked up through both tables, lies on face f |
| `VoxelData.FaceCornersDistinct` | Assets/Scripts/Map/VoxelData.cs:32-40 | the four corners of a face are four different points |
| `VoxelData.Opposite` | Assets/Scripts/Map/VoxelData.cs:13-18 | the opposite face is a different face on the same axis, at the other end |
| `VoxelData.FaceCheck` | Assets/Scripts/Map/VoxelData.cs:42-50 | the step across face f is the outward unit vector along f's axis |
| `VoxelData.OppositeChecksNegate` | Assets/Scripts/Map/VoxelData.cs:42-50 | opposite faces step in opposite directions |
| `Mesh.AddFace` | Assets/Scripts/Map/MeshData.cs:13-26 | appends the triangles (v, v+1, v+2) and (v+2, v+1, v+3) for the old vertexIndex v, and every appended index lies in [v, v+4). It keeps the existing triangles, vertices, UVs and colours, and advances vertexIndex by 4 |
| `Mesh.AtlasUVs` | Assets/Scripts/Map/MeshData.cs:47-61 | the four UVs for a non-negative id are the corners of the atlas cell in column id mod 4 and row id div 4. Rows count from the top, so the v axis is flipped |
| `Mesh.AddTexture` | Assets/Scripts/Map/MeshData.cs:45-62 | appends exactly four UVs, the cell corners for a non-negative id, and changes no other buffer |
| `Mesh.AtlasUVsInUnitSquare` | Assets/Scripts/Map/MeshData.cs:45-62 | for 0 <= id < 16 all four UVs lie in [0,1] x [0,1] |
| `Mesh.AtlasRoundTrip` | Assets/Scripts/Map/MeshData.cs:48-58 | the atlas id can be read back from the first UV appended, so distinct ids get distinct cells |
| `Mesh.NegativeIdLeavesAtlas` | Assets/Scripts/Map/MeshData.cs:48-52 | id -1, the unknown-face texture, gives u < 0, outside the texture |
| `Terrain.TerrainType.GetTextureID` | Assets/Scripts/Map/ChunkManager.cs:213-231 | faces 0..5 map to the back, front, top, bottom, left and right textures; any other index maps to -1 |
| `Terrain.FirstMatch` | Assets/Scripts/Map/ChunkManager.cs:139-145 | the first table index whose threshold is at least the value, with every earlier threshold below it. It is None exactly when every threshold is below the value |
| `Terrain.GetTerrainType` | Assets/Scripts/Map/ChunkManager.cs:135-148 | the result is a byte. For a table of at most 256 types it is the first index i with height/(H-1) <= threshold(i), or 0 when none matches, so a non-empty table always yields a valid index |
| `Terrain.ClassifyMiddleBand` | Assets/Scripts/Map/ChunkManager.cs:139-145 | with thresholds 0.3, 0.6 and 1.0, a fraction of 0.45 classifies as type 1 |
| `Terrain.RowStartIsProduct` | Assets/Scripts/Map/ChunkManager.cs:177 | the row offset used for preview cells is y * width |
| `Terrain.CellInRange` | Assets/Scripts/Map/ChunkManager.cs:166-177 | index y * width + x of a cell inside the grid lies inside the width * width array |
| `Terrain.CellInjective` | Assets/Scripts/Map/ChunkManager.cs:177 | two cells of the grid never share an index |
| `Terrain.ColorMap` | Assets/Scripts/Map/ChunkManager.cs:164-184 | the map has width * width entries. Cell (x, y), at index y * width + x, gets the colour of the first type whose threshold is at least its height, or keeps the default clear colour when none does |
| `MeshGenerator.StackHeight` | Assets/Scripts/Map/MeshGenerator.cs:57-80 | the height is floor(H * v), capped to H-1 when it reaches H, and raised to 1 when it is 0. A negative floor is returned as it is, which gives an empty column. For v in [0,1] and H >= 2 the height lies in [1, H-1] |
| `MeshGenerator.GetHeightOfStack` | Assets/Scripts/Map/MeshGenerator.cs:55-84 | a column's height never exceeds its chunk's extent minus one (water extent for water chunks), and is at least 1 for normalised heights |
| `MeshGenerator.NeighbourColumn` | Assets/Scripts/Map/MeshGenerator.cs:105-134 | for a side face that is not on the chunk border, the column across it is inside the chunk, one step along the face's axis in the outward direction: x - 1 for LEFT, x + 1 for RIGHT, z - 1 for BACK, z + 1 for FRONT |
| `MeshGenerator.IsFaceVisible` | Assets/Scripts/Map/MeshGenerator.cs:88-144 | a bottom face at y <= 1 is drawn iff the chunk is water, and a higher one iff its own column is no taller than y. Side faces at y = 0 are never drawn. Border side faces above are always drawn. An interior side face is drawn iff the neighbouring column's height is at most y. A top face is drawn iff y >= height - 1 |
| `MeshGenerator.VisibleIffExposed` | Assets/Scripts/Map/MeshGenerator.cs:88-144 | for every voxel of the chunk, the visibility rule agrees with a reference culling rule phrased as "the cell across the face is not a voxel of this chunk", plus the two exceptions for the lowest layers |
| `MeshGenerator.VisibleFaces` | Assets/Scripts/Map/MeshGenerator.cs:10-22 | the faces the builder's loops emit are exactly the visible faces of the chunk's voxels, each listed once |
| `MeshGenerator.VisibleFacesBound` | Assets/Scripts/Map/MeshGenerator.cs:10-22 | a chunk emits at most six faces per voxel of its width x width x extent box |
| `MeshGenerator.BuildMeshFitsInt32` | Assets/Scripts/Map/MeshGenerator.cs:7-52 | with chunks 24 wide and at most 12 high, the vertex count, the triangle count and every triangle index stay below 2^31, so C#'s 32-bit `int` does not overflow |
| `MeshGenerator.OneTopFacePerColumn` | Assets/Scripts/Map/MeshGenerator.cs:139-142 | every column emits exactly one top face, on its highest voxel |
| `MeshGenerator.BottomFacesOnlyUnderWater` | Assets/Scripts/Map/MeshGenerator.cs:90-93 | a ground chunk emits no bottom face at any height. A water chunk emits the bottom faces of its voxels at y = 0 and y = 1 and no others |
| `MeshGenerator.LowestLayerHasNoSides` | Assets/Scripts/Map/MeshGenerator.cs:96-99 | the lowest layer emits only top and bottom faces, even on the chunk border |
| `MeshGenerator.VisibleFacesBelowTop` | Assets/Scripts/Map/MeshGenerator.cs:13-15 | a column holds at most extent - 1 voxels, so no visible face lies in the top layer of the extent, and that layer of the texture volume is never read |
| `MeshGenerator.VisibleFacesHaveTexels` | Assets/Scripts/Map/MeshGenerator.cs:22-25 | a texture volume covering the whole width x extent x width box has an entry, naming a terrain type, at every voxel the builder looks up. Those are the voxels with a visible face |
| `MeshGenerator.EmitFace` | Assets/Scripts/Map/MeshGenerator.cs:28-44 | one visible face appends its four corner vertices with their colours, then the quad's triangles, then the UVs of its texture |
| `MeshGenerator.Assemble` | Assets/Scripts/Map/MeshGenerator.cs:20-45 | after F faces the vertex, colour and UV buffers hold 4F entries, the triangle buffer holds 6F, and vertexIndex is 4F. Every triangle index is below vertexIndex, and slot k of every buffer holds face k |
| `MeshGenerator.GenerateMesh` | Assets/Scripts/Map/MeshGenerator.cs:7-52 | given a texture entry at every voxel with a visible face, which is all the code reads, the buffers are aligned and every triangle index is below the vertex count. If every terrain type draws from the atlas, all UVs lie in the unit square |
| `MeshGenerator.GenerateMeshFaces` | Assets/Scripts/Map/MeshGenerator.cs:11-47 | face k of the mesh is the k-th visible face in loop order (x, then z, then y, then face), placed at its voxel, coloured by its face and textured by its voxel's terrain type |
| `MeshGenerator.VertexOfFace` | Assets/Scripts/Map/MeshGenerator.cs:28-41 | vertex 4k+i is corner i of the k-th visible face placed at its voxel. Its colour is (0, 0, 0, 0.1), with alpha 0.125 on top faces |
| `MeshGenerator.FlatGridScenario` | Assets/Scripts/Map/MeshGenerator.cs:55-84 | a flat 4 x 4 grid at 0.5 in a chunk 10 high gives columns of 5 voxels, a top face at y = 4 in every column, and no bottom face |
| `ChunkStreaming.LoadChunk` | Assets/Scripts/Map/ChunkManager.cs:68-84 | loading an absent chunk adds exactly that key, hidden, keeps every other chunk and its flag, and leaves the remembered list alone |
| `ChunkStreaming.SetShown` | Assets/Scripts/Map/Chunk.cs:64-72 | showing or hiding a chunk changes only its flag |
| `ChunkStreaming.HideAll` | Assets/Scripts/Map/ChunkManager.cs:89-92 | after hiding the remembered chunks, a chunk is shown iff it was shown before and is not on the list |
| `ChunkStreaming.Visit` | Assets/Scripts/Map/ChunkManager.cs:103-114 | a resident chunk is shown and appended to the remembered list. An absent one is loaded and shown but not appended |
| `ChunkStreaming.VisitAll` | Assets/Scripts/Map/ChunkManager.cs:99-116 | visiting distinct coordinates makes each resident and shown and leaves the other chunks alone. It appends the coordinates that were already resident, in scan order |
| `ChunkStreaming.Window` | Assets/Scripts/Map/ChunkManager.cs:99-103 | the scan visits each coordinate with x and y offsets in [-V, V) exactly once |
| `ChunkStreaming.WindowSize` | Assets/Scripts/Map/ChunkManager.cs:99-103 | the scan visits 4V^2 coordinates, or none when V <= 0 |
| `ChunkStreaming.UpdateVisibleChunks` | Assets/Scripts/Map/ChunkManager.cs:86-117 | the resident set only grows, by the window. Every window chunk is shown. Outside the window, a remembered chunk is hidden and every other chunk keeps its flag. The remembered list is the old list followed by every window chunk that was already resident, in scan order, whether or not it was on the list before |
| `ChunkStreaming.LoadedWindowGrowsList` | Assets/Scripts/Map/ChunkManager.cs:99-109 | once the window is loaded, an update appends the whole window, 4V^2 entries, to the remembered list, and the window stays loaded, so every later frame appends it again |
| `ChunkStreaming.RepeatedUpdateGrowsList` | Assets/Scripts/Map/ChunkManager.cs:86-117 | the first update loads the window, and a second one around the same viewer chunk appends the whole window again |
| `ChunkStreaming.RepeatedUpdateLoadsNothing` | Assets/Scripts/Map/ChunkManager.cs:105-114 | a second update around the same viewer chunk loads no chunk |
| `ChunkStreaming.UpdateIdempotent` | Assets/Scripts/Map/ChunkManager.cs:86-117 | a second update around the same viewer chunk leaves every chunk's flag as the first one left it |
| `ChunkStreaming.LoadAll` | Assets/Scripts/Map/ChunkManager.cs:56-62 | loading distinct absent chunks in order adds exactly those keys, all hidden, one chunk each, and leaves the other chunks and the remembered list alone |
| `ChunkStreaming.SquareColumn` | Assets/Scripts/Map/ChunkManager.cs:58-61 | the inner loop visits (x, z) for each z in [z0, hi) exactly once |
| `ChunkStreaming.SquareRows` | Assets/Scripts/Map/ChunkManager.cs:56-62 | the nested loops visit each coordinate of the square's rows from x on exactly once: hi - lo coordinates per row |
| `ChunkStreaming.SpawnSquare` | Assets/Scripts/Map/ChunkManager.cs:56-62 | loading the square [lo, hi) x [lo, hi) makes exactly its (hi - lo)^2 chunks resident, all hidden |
| `ChunkStreaming.SpawnWorld` | Assets/Scripts/Map/ChunkManager.cs:54-63 | start-up loads exactly the chunks with both coordinates in [W/2 - V/2, W/2 + V/2), using truncating division. That is (hi - lo)^2 chunks, all hidden, with an empty remembered list |
| `ChunkStreaming.DefaultSpawn` | Assets/Scripts/Map/ChunkManager.cs:54-63 | with world size 2 and view distance 6 the square is [-2, 4) x [-2, 4): 36 chunks |
| `ChunkStreaming.FirstUpdateAfterSpawn` | Assets/Scripts/Map/ChunkManager.cs:86-117 | the first update after start-up shows exactly the window, and remembers exactly the window chunks start-up had loaded |

## Left out

- Noise generation (`Noise.cs`) is not part of this model. It uses Perlin noise, a seeded random generator, animation curves and float normalisation. The height grid is an input, and lemmas that need it normalised say so.
- Floating point: heights, UVs and colours are exact reals, so float rounding in `FloorToInt`, in the height fraction and in the UV arithmetic is not modelled.
- The texture volume `textureMap` is an input to `GenerateMesh`, whose entries index the terrain table. The code that fills it (`RequestChunkData` and its callers) is not part of this model. `GetTerrainType` is modelled per layer.
- `MeshData.CreateMesh`, `Chunk.cs` object construction, its data and mesh callbacks, and any threading behind them are engine I/O and are not modelled. Showing and hiding a chunk is a boolean flag.
- In `LoadChunk`, the game object, its name, transform and noise map are left out. Loading is the insertion of a record. `LoadChunk` calls `AddComponent<Chunk>()` and `Chunk.Init`, but `Chunk.cs`'s `Chunk` is a plain class, not a component, and has no `Init` (its constructor hides the chunk). That a freshly loaded chunk starts hidden is therefore a modelling assumption.
- `Start`, `Update`, `Shader.SetGlobalFloat`, `DrawMapInEditor`, `GenerateMap`, `MapData` and `GetChunk` are engine I/O or editor preview paths.
- The viewer's chunk index is a parameter. The `Mathf.RoundToInt` rounding of its float position (ChunkManager.cs:95-96) is not modelled.
- The spawn position and the move of the viewer to it (ChunkManager.cs:64-65) are not modelled.
- `voxelUVs` (VoxelData.cs:52-58) is never read by the builder and is not modelled.
- The debug log in `GetTextureID`'s default branch is output only. The -1 it returns is modelled.
- No triangle-winding (outward normal) property is stated for the face table.
- Fish, boids, field of view, player and editor scripts are outside the terrain core.
- C#'s `int` is 32 bits, and the model's `int` is unbounded. `MeshGenerator.BuildMeshFitsInt32` shows that with the game's chunk dimensions the mesh counts and indices stay far below 2^31. Chunk coordinates and the remembered list's length are not bounded, and their wrap-around is not modelled.
- `Terrain.ColorMap` takes a square width x width grid, which is what its loops index. Its only caller, `GenerateMap`, passes a `CHUNK_WIDTH x CHUNK_HEIGHT` (24 x 12) noise map (ChunkManager.cs:158), so the read of `noiseMap[x, y]` (ChunkManager.cs:171) throws at y = 12. That call is not modelled.
- `Terrain.GetTerrainType` states the first-match characterisation only for tables of at most 256 types. For longer tables the byte cast wraps the index, and the contract only promises a byte.
- `MeshGenerator.GetHeightOfStack` guarantees a height of at least 1 only for heights in [0, 1]. The code does not clamp negative heights.
- `MeshGenerator.GenerateMesh` requires what the code reads: an entry naming a terrain type at every voxel with a visible face (`MeshGenerator.CoversVisibleFaces`). The code throws an index exception when such a voxel lies outside the volume or names no terrain type. The model leaves that failure out, and other voxels of the volume may be missing or hold any byte.
- `ChunkStreaming.VisitAll` requires distinct coordinates. The only caller is the update's window scan, which has them.
