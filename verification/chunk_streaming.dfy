/** The chunk manager's bookkeeping: which chunks are resident, which are
    shown, and the list of chunks remembered as shown. Creating a chunk
    (its game object and the noise behind it) is abstracted to inserting a
    fresh hidden record. */
module ChunkStreaming {
  import opened Primitives
  import opened Settings

  /** A chunk index in the horizontal plane (the manager's dictionary key). */
  datatype Coord = Coord(x: int, y: int)

  /** Every resident chunk with its shown flag, and the list of chunks the
      visibility updates have shown so far. */
  datatype World = World(chunks: map<Coord, bool>, visibleLastFrame: seq<Coord>)
  {
    /** Every remembered chunk is resident. */
    predicate WellFormed() {
      forall i :: 0 <= i < |visibleLastFrame| ==> visibleLastFrame[i] in chunks
    }
  }

  const EMPTY_WORLD := World(map[], [])

  /** Creates the chunk at `c`. The dictionary insertion throws on a key
      already present, so callers must only load absent chunks; a new chunk
      starts hidden. */
  function LoadChunk(w: World, c: Coord): (r: World)
    requires c !in w.chunks
    ensures forall d :: d in r.chunks <==> d in w.chunks || d == c
    ensures |r.chunks.Keys| == |w.chunks.Keys| + 1
    ensures !r.chunks[c]
    ensures forall d :: d in w.chunks ==> r.chunks[d] == w.chunks[d]
    ensures r.visibleLastFrame == w.visibleLastFrame
  {
    var r := w.(chunks := w.chunks[c := false]);
    assert r.chunks.Keys == w.chunks.Keys + {c};
    r
  }

  /** Shows or hides the resident chunk at `c`. */
  function SetShown(w: World, c: Coord, shown: bool): (r: World)
    requires c in w.chunks
    ensures r.chunks.Keys == w.chunks.Keys
    ensures r.chunks[c] == shown
    ensures forall d :: d in w.chunks && d != c ==> r.chunks[d] == w.chunks[d]
    ensures r.visibleLastFrame == w.visibleLastFrame
  {
    w.(chunks := w.chunks[c := shown])
  }

  /** Hides every chunk of `cs`, in order. */
  function HideAll(w: World, cs: seq<Coord>): (r: World)
    requires forall i :: 0 <= i < |cs| ==> cs[i] in w.chunks
    ensures r.chunks.Keys == w.chunks.Keys
    ensures forall c :: c in w.chunks ==> r.chunks[c] == (w.chunks[c] && c !in cs)
    ensures r.visibleLastFrame == w.visibleLastFrame
    decreases |cs|
  {
    if cs == [] then w
    else
      assert forall c :: c in cs <==> c == cs[0] || c in cs[1..] by {
        assert cs == [cs[0]] + cs[1..];
      }
      HideAll(SetShown(w, cs[0], false), cs[1..])
  }

  /** One step of the window scan: a resident chunk is shown and appended to
      the remembered list; an absent one is loaded and shown but not appended. */
  function Visit(w: World, c: Coord): (r: World)
    ensures forall d :: d in r.chunks <==> d in w.chunks || d == c
    ensures r.chunks[c]
    ensures forall d :: d in w.chunks && d != c ==> r.chunks[d] == w.chunks[d]
    ensures r.visibleLastFrame == w.visibleLastFrame + (if c in w.chunks then [c] else [])
  {
    if c in w.chunks then
      var s := SetShown(w, c, true);
      s.(visibleLastFrame := s.visibleLastFrame + [c])
    else
      SetShown(LoadChunk(w, c), c, true)
  }

  /** The entries of `cs` that are keys of `keys`, in order. */
  function Resident(cs: seq<Coord>, keys: set<Coord>): (rs: seq<Coord>)
    ensures forall c :: c in rs <==> c in cs && c in keys
    decreases |cs|
  {
    if cs == [] then []
    else
      assert forall c :: c in cs <==> c == cs[0] || c in cs[1..] by {
        assert cs == [cs[0]] + cs[1..];
      }
      (if cs[0] in keys then [cs[0]] else []) + Resident(cs[1..], keys)
  }

  /** Adding a key that `cs` never mentions does not change the filter. */
  lemma {:induction false} ResidentIgnoresOtherKeys(cs: seq<Coord>, keys: set<Coord>, c: Coord)
    requires c !in cs
    ensures Resident(cs, keys + {c}) == Resident(cs, keys)
    decreases |cs|
  {
    if cs != [] {
      assert cs[0] != c;
      assert c !in cs[1..] by {
        assert forall d :: d in cs[1..] ==> d in cs;
      }
      ResidentIgnoresOtherKeys(cs[1..], keys, c);
    }
  }

  /** Visiting `c` makes it resident and adds no other key. */
  lemma VisitKeys(w: World, c: Coord)
    ensures Visit(w, c).chunks.Keys == w.chunks.Keys + {c}
  {
  }

  /** The filter's first step. */
  lemma ResidentStep(cs: seq<Coord>, keys: set<Coord>)
    requires |cs| > 0
    ensures Resident(cs, keys) == (if cs[0] in keys then [cs[0]] else []) + Resident(cs[1..], keys)
  {
  }

  /** The remembered list after visiting `cs[0]` and then the rest. */
  lemma {:induction false} VisitAllListStep(w: World, w1: World, cs: seq<Coord>, list: seq<Coord>)
    requires |cs| > 0 && cs[0] !in cs[1..]
    requires w1 == Visit(w, cs[0])
    requires list == w1.visibleLastFrame + Resident(cs[1..], w1.chunks.Keys)
    ensures list == w.visibleLastFrame + Resident(cs, w.chunks.Keys)
  {
    var keys := w.chunks.Keys;
    var extra := if cs[0] in keys then [cs[0]] else [];
    var rest := Resident(cs[1..], keys);
    VisitKeys(w, cs[0]);
    ResidentIgnoresOtherKeys(cs[1..], keys, cs[0]);
    assert list == (w.visibleLastFrame + extra) + rest;
    ResidentStep(cs, keys);
    AppendAssoc(w.visibleLastFrame, extra, rest);
  }

  /** Visits the chunks of `cs` in order. The window it is used on lists
      every coordinate once. */
  function VisitAll(w: World, cs: seq<Coord>): (r: World)
    requires Distinct(cs)
    ensures forall c :: c in r.chunks <==> c in w.chunks || c in cs
    ensures forall c :: c in cs ==> r.chunks[c]
    ensures forall c :: c in w.chunks && c !in cs ==> r.chunks[c] == w.chunks[c]
    ensures r.visibleLastFrame == w.visibleLastFrame + Resident(cs, w.chunks.Keys)
    decreases |cs|
  {
    if cs == [] then w
    else
      var w1 := Visit(w, cs[0]);
      DistinctTail(cs);
      var r := VisitAll(w1, cs[1..]);
      VisitAllListStep(w, w1, cs, r.visibleLastFrame);
      r
  }

  /** Chunk `c` lies in the half-open square of side 2v around `viewer`:
      offsets -v through v - 1 on both axes. */
  predicate InWindow(viewer: Coord, v: int, c: Coord) {
    -v <= c.x - viewer.x < v && -v <= c.y - viewer.y < v
  }

  /** Row `dy` of the window, from column offset `dx` on. */
  function WindowRow(viewer: Coord, v: int, dy: int, dx: int): (cs: seq<Coord>)
    ensures forall c :: c in cs <==> c.y == viewer.y + dy && dx <= c.x - viewer.x < v
    ensures Distinct(cs)
    ensures |cs| == if dx < v then v - dx else 0
    decreases v - dx
  {
    if dx >= v then []
    else
      var c := Coord(viewer.x + dx, viewer.y + dy);
      var rest := WindowRow(viewer, v, dy, dx + 1);
      DistinctConcat([c], rest);
      [c] + rest
  }

  /** The window from row offset `dy` on, row by row. */
  function WindowRows(viewer: Coord, v: int, dy: int): (cs: seq<Coord>)
    ensures forall c :: c in cs <==> -v <= c.x - viewer.x < v && dy <= c.y - viewer.y < v
    ensures Distinct(cs)
    ensures |cs| == RowsCount(v - dy, if -v < v then 2 * v else 0)
    decreases v - dy
  {
    if dy >= v then []
    else
      var row := WindowRow(viewer, v, dy, -v);
      var rest := WindowRows(viewer, v, dy + 1);
      DistinctConcat(row, rest);
      row + rest
  }

  /** The coordinates the visibility update scans, in its loop order: rows
      by y offset, each row by x offset. */
  function Window(viewer: Coord, v: int): (cs: seq<Coord>)
    ensures forall c :: c in cs <==> InWindow(viewer, v, c)
    ensures Distinct(cs)
  {
    WindowRows(viewer, v, -v)
  }

  /** The window holds 2v x 2v chunks. */
  lemma WindowSize(viewer: Coord, v: int)
    ensures |Window(viewer, v)| == WindowArea(v)
  {
    if v > 0 {
      RowsCountIsProduct(2 * v, 2 * v);
    }
  }

  /** One visibility update around the chunk the viewer stands on: hide the
      remembered chunks, then show (loading where absent) every chunk of the
      window. */
  function UpdateVisibleChunks(w: World, viewer: Coord, v: int): (r: World)
    requires w.WellFormed()
    ensures r.WellFormed()
    // the resident set only grows, by the window
    ensures forall c :: c in r.chunks <==> c in w.chunks || InWindow(viewer, v, c)
    // every chunk of the window is shown
    ensures forall c :: InWindow(viewer, v, c) ==> r.chunks[c]
    // outside the window, a remembered chunk is hidden and every other keeps its flag
    ensures forall c :: c in w.chunks && !InWindow(viewer, v, c) ==>
      r.chunks[c] == (w.chunks[c] && c !in w.visibleLastFrame)
    // the remembered list is never cleared, only extended by resident window chunks
    ensures |w.visibleLastFrame| <= |r.visibleLastFrame|
    ensures r.visibleLastFrame[..|w.visibleLastFrame|] == w.visibleLastFrame
    ensures forall c :: c in r.visibleLastFrame <==>
      c in w.visibleLastFrame || (c in w.chunks && InWindow(viewer, v, c))
    // every window chunk that was already resident is appended, in scan order, even if remembered before
    ensures r.visibleLastFrame == w.visibleLastFrame + Resident(Window(viewer, v), w.chunks.Keys)
  {
    var hidden := HideAll(w, w.visibleLastFrame);
    var window := Window(viewer, v);
    var r := VisitAll(hidden, window);
    AppendPrefix(w.visibleLastFrame, Resident(window, w.chunks.Keys));
    assert r.WellFormed() by {
      forall i | 0 <= i < |r.visibleLastFrame|
        ensures r.visibleLastFrame[i] in r.chunks
      {
        assert r.visibleLastFrame[i] in r.visibleLastFrame;
      }
    }
    r
  }

  /** Repeating an update around the same viewer chunk adds no chunk. */
  lemma RepeatedUpdateLoadsNothing(w: World, w1: World, w2: World, viewer: Coord, v: int)
    requires w.WellFormed()
    requires w1 == UpdateVisibleChunks(w, viewer, v) && w2 == UpdateVisibleChunks(w1, viewer, v)
    ensures w2.chunks.Keys == w1.chunks.Keys
  {
  }

  /** Repeating an update around the same viewer chunk keeps the flag of chunk `c`. */
  lemma RepeatedUpdateKeepsFlag(w: World, w1: World, w2: World, viewer: Coord, v: int, c: Coord)
    requires w.WellFormed()
    requires w1 == UpdateVisibleChunks(w, viewer, v) && w2 == UpdateVisibleChunks(w1, viewer, v)
    requires c in w1.chunks
    ensures c in w2.chunks && w2.chunks[c] == w1.chunks[c]
  {
    if !InWindow(viewer, v, c) {
      assert c in w1.visibleLastFrame <==> c in w.visibleLastFrame;
    }
  }

  /** A second update around the same viewer chunk leaves every chunk as the
      first one left it. */
  lemma UpdateIdempotent(w: World, viewer: Coord, v: int)
    requires w.WellFormed()
    ensures var w1 := UpdateVisibleChunks(w, viewer, v);
      UpdateVisibleChunks(w1, viewer, v).chunks == w1.chunks
  {
    var w1 := UpdateVisibleChunks(w, viewer, v);
    var w2 := UpdateVisibleChunks(w1, viewer, v);
    RepeatedUpdateLoadsNothing(w, w1, w2, viewer, v);
    forall c | c in w1.chunks
      ensures w2.chunks[c] == w1.chunks[c]
    {
      RepeatedUpdateKeepsFlag(w, w1, w2, viewer, v, c);
    }
    SameEntries(w2.chunks, w1.chunks);
  }

  /** Filtering a list whose entries are all keys keeps it whole. */
  lemma {:induction false} ResidentAll(cs: seq<Coord>, keys: set<Coord>)
    requires forall i :: 0 <= i < |cs| ==> cs[i] in keys
    ensures Resident(cs, keys) == cs
    decreases |cs|
  {
    if cs != [] {
      assert cs[0] in keys;
      ResidentAll(cs[1..], keys);
      assert cs == [cs[0]] + cs[1..];
    }
  }

  /** Every chunk of the window around `viewer` is resident. */
  ghost predicate WindowLoaded(w: World, viewer: Coord, v: int) {
    forall c :: InWindow(viewer, v, c) ==> c in w.chunks
  }

  /** The number of chunks in a window of half side `v`. */
  function WindowArea(v: int): int {
    if v > 0 then 4 * v * v else 0
  }

  /** Once the window is loaded, an update around the same viewer chunk
      appends the whole window, 4v^2 entries, to the remembered list, although
      every one of them is on it already; the window stays loaded, so the
      list grows by as much again on every later frame, without bound. */
  lemma LoadedWindowGrowsList(w: World, viewer: Coord, v: int)
    requires w.WellFormed() && WindowLoaded(w, viewer, v)
    ensures var r := UpdateVisibleChunks(w, viewer, v);
      && r.visibleLastFrame == w.visibleLastFrame + Window(viewer, v)
      && |r.visibleLastFrame| == |w.visibleLastFrame| + WindowArea(v)
      && WindowLoaded(r, viewer, v)
  {
    var window := Window(viewer, v);
    forall i | 0 <= i < |window|
      ensures window[i] in w.chunks.Keys
    {
      assert window[i] in window;
    }
    ResidentAll(window, w.chunks.Keys);
    WindowSize(viewer, v);
  }

  /** The first update loads the window, so from the second update on the
      remembered list gains 4v^2 entries per frame. */
  lemma RepeatedUpdateGrowsList(w: World, viewer: Coord, v: int)
    requires w.WellFormed()
    ensures var w1 := UpdateVisibleChunks(w, viewer, v);
      var w2 := UpdateVisibleChunks(w1, viewer, v);
      && WindowLoaded(w1, viewer, v)
      && w2.visibleLastFrame == w1.visibleLastFrame + Window(viewer, v)
      && |w2.visibleLastFrame| == |w1.visibleLastFrame| + WindowArea(v)
  {
    LoadedWindowGrowsList(UpdateVisibleChunks(w, viewer, v), viewer, v);
  }

  /** Two maps with the same keys and the same value at every key are equal. */
  lemma SameEntries(a: map<Coord, bool>, b: map<Coord, bool>)
    requires a.Keys == b.Keys
    requires forall c :: c in b ==> a[c] == b[c]
    ensures a == b
  {
  }

  /** Loads the chunks of `cs` in order, each one absent before. */
  function LoadAll(w: World, cs: seq<Coord>): (r: World)
    requires Distinct(cs)
    requires forall c :: c in cs ==> c !in w.chunks
    ensures forall c :: c in r.chunks <==> c in w.chunks || c in cs
    ensures forall c :: c in w.chunks ==> r.chunks[c] == w.chunks[c]
    ensures forall c :: c in cs ==> !r.chunks[c]
    ensures |r.chunks.Keys| == |w.chunks.Keys| + |cs|
    ensures r.visibleLastFrame == w.visibleLastFrame
    decreases |cs|
  {
    if cs == [] then w
    else
      DistinctTail(cs);
      LoadAll(LoadChunk(w, cs[0]), cs[1..])
  }

  /** The coordinates of row `x` of the start-up square, from `z` up to `hi`,
      in the inner loop's order. */
  function SquareColumn(x: int, z: int, hi: int): (cs: seq<Coord>)
    ensures forall c :: c in cs <==> c.x == x && z <= c.y < hi
    ensures Distinct(cs)
    ensures |cs| == if z < hi then hi - z else 0
    decreases hi - z
  {
    if z >= hi then []
    else
      var rest := SquareColumn(x, z + 1, hi);
      DistinctConcat([Coord(x, z)], rest);
      [Coord(x, z)] + rest
  }

  /** The number of chunks in `rows` rows of `side` chunks. */
  function RowsCount(rows: int, side: int): int
    decreases rows
  {
    if rows <= 0 then 0 else side + RowsCount(rows - 1, side)
  }

  lemma {:induction false} RowsCountIsProduct(rows: nat, side: int)
    ensures RowsCount(rows, side) == rows * side
  {
    if rows > 0 {
      RowsCountIsProduct(rows - 1, side);
      assert rows * side == side + (rows - 1) * side;
    }
  }

  /** The coordinates of rows `x` up to `hi` of the square [lo, hi) x [lo, hi),
      in the start-up loops' order: x outer, z inner. */
  function SquareRows(x: int, lo: int, hi: int): (cs: seq<Coord>)
    ensures forall c :: c in cs <==> x <= c.x < hi && lo <= c.y < hi
    ensures Distinct(cs)
    ensures |cs| == RowsCount(hi - x, if lo < hi then hi - lo else 0)
    decreases hi - x
  {
    if x >= hi then []
    else
      var row := SquareColumn(x, lo, hi);
      var rest := SquareRows(x + 1, lo, hi);
      DistinctConcat(row, rest);
      row + rest
  }

  /** The square [lo, hi) x [lo, hi), loaded in loop order, all hidden. */
  function SpawnSquare(lo: int, hi: int): (r: World)
    ensures forall c :: c in r.chunks <==> lo <= c.x < hi && lo <= c.y < hi
    ensures |r.chunks.Keys| == SquareArea(lo, hi)
    ensures forall c :: c in r.chunks ==> !r.chunks[c]
    ensures r.visibleLastFrame == []
  {
    var cs := SquareRows(lo, lo, hi);
    var r := LoadAll(EMPTY_WORLD, cs);
    assert |r.chunks.Keys| == RowsCount(hi - lo, if lo < hi then hi - lo else 0);
    SquareCount(lo, hi);
    r
  }

  /** The number of chunks in the square [lo, hi) x [lo, hi). */
  function SquareArea(lo: int, hi: int): int {
    if lo < hi then (hi - lo) * (hi - lo) else 0
  }

  lemma SquareCount(lo: int, hi: int)
    ensures RowsCount(hi - lo, if lo < hi then hi - lo else 0) == SquareArea(lo, hi)
  {
    if lo < hi {
      RowsCountIsProduct(hi - lo, hi - lo);
    }
  }

  /** The lower corner of the start-up square: W/2 - V/2 with C#'s truncating division. */
  function SpawnLow(cfg: Config): int {
    TruncDiv(cfg.worldSizeInChunks, 2) - TruncDiv(cfg.viewDistanceInChunks, 2)
  }

  /** The exclusive upper corner of the start-up square: W/2 + V/2. */
  function SpawnHigh(cfg: Config): int {
    TruncDiv(cfg.worldSizeInChunks, 2) + TruncDiv(cfg.viewDistanceInChunks, 2)
  }

  /** The start-up load: every chunk whose coordinates both lie in
      [W/2 - V/2, W/2 + V/2). */
  function SpawnWorld(cfg: Config): (r: World)
    ensures forall c :: c in r.chunks <==> SpawnLow(cfg) <= c.x < SpawnHigh(cfg) && SpawnLow(cfg) <= c.y < SpawnHigh(cfg)
    ensures |r.chunks.Keys| == SquareArea(SpawnLow(cfg), SpawnHigh(cfg))
    ensures forall c :: c in r.chunks ==> !r.chunks[c]
    ensures r.visibleLastFrame == [] && r.WellFormed()
  {
    SpawnSquare(SpawnLow(cfg), SpawnHigh(cfg))
  }

  /** With a world two chunks wide and a view distance of six, start-up loads
      the 36 chunks of [-2, 4) x [-2, 4). */
  lemma DefaultSpawn(cfg: Config)
    requires cfg.worldSizeInChunks == WORLD_SIZE_IN_CHUNKS && cfg.viewDistanceInChunks == VIEW_DISTANCE_IN_CHUNKS
    ensures SpawnLow(cfg) == -2 && SpawnHigh(cfg) == 4
    ensures |SpawnWorld(cfg).chunks.Keys| == 36
  {
    assert TruncDiv(2, 2) == 1 && TruncDiv(6, 2) == 3;
  }

  /** The first update after start-up shows exactly the window, and remembers
      exactly the window chunks start-up had loaded. */
  lemma FirstUpdateAfterSpawn(cfg: Config, viewer: Coord, v: int)
    ensures var w := SpawnWorld(cfg);
      var r := UpdateVisibleChunks(w, viewer, v);
      && (forall c :: c in r.chunks ==> (r.chunks[c] <==> InWindow(viewer, v, c)))
      && (forall c :: c in r.visibleLastFrame <==> InWindow(viewer, v, c) && c in w.chunks)
  {
  }
}
