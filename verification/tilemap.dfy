/**
  The tile grid of a location (spiritual/tilemap.py): the per-kind 0/1 maps a
  location is stored as, the grid of tile kinds `loaddata` builds from them,
  and the bounds-checked lookup the chunk renderer and the collision test use.
*/
module TileGrid {
  import opened Wrappers
  import opened Values

  /** The kind of every cell outside the grid and of every cell no map claims. */
  const EmptyTile: string := "empty"

  /** A dict from tile kind to its 0/1 map, as pairs in the dict's iteration order. */
  type BoolMaps = seq<(string, seq<seq<int>>)>

  /** `TilemapData`: one map per tile kind, and the image source of each kind. */
  datatype TilemapData = TilemapData(boolmaps: BoolMaps, sources: seq<(string, string)>)

  /** `Tilemap`: the grid of tile kinds, indexed `[row][column]`, and the sources. */
  datatype Tilemap = Tilemap(tilemap: seq<seq<string>>, sources: seq<(string, string)>)

  /** `TilemapData.get_size`: row count and first-row length of the first map. */
  function DataSize(d: TilemapData): (r: Result<(nat, nat), Error>)
    ensures r == Err(EmptyIteration) <==> |d.boolmaps| == 0
    ensures r == Err(IndexOutOfRange) <==> |d.boolmaps| > 0 && |d.boolmaps[0].1| == 0
    ensures r.Ok? ==> 0 < r.value.0
  {
    if |d.boolmaps| == 0 then Err(EmptyIteration)
    else if |d.boolmaps[0].1| == 0 then Err(IndexOutOfRange)
    else Ok((|d.boolmaps[0].1|, |d.boolmaps[0].1[0]|))
  }

  /** `Tilemap.get_size`: row count and first-row length of the grid. */
  function GridSize(tm: Tilemap): (r: Result<(nat, nat), Error>)
    ensures r.Err? <==> |tm.tilemap| == 0
    ensures r.Ok? ==> 0 < r.value.0
  {
    if |tm.tilemap| == 0 then Err(IndexOutOfRange)
    else Ok((|tm.tilemap|, |tm.tilemap[0]|))
  }

  /** Every row as long as the first one. */
  predicate Rectangular(g: seq<seq<string>>) {
    forall y :: 0 <= y < |g| ==> |g[y]| == |g[0]|
  }

  /** The key `(row, column)` as the game writes it. */
  function Key(row: int, col: int): Value {
    VTuple([VInt(row), VInt(col)])
  }

  /** The integer an `int` (or a `bool`, which Python treats as one) indexes with. */
  function IndexOf(v: Value): int
    requires InstanceOf(v, IntKind)
  {
    if v.VBool? then (if v.b then 1 else 0) else v.i
  }

  /**
    `Tilemap.__getitem__`. The key is checked in the source's order: a tuple,
    of two items, whose row and then column are ints. A row outside the grid,
    or a column outside the first row, reads as `EmptyTile`; a column past the
    end of a shorter row raises `IndexError`.
  */
  function GetItem(tm: Tilemap, key: Value): (r: Result<string, Error>)
    ensures !key.VTuple? ==> r == Err(IndexNotTuple)
    ensures key.VTuple? && |key.items| != 2 ==> r == Err(IndexNotPair)
    ensures key.VTuple? && |key.items| == 2 && !InstanceOf(key.items[0], IntKind) ==> r == Err(RowNotInt)
    ensures (key.VTuple? && |key.items| == 2 && InstanceOf(key.items[0], IntKind)
             && !InstanceOf(key.items[1], IntKind)) ==> r == Err(ColumnNotInt)
    ensures forall row, col :: key == Key(row, col) && Rectangular(tm.tilemap) ==>
              r == Ok(if 0 <= row < |tm.tilemap| && 0 <= col < |tm.tilemap[row]| then tm.tilemap[row][col]
                      else EmptyTile)
  {
    if !key.VTuple? then Err(IndexNotTuple)
    else if |key.items| != 2 then Err(IndexNotPair)
    else if !InstanceOf(key.items[0], IntKind) then Err(RowNotInt)
    else if !InstanceOf(key.items[1], IntKind) then Err(ColumnNotInt)
    else
      var row, col := IndexOf(key.items[0]), IndexOf(key.items[1]);
      if !(0 <= row < |tm.tilemap|) then Ok(EmptyTile)
      else if !(0 <= col < |tm.tilemap[0]|) then Ok(EmptyTile)
      else if col < |tm.tilemap[row]| then Ok(tm.tilemap[row][col])
      else Err(IndexOutOfRange)
  }

  /** An index pair raises only on a row shorter than the first one. */
  lemma LookupRaises(tm: Tilemap, row: int, col: int)
    ensures GetItem(tm, Key(row, col)).Err? <==>
              0 <= row < |tm.tilemap| && |tm.tilemap[row]| <= col < |tm.tilemap[0]|
    ensures GetItem(tm, Key(row, col)).Err? ==> GetItem(tm, Key(row, col)) == Err(IndexOutOfRange)
  {
  }

  /** A `bool` index is the integer 0 or 1. */
  lemma BoolIndexes(tm: Tilemap, row: bool, col: int)
    ensures GetItem(tm, VTuple([VBool(row), VInt(col)])) == GetItem(tm, Key(if row then 1 else 0, col))
  {
  }

  /** Whether map `m` has a cell at row `i`, column `j`. */
  predicate Covers(bm: BoolMaps, m: nat, i: nat, j: nat)
    requires m < |bm|
  {
    i < |bm[m].1| && j < |bm[m].1[i]|
  }

  /** Whether map `m` is truthy at row `i`, column `j`. */
  predicate Claims(bm: BoolMaps, m: nat, i: nat, j: nat)
    requires m < |bm|
  {
    Covers(bm, m, i, j) && bm[m].1[i][j] != 0
  }

  /** Every map from `m` up to `k` has the cell `(i, j)` and is falsy there. */
  predicate PassedOver(bm: BoolMaps, m: nat, k: nat, i: nat, j: nat)
    requires k <= |bm|
  {
    forall p :: m <= p < k ==> Covers(bm, p, i, j) && !Claims(bm, p, i, j)
  }

  /** Map `k` is the first one from `m` on that has no cell `(i, j)`, and none before it is truthy there. */
  predicate RaisesAt(bm: BoolMaps, m: nat, k: nat, i: nat, j: nat) {
    m <= k < |bm| && !Covers(bm, k, i, j) && PassedOver(bm, m, k, i, j)
  }

  /**
    The innermost loop of `loaddata` from map `m` on: the first map truthy at
    `(i, j)`, none, or `IndexError` from the first map that has no such cell.
  */
  function FirstClaim(bm: BoolMaps, m: nat, i: nat, j: nat): (r: Result<Option<nat>, Error>)
    requires m <= |bm|
    ensures r.Ok? && r.value.Some? ==>
              m <= r.value.value < |bm| && Claims(bm, r.value.value, i, j) && PassedOver(bm, m, r.value.value, i, j)
    ensures r == Ok(None) <==> PassedOver(bm, m, |bm|, i, j)
    ensures r.Err? ==> r.error == IndexOutOfRange && exists k :: RaisesAt(bm, m, k, i, j)
    decreases |bm| - m
  {
    if m == |bm| then Ok(None)
    else if !Covers(bm, m, i, j) then
      assert RaisesAt(bm, m, m, i, j);
      Err(IndexOutOfRange)
    else if bm[m].1[i][j] != 0 then Ok(Some(m))
    else
      var r := FirstClaim(bm, m + 1, i, j);
      PassOne(bm, m, m + 1, i, j, r);
      r
  }

  /** Passing over a falsy map `m` extends what the search from `m + 1` found back to `m`. */
  lemma PassOne(bm: BoolMaps, m: nat, next: nat, i: nat, j: nat, r: Result<Option<nat>, Error>)
    requires next == m + 1 <= |bm| && Covers(bm, m, i, j) && !Claims(bm, m, i, j)
    requires r.Ok? && r.value.Some? ==> next <= r.value.value < |bm| && PassedOver(bm, next, r.value.value, i, j)
    requires r == Ok(None) <==> PassedOver(bm, next, |bm|, i, j)
    requires r.Err? ==> exists k :: RaisesAt(bm, next, k, i, j)
    ensures r.Ok? && r.value.Some? ==> PassedOver(bm, m, r.value.value, i, j)
    ensures r == Ok(None) <==> PassedOver(bm, m, |bm|, i, j)
    ensures r.Err? ==> exists k :: RaisesAt(bm, m, k, i, j)
  {
    if r.Err? {
      var k :| RaisesAt(bm, next, k, i, j);
      assert RaisesAt(bm, m, k, i, j);
    }
  }

  /** The kind `loaddata` puts at grid cell `[j][i]`, read from every map's `[i][j]`. */
  function TileAt(bm: BoolMaps, i: nat, j: nat): (r: Result<string, Error>)
    ensures r.Ok? && r.value != EmptyTile ==>
              exists m :: 0 <= m < |bm| && Claims(bm, m, i, j) && PassedOver(bm, 0, m, i, j) && bm[m].0 == r.value
    ensures PassedOver(bm, 0, |bm|, i, j) ==> r == Ok(EmptyTile)
    ensures r.Err? <==> exists k :: RaisesAt(bm, 0, k, i, j)
    ensures r.Err? ==> r.error == IndexOutOfRange
  {
    match FirstClaim(bm, 0, i, j)
    case Ok(Some(m)) => Ok(bm[m].0)
    case Ok(None) => Ok(EmptyTile)
    case Err(e) => Err(e)
  }

  /** Every cell of a data set of the given size resolves without raising. */
  predicate AllResolve(d: TilemapData, rows: nat, cols: nat) {
    forall i, j :: 0 <= i < rows && 0 <= j < cols ==> TileAt(d.boolmaps, i, j).Ok?
  }

  /**
    `tm` is `loaddata(d)`: the transpose of the maps' size, every cell `[j][i]`
    the kind resolved at `[i][j]`, and the sources carried over.
  */
  predicate LoadedFrom(tm: Tilemap, d: TilemapData)
    requires DataSize(d).Ok?
  {
    var (rows, cols) := DataSize(d).value;
    |tm.tilemap| == cols
    && (forall y :: 0 <= y < cols ==> |tm.tilemap[y]| == rows)
    && (forall y, x :: 0 <= y < cols && 0 <= x < rows ==> TileAt(d.boolmaps, x, y) == Ok(tm.tilemap[y][x]))
    && tm.sources == d.sources
  }

  /** The grid cells already visited by the nested loops hold their kind; the rest are still empty. */
  predicate Filled(d: TilemapData, grid: seq<seq<string>>, rows: nat, cols: nat, i: nat, j: nat) {
    |grid| == cols
    && (forall y :: 0 <= y < cols ==> |grid[y]| == rows)
    && (forall y, x :: 0 <= y < cols && 0 <= x < rows ==>
          if x < i || (x == i && y < j) then TileAt(d.boolmaps, x, y) == Ok(grid[y][x])
          else grid[y][x] == EmptyTile)
  }

  /** `Tilemap.loaddata`: the nested loops of the source over rows, columns and maps. */
  method LoadData(d: TilemapData) returns (r: Result<Tilemap, Error>)
    ensures DataSize(d).Err? ==> r == Err(DataSize(d).error)
    ensures DataSize(d).Ok? ==> (r.Ok? <==> AllResolve(d, DataSize(d).value.0, DataSize(d).value.1))
    ensures r.Ok? ==> DataSize(d).Ok? && LoadedFrom(r.value, d)
  {
    var size :- DataSize(d);
    var rows, cols := size.0, size.1;
    var grid := seq(cols, _ => seq(rows, _ => EmptyTile));
    var i := 0;
    while i < rows
      invariant i <= rows
      invariant Filled(d, grid, rows, cols, i, 0)
    {
      var j := 0;
      while j < cols
        invariant j <= cols
        invariant Filled(d, grid, rows, cols, i, j)
      {
        match FirstClaim(d.boolmaps, 0, i, j) {
          case Ok(Some(m)) =>
            grid := grid[j := grid[j][i := d.boolmaps[m].0]];
          case Ok(None) =>
          case Err(e) =>
            assert !AllResolve(d, rows, cols) by {
              assert TileAt(d.boolmaps, i, j).Err?;
            }
            return Err(e);
        }
        j := j + 1;
      }
      assert Filled(d, grid, rows, cols, i + 1, 0);
      i := i + 1;
    }
    r := Ok(Tilemap(grid, d.sources));
  }

  /** Looking up a loaded grid at `(row, col)` reads every map at `[col][row]`, or `EmptyTile` outside. */
  lemma LoadedLookup(tm: Tilemap, d: TilemapData, row: int, col: int)
    requires DataSize(d).Ok? && LoadedFrom(tm, d)
    ensures GetItem(tm, Key(row, col)) ==
              if 0 <= row < DataSize(d).value.1 && 0 <= col < DataSize(d).value.0
              then TileAt(d.boolmaps, col, row) else Ok(EmptyTile)
  {
    assert Rectangular(tm.tilemap);
  }

  /** A loaded grid's size is the maps' size swapped; with no columns it is empty and `get_size` raises. */
  lemma LoadedSize(tm: Tilemap, d: TilemapData)
    requires DataSize(d).Ok? && LoadedFrom(tm, d)
    ensures DataSize(d).value.1 == 0 ==> GridSize(tm) == Err(IndexOutOfRange)
    ensures DataSize(d).value.1 > 0 ==> GridSize(tm) == Ok((DataSize(d).value.1, DataSize(d).value.0))
  {
  }
}
