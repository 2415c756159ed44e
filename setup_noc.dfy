/**
 * Building the NoC model from the architecture description: finding the tiles
 * that hold a physical router, matching every router the architecture declares
 * to its nearest such tile, then adding the routers and the declared links to
 * the NoC storage.
 */
module SetupNoc {
  import opened Common
  import opened NocStorageModel

  /** What the device grid holds at one cell: the name of the tile type there, the
      tile's width and height, and the cell's offsets from the tile's bottom-left cell. */
  datatype GridCell = GridCell(typeName: string, width: int, height: int, widthOffset: int, heightOffset: int)

  /** A physical router tile: the grid position of its bottom-left cell and the
      position of its centre. */
  datatype RouterTilePosition = RouterTilePosition(gridX: int, gridY: int, centroidX: real, centroidY: real)

  /** A router the architecture declares: its user id, its position on the device
      and the user ids of the routers it has links to. */
  datatype LogicalRouter = LogicalRouter(id: int, x: real, y: real, connections: seq<int>)

  /** The NoC part of the architecture description. */
  datatype NocInfo = NocInfo(routerTileName: string, routers: seq<LogicalRouter>,
                             linkBandwidth: real, linkLatency: real, routerLatency: real)

  /** The link and router parameters copied into the NoC context. */
  datatype NocParams = NocParams(linkBandwidth: real, linkLatency: real, routerLatency: real)

  /** Each fatal error the builder can raise. */
  datatype SetupError =
    | NoNocDescription
    | MoreRoutersThanTiles
    | FewerRoutersThanTiles
    | NoRouterTiles
    | EquidistantTiles(routerId: int)
    | TileAlreadyAssigned(routerId: int)
    | UnknownRouterId(id: int)

  /** The device grid, column by column: grid[i][j] is the cell at column i, row j. */
  predicate Rectangular(grid: seq<seq<GridCell>>, height: nat)
  {
    forall i :: 0 <= i < |grid| ==> |grid[i]| == height
  }

  /** The cell is the bottom-left cell of a router tile. */
  predicate IsRouterOrigin(cell: GridCell, name: string)
  {
    cell.typeName == name && cell.widthOffset == 0 && cell.heightOffset == 0
  }

  /** The recorded position of the tile whose bottom-left cell is at (i, j). */
  function TileAt(cell: GridCell, i: int, j: int): RouterTilePosition
  {
    RouterTilePosition(i, j, (cell.width - 1) as real / 2.0 + i as real,
                       (cell.height - 1) as real / 2.0 + j as real)
  }

  /** Tile positions are recorded column by column, bottom to top within a column. */
  predicate Before(p: RouterTilePosition, q: RouterTilePosition)
  {
    p.gridX < q.gridX || (p.gridX == q.gridX && p.gridY < q.gridY)
  }

  predicate InGridOrder(s: seq<RouterTilePosition>)
  {
    forall a, b :: 0 <= a < b < |s| ==> Before(s[a], s[b])
  }

  /** The router tiles found in rows [0, n) of column i. */
  function ColumnTiles(grid: seq<seq<GridCell>>, height: nat, name: string, i: nat, n: nat): (r: seq<RouterTilePosition>)
    requires Rectangular(grid, height) && i < |grid| && n <= height
    ensures |r| <= n
  {
    if n == 0 then []
    else
      var pre := ColumnTiles(grid, height, name, i, n - 1);
      if IsRouterOrigin(grid[i][n - 1], name) then pre + [TileAt(grid[i][n - 1], i, n - 1)] else pre
  }

  /** A position is recorded in rows [0, n) of column i exactly when its cell is the
      origin of a router tile, with that tile's centre. */
  lemma {:induction false} ColumnTilesMembers(grid: seq<seq<GridCell>>, height: nat, name: string, i: nat, n: nat)
    requires Rectangular(grid, height) && i < |grid| && n <= height
    ensures forall t :: t in ColumnTiles(grid, height, name, i, n) <==>
              (0 <= t.gridY < n && t.gridX == i && IsRouterOrigin(grid[i][t.gridY], name)
               && t == TileAt(grid[i][t.gridY], i, t.gridY))
  {
    if n > 0 {
      ColumnTilesMembers(grid, height, name, i, n - 1);
    }
  }

  /** Along the tiles recorded in one column, the column is i and rows increase. */
  lemma {:induction false} ColumnTilesOrdered(grid: seq<seq<GridCell>>, height: nat, name: string, i: nat, n: nat)
    requires Rectangular(grid, height) && i < |grid| && n <= height
    ensures forall a :: 0 <= a < |ColumnTiles(grid, height, name, i, n)| ==>
              ColumnTiles(grid, height, name, i, n)[a].gridX == i && ColumnTiles(grid, height, name, i, n)[a].gridY < n
    ensures forall a, b :: 0 <= a < b < |ColumnTiles(grid, height, name, i, n)| ==>
              ColumnTiles(grid, height, name, i, n)[a].gridY < ColumnTiles(grid, height, name, i, n)[b].gridY
  {
    if n > 0 {
      ColumnTilesOrdered(grid, height, name, i, n - 1);
      var pre := ColumnTiles(grid, height, name, i, n - 1);
      var r := ColumnTiles(grid, height, name, i, n);
      assert forall a :: 0 <= a < |pre| ==> pre[a].gridX == i && pre[a].gridY < n - 1;
      if IsRouterOrigin(grid[i][n - 1], name) {
        assert r == pre + [TileAt(grid[i][n - 1], i, n - 1)];
        forall a | 0 <= a < |r| ensures r[a].gridX == i && r[a].gridY < n {
          if a < |pre| {
            assert r[a] == pre[a];
          }
        }
        forall a, b | 0 <= a < b < |r| ensures r[a].gridY < r[b].gridY {
          assert r[a] == pre[a];
          if b < |pre| {
            assert r[b] == pre[b];
          }
        }
      }
    }
  }

  /** The router tiles found in columns [0, w): what
      identify_and_store_noc_router_tile_positions records. */
  function GridTiles(grid: seq<seq<GridCell>>, height: nat, name: string, w: nat): (r: seq<RouterTilePosition>)
    requires Rectangular(grid, height) && w <= |grid|
  {
    if w == 0 then []
    else
      var pre := GridTiles(grid, height, name, w - 1);
      pre + ColumnTiles(grid, height, name, w - 1, height)
  }

  /** Over columns [0, w), exactly the origin cells of router tiles are recorded, each
      with its grid position and centre. */
  lemma {:induction false} GridTilesMembers(grid: seq<seq<GridCell>>, height: nat, name: string, w: nat)
    requires Rectangular(grid, height) && w <= |grid|
    ensures forall t :: t in GridTiles(grid, height, name, w) <==>
              (0 <= t.gridX < w && 0 <= t.gridY < height && IsRouterOrigin(grid[t.gridX][t.gridY], name)
               && t == TileAt(grid[t.gridX][t.gridY], t.gridX, t.gridY))
  {
    if w > 0 {
      GridTilesMembers(grid, height, name, w - 1);
      ColumnTilesMembers(grid, height, name, w - 1, height);
      var pre := GridTiles(grid, height, name, w - 1);
      var col := ColumnTiles(grid, height, name, w - 1, height);
      assert GridTiles(grid, height, name, w) == pre + col;
      forall t ensures t in pre + col <==> t in pre || t in col { }
    }
  }

  /** The tiles recorded over columns [0, w) lie in those columns. */
  lemma {:induction false} GridTilesColumns(grid: seq<seq<GridCell>>, height: nat, name: string, w: nat)
    requires Rectangular(grid, height) && w <= |grid|
    ensures forall a :: 0 <= a < |GridTiles(grid, height, name, w)| ==> GridTiles(grid, height, name, w)[a].gridX < w
  {
    if w > 0 {
      GridTilesColumns(grid, height, name, w - 1);
      ColumnTilesOrdered(grid, height, name, w - 1, height);
      var pre := GridTiles(grid, height, name, w - 1);
      var col := ColumnTiles(grid, height, name, w - 1, height);
      var r := pre + col;
      assert forall a :: 0 <= a < |pre| ==> pre[a].gridX < w - 1;
      assert forall a :: 0 <= a < |col| ==> col[a].gridX == w - 1;
      assert GridTiles(grid, height, name, w) == r;
      forall a | 0 <= a < |r| ensures r[a].gridX < w {
        if a < |pre| {
          assert r[a] == pre[a];
        } else {
          assert r[a] == col[a - |pre|];
        }
      }
    }
  }

  /** The recorded tiles come column by column, bottom to top: each tile is recorded
      once, and tiles at different indices sit at different grid positions. */
  lemma {:induction false} GridTilesOrdered(grid: seq<seq<GridCell>>, height: nat, name: string, w: nat)
    requires Rectangular(grid, height) && w <= |grid|
    ensures InGridOrder(GridTiles(grid, height, name, w))
  {
    if w > 0 {
      GridTilesOrdered(grid, height, name, w - 1);
      GridTilesColumns(grid, height, name, w - 1);
      ColumnTilesOrdered(grid, height, name, w - 1, height);
      var pre := GridTiles(grid, height, name, w - 1);
      var col := ColumnTiles(grid, height, name, w - 1, height);
      var r := pre + col;
      assert r == GridTiles(grid, height, name, w);
      forall a, b | 0 <= a < b < |r|
        ensures Before(r[a], r[b])
      {
        if b < |pre| {
          assert r[a] == pre[a] && r[b] == pre[b];
        } else if a < |pre| {
          assert r[a] == pre[a] && r[b] == col[b - |pre|];
        } else {
          assert r[a] == col[a - |pre|] && r[b] == col[b - |pre|];
        }
      }
    }
  }

  /** identify_and_store_noc_router_tile_positions: scan the grid column by column
      and record every cell that is the bottom-left cell of a router tile. */
  method IdentifyRouterTiles(grid: seq<seq<GridCell>>, height: nat, name: string) returns (tiles: seq<RouterTilePosition>)
    requires Rectangular(grid, height)
    ensures tiles == GridTiles(grid, height, name, |grid|)
  {
    tiles := [];
    for i := 0 to |grid|
      invariant tiles == GridTiles(grid, height, name, i)
    {
      ghost var pre := tiles;
      for j := 0 to height
        invariant tiles == pre + ColumnTiles(grid, height, name, i, j)
      {
        var cell := grid[i][j];
        if cell.typeName == name && cell.widthOffset == 0 && cell.heightOffset == 0 {
          tiles := tiles + [TileAt(cell, i, j)];
        }
      }
    }
  }

  /** The square of the distance between a router tile's centre and a declared
      router's position. The source compares square roots of these values; the
      square root is increasing, so comparisons and ties come out the same. */
  function Dist(t: RouterTilePosition, lr: LogicalRouter): real
  {
    (t.centroidX - lr.x) * (t.centroidX - lr.x) + (t.centroidY - lr.y) * (t.centroidY - lr.y)
  }

  /** The first of tiles[0..n) nearest to the router. */
  function ClosestOf(tiles: seq<RouterTilePosition>, lr: LogicalRouter, n: nat): (c: nat)
    requires 0 < n <= |tiles|
    ensures c < n
  {
    if n == 1 then 0
    else
      var c := ClosestOf(tiles, lr, n - 1);
      if Dist(tiles[n - 1], lr) < Dist(tiles[c], lr) then n - 1 else c
  }

  /** The tile ClosestOf picks is at minimal distance from the router and strictly
      nearer than every earlier tile: the first minimum wins. */
  lemma {:induction false} ClosestOfNearest(tiles: seq<RouterTilePosition>, lr: LogicalRouter, n: nat)
    requires 0 < n <= |tiles|
    ensures forall k :: 0 <= k < n ==> Dist(tiles[ClosestOf(tiles, lr, n)], lr) <= Dist(tiles[k], lr)
    ensures forall k :: 0 <= k < ClosestOf(tiles, lr, n) ==> Dist(tiles[ClosestOf(tiles, lr, n)], lr) < Dist(tiles[k], lr)
  {
    if n > 1 {
      ClosestOfNearest(tiles, lr, n - 1);
    }
  }

  /** Another tile is exactly as near to the router as the nearest one. */
  predicate Tied(tiles: seq<RouterTilePosition>, lr: LogicalRouter)
    requires |tiles| > 0
  {
    var c := ClosestOf(tiles, lr, |tiles|);
    exists k :: 0 <= k < |tiles| && k != c && Dist(tiles[k], lr) == Dist(tiles[c], lr)
  }

  const InvalidTileIndex: int := -1

  /** The inner loop of create_noc_routers: the nearest tile, and the last pair of
      equally near tiles seen. The router is rejected when the first of that pair is
      still the nearest tile once the scan is over; that happens exactly when the
      minimum distance is reached twice. Distances are compared for exact equality
      where the source allows a relative tolerance. */
  method NearestRouterTile(tiles: seq<RouterTilePosition>, lr: LogicalRouter) returns (closest: nat, tie1: int, tie2: int)
    requires |tiles| > 0
    ensures closest == ClosestOf(tiles, lr, |tiles|)
    ensures tie1 == closest <==> Tied(tiles, lr)
  {
    var found := false;
    var shortest: real := 0.0;
    closest, tie1, tie2 := 0, InvalidTileIndex, InvalidTileIndex;
    for k := 0 to |tiles|
      invariant found <==> k > 0
      invariant k > 0 ==> closest == ClosestOf(tiles, lr, k) && shortest == Dist(tiles[closest], lr)
      invariant tie1 <= closest && (k == 0 ==> closest == 0 && tie1 == InvalidTileIndex)
      invariant k > 0 ==> (tie1 == closest <==> exists m :: closest < m < k && Dist(tiles[m], lr) == shortest)
    {
      var d := Dist(tiles[k], lr);
      if found && d == shortest {
        tie1, tie2 := closest, k;
      } else if !found || d < shortest {
        shortest, closest, found := d, k, true;
      }
    }
    assert tie1 == closest <==> Tied(tiles, lr) by {
      ClosestOfNearest(tiles, lr, |tiles|);
      if Tied(tiles, lr) {
        var m :| 0 <= m < |tiles| && m != closest && Dist(tiles[m], lr) == Dist(tiles[closest], lr);
        assert closest < m;
      }
    }
  }

  /** The value marking a router tile that no declared router has taken yet. */
  const NotAssigned: int := -1

  /** The outcome of create_noc_routers' placement: the tile chosen for each declared
      router, in declaration order, and the tile-to-router-id assignment vector. */
  datatype Placement = Placement(chosen: seq<nat>, assignments: seq<int>)

  predicate PlacementShape(p: Placement, numTiles: nat, numRouters: nat)
  {
    |p.chosen| == numRouters && |p.assignments| == numTiles
    && forall i :: 0 <= i < |p.chosen| ==> p.chosen[i] < numTiles
  }

  /** Place the declared routers one after the other: each takes its nearest tile,
      and the first router with a tie or whose nearest tile is already taken stops
      the placement with a fatal error. */
  function PlaceRouters(tiles: seq<RouterTilePosition>, routers: seq<LogicalRouter>): (r: Result<Placement, SetupError>)
    requires |tiles| > 0
    ensures r.Ok? ==> PlacementShape(r.value, |tiles|, |routers|)
  {
    if routers == [] then Ok(Placement([], seq(|tiles|, _ => NotAssigned)))
    else
      match PlaceRouters(tiles, routers[..|routers| - 1])
      case Err(e) => Err(e)
      case Ok(p) =>
        var lr := routers[|routers| - 1];
        var c := ClosestOf(tiles, lr, |tiles|);
        if Tied(tiles, lr) then Err(EquidistantTiles(lr.id))
        else if p.assignments[c] != NotAssigned then Err(TileAlreadyAssigned(lr.id))
        else Ok(Placement(p.chosen + [c], p.assignments[c := lr.id]))
  }

  /** Once the placement of a prefix fails, the placement of the whole list fails
      with the same error. */
  lemma {:induction false} PlaceRoutersPrefixErr(tiles: seq<RouterTilePosition>, routers: seq<LogicalRouter>, i: nat)
    requires |tiles| > 0 && i <= |routers| && PlaceRouters(tiles, routers[..i]).Err?
    ensures PlaceRouters(tiles, routers) == PlaceRouters(tiles, routers[..i])
    decreases |routers| - i
  {
    if i < |routers| {
      assert routers[..i + 1][..i] == routers[..i];
      PlaceRoutersPrefixErr(tiles, routers, i + 1);
    } else {
      assert routers[..i] == routers;
    }
  }

  /** No declared router uses the marker value as its id. */
  predicate IdsNotMarker(routers: seq<LogicalRouter>)
  {
    forall i :: 0 <= i < |routers| ==> routers[i].id != NotAssigned
  }

  /** Each router took its nearest tile, which no other tile matched. */
  predicate ChoseNearest(tiles: seq<RouterTilePosition>, routers: seq<LogicalRouter>, chosen: seq<nat>)
    requires |tiles| > 0 && |chosen| == |routers|
  {
    forall i :: 0 <= i < |routers| ==> chosen[i] == ClosestOf(tiles, routers[i], |tiles|) && !Tied(tiles, routers[i])
  }

  /** The assignment vector names each chosen tile's router. */
  predicate AssignsChosen(routers: seq<LogicalRouter>, p: Placement)
    requires |p.chosen| == |routers| && forall i :: 0 <= i < |p.chosen| ==> p.chosen[i] < |p.assignments|
  {
    forall i :: 0 <= i < |routers| ==> p.assignments[p.chosen[i]] == routers[i].id
  }

  /** Every tile no router chose is left free. */
  predicate OthersFree(p: Placement)
  {
    forall t :: 0 <= t < |p.assignments| && t !in p.chosen ==> p.assignments[t] == NotAssigned
  }

  /** What a successful placement means: each router took its nearest tile, which
      no other tile matched, no two routers share a tile, the assignment vector
      names each chosen tile's router and leaves every other tile free. */
  predicate PlacementMeans(tiles: seq<RouterTilePosition>, routers: seq<LogicalRouter>, p: Placement)
    requires |tiles| > 0 && PlacementShape(p, |tiles|, |routers|)
  {
    ChoseNearest(tiles, routers, p.chosen) && Distinct(p.chosen) && AssignsChosen(routers, p) && OthersFree(p)
  }

  /** No router has a tie and no two routers have the same nearest tile. */
  predicate Placeable(tiles: seq<RouterTilePosition>, routers: seq<LogicalRouter>)
    requires |tiles| > 0
  {
    && (forall i :: 0 <= i < |routers| ==> !Tied(tiles, routers[i]))
    && (forall i, j :: 0 <= i < j < |routers| ==>
          ClosestOf(tiles, routers[i], |tiles|) != ClosestOf(tiles, routers[j], |tiles|))
  }

  lemma ChoseNearestAppend(tiles: seq<RouterTilePosition>, routers: seq<LogicalRouter>, chosen: seq<nat>)
    requires |tiles| > 0 && |routers| > 0 && |chosen| == |routers| - 1
    requires ChoseNearest(tiles, routers[..|routers| - 1], chosen)
    requires !Tied(tiles, routers[|routers| - 1])
    ensures ChoseNearest(tiles, routers, chosen + [ClosestOf(tiles, routers[|routers| - 1], |tiles|)])
  {
    var n := |routers| - 1;
    var q := chosen + [ClosestOf(tiles, routers[n], |tiles|)];
    forall i | 0 <= i < |routers|
      ensures q[i] == ClosestOf(tiles, routers[i], |tiles|) && !Tied(tiles, routers[i])
    {
      if i < n {
        assert routers[..n][i] == routers[i];
      }
    }
  }

  lemma AssignsChosenAppend(routers: seq<LogicalRouter>, p: Placement, c: nat)
    requires |routers| > 0 && |p.chosen| == |routers| - 1 && c < |p.assignments| && c !in p.chosen
    requires forall i :: 0 <= i < |p.chosen| ==> p.chosen[i] < |p.assignments|
    requires AssignsChosen(routers[..|routers| - 1], p)
    ensures var q := Placement(p.chosen + [c], p.assignments[c := routers[|routers| - 1].id]);
            AssignsChosen(routers, q)
  {
    var n := |routers| - 1;
    var q := Placement(p.chosen + [c], p.assignments[c := routers[n].id]);
    forall i | 0 <= i < |routers|
      ensures q.assignments[q.chosen[i]] == routers[i].id
    {
      if i < n {
        assert routers[..n][i] == routers[i];
        assert q.chosen[i] == p.chosen[i] && p.chosen[i] in p.chosen;
      }
    }
  }

  lemma OthersFreeAppend(p: Placement, c: nat, id: int)
    requires c < |p.assignments| && OthersFree(p)
    ensures OthersFree(Placement(p.chosen + [c], p.assignments[c := id]))
  {
    var q := Placement(p.chosen + [c], p.assignments[c := id]);
    forall t | 0 <= t < |q.assignments| && t !in q.chosen
      ensures q.assignments[t] == NotAssigned
    {
      assert t !in p.chosen && t != c;
    }
  }

  lemma DistinctAppend(s: seq<nat>, c: nat)
    requires Distinct(s) && c !in s
    ensures Distinct(s + [c])
  {
    var q := s + [c];
    forall a, b | 0 <= a < b < |q|
      ensures q[a] != q[b]
    {
      assert q[a] == s[a] && s[a] in s;
    }
  }

  /** One more router placed on its free nearest tile keeps the placement meaningful. */
  lemma PlaceOneMore(tiles: seq<RouterTilePosition>, routers: seq<LogicalRouter>, p: Placement)
    requires |tiles| > 0 && |routers| > 0
    requires PlacementShape(p, |tiles|, |routers| - 1)
    requires PlacementMeans(tiles, routers[..|routers| - 1], p)
    requires !Tied(tiles, routers[|routers| - 1])
    requires ClosestOf(tiles, routers[|routers| - 1], |tiles|) !in p.chosen
    ensures var c := ClosestOf(tiles, routers[|routers| - 1], |tiles|);
            var q := Placement(p.chosen + [c], p.assignments[c := routers[|routers| - 1].id]);
            PlacementShape(q, |tiles|, |routers|) && PlacementMeans(tiles, routers, q)
  {
    var n := |routers| - 1;
    var c := ClosestOf(tiles, routers[n], |tiles|);
    ChoseNearestAppend(tiles, routers, p.chosen);
    AssignsChosenAppend(routers, p, c);
    OthersFreeAppend(p, c, routers[n].id);
    DistinctAppend(p.chosen, c);
  }

  /** In a meaningful placement, a tile's assignment is taken exactly when some
      placed router chose it. */
  lemma TakenIffChosen(tiles: seq<RouterTilePosition>, routers: seq<LogicalRouter>, p: Placement, c: nat)
    requires |tiles| > 0 && IdsNotMarker(routers) && c < |tiles|
    requires PlacementShape(p, |tiles|, |routers|) && PlacementMeans(tiles, routers, p)
    ensures p.assignments[c] != NotAssigned <==> c in p.chosen
  {
    if c in p.chosen {
      var i :| 0 <= i < |routers| && p.chosen[i] == c;
      assert p.assignments[c] == routers[i].id;
    }
  }

  /** A placement succeeds exactly when the routers are placeable, and then it means
      what PlacementMeans says; this holds when no router id equals the marker value. */
  lemma {:induction false} PlaceRoutersCorrect(tiles: seq<RouterTilePosition>, routers: seq<LogicalRouter>)
    requires |tiles| > 0 && IdsNotMarker(routers)
    ensures PlaceRouters(tiles, routers).Ok? <==> Placeable(tiles, routers)
    ensures PlaceRouters(tiles, routers).Ok? ==> PlacementMeans(tiles, routers, PlaceRouters(tiles, routers).value)
  {
    if routers != [] {
      var n := |routers| - 1;
      var pre := routers[..n];
      assert forall i :: 0 <= i < n ==> pre[i] == routers[i];
      PlaceRoutersCorrect(tiles, pre);
      var c := ClosestOf(tiles, routers[n], |tiles|);
      assert Placeable(tiles, routers) ==> Placeable(tiles, pre);
      match PlaceRouters(tiles, pre)
      case Err(e) => {}
      case Ok(p) => {
        TakenIffChosen(tiles, pre, p, c);
        if !Tied(tiles, routers[n]) && c !in p.chosen {
          PlaceOneMore(tiles, routers, p);
          assert Placeable(tiles, routers) by {
            forall i, j | 0 <= i < j < |routers|
              ensures ClosestOf(tiles, routers[i], |tiles|) != ClosestOf(tiles, routers[j], |tiles|)
            {
              if j == n {
                assert p.chosen[i] in p.chosen;
              }
            }
          }
        } else if c in p.chosen {
          var i :| 0 <= i < n && p.chosen[i] == c;
          assert ClosestOf(tiles, routers[i], |tiles|) == c;
        }
      }
    }
  }

  /** The routers create_noc_routers adds, in declaration order, each at the grid
      position of its chosen tile. */
  function RoutersAt(routers: seq<LogicalRouter>, tiles: seq<RouterTilePosition>, chosen: seq<nat>): (rs: seq<NocRouter>)
    requires |chosen| == |routers| && forall i :: 0 <= i < |chosen| ==> chosen[i] < |tiles|
  {
    seq(|routers|, i requires 0 <= i < |routers| =>
      NocRouter(routers[i].id, tiles[chosen[i]].gridX, tiles[chosen[i]].gridY))
  }

  /** The storage after add_router was called for each router in turn. */
  function AddRouters(v: NocView, rs: seq<NocRouter>): NocView
  {
    if rs == [] then v
    else
      var last := rs[|rs| - 1];
      WithRouter(AddRouters(v, rs[..|rs| - 1]), last.userId, last.gridX, last.gridY)
  }

  /** Adding routers one by one appends them to the router list, leaves the links
      alone and keeps the storage consistent. */
  lemma {:induction false} AddRoutersFacts(v: NocView, rs: seq<NocRouter>)
    requires ViewValid(v)
    ensures AddRouters(v, rs).routers == v.routers + rs
    ensures AddRouters(v, rs).links == v.links
    ensures ViewValid(AddRouters(v, rs))
    ensures forall id :: id in AddRouters(v, rs).idTable <==>
              id in v.idTable || exists i :: 0 <= i < |rs| && rs[i].userId == id
  {
    if rs != [] {
      var pre := rs[..|rs| - 1];
      var last := rs[|rs| - 1];
      AddRoutersFacts(v, pre);
      WithRouterValid(AddRouters(v, pre), last.userId, last.gridX, last.gridY);
      assert rs == pre + [last];
      forall id | exists i :: 0 <= i < |rs| && rs[i].userId == id
        ensures id in AddRouters(v, rs).idTable
      {
        var i :| 0 <= i < |rs| && rs[i].userId == id;
        if i < |pre| {
          assert pre[i].userId == id;
        }
      }
    }
  }

  /** Placing one more router after a successful prefix: a tie or a taken nearest
      tile fails the whole placement, a free nearest tile extends it. */
  lemma PlaceRoutersStep(tiles: seq<RouterTilePosition>, routers: seq<LogicalRouter>, i: nat, p: Placement)
    requires |tiles| > 0 && i < |routers| && PlaceRouters(tiles, routers[..i]) == Ok(p)
    ensures var lr := routers[i];
            var c := ClosestOf(tiles, lr, |tiles|);
            && (Tied(tiles, lr) ==> PlaceRouters(tiles, routers) == Err(EquidistantTiles(lr.id)))
            && (!Tied(tiles, lr) && p.assignments[c] != NotAssigned ==>
                  PlaceRouters(tiles, routers) == Err(TileAlreadyAssigned(lr.id)))
            && (!Tied(tiles, lr) && p.assignments[c] == NotAssigned ==>
                  PlaceRouters(tiles, routers[..i + 1]) == Ok(Placement(p.chosen + [c], p.assignments[c := lr.id])))
  {
    assert routers[..i + 1][..i] == routers[..i] && routers[..i + 1][i] == routers[i];
    if PlaceRouters(tiles, routers[..i + 1]).Err? {
      PlaceRoutersPrefixErr(tiles, routers, i + 1);
    }
  }

  /** Adding the routers of one more placed router appends one router to the list
      RoutersAt builds. */
  lemma RoutersAtStep(routers: seq<LogicalRouter>, tiles: seq<RouterTilePosition>, chosen: seq<nat>, i: nat, c: nat)
    requires i < |routers| && |chosen| == i && c < |tiles|
    requires forall k :: 0 <= k < |chosen| ==> chosen[k] < |tiles|
    ensures RoutersAt(routers[..i + 1], tiles, chosen + [c])
              == RoutersAt(routers[..i], tiles, chosen) + [NocRouter(routers[i].id, tiles[c].gridX, tiles[c].gridY)]
  {
    var a := RoutersAt(routers[..i + 1], tiles, chosen + [c]);
    var b := RoutersAt(routers[..i], tiles, chosen) + [NocRouter(routers[i].id, tiles[c].gridX, tiles[c].gridY)];
    forall k | 0 <= k < i + 1 ensures a[k] == b[k] {
      if k < i {
        assert routers[..i + 1][k] == routers[..i][k];
      }
    }
  }

  lemma AddRoutersAppend(v: NocView, rs: seq<NocRouter>, x: NocRouter)
    ensures AddRouters(v, rs + [x]) == WithRouter(AddRouters(v, rs), x.userId, x.gridX, x.gridY)
  {
    assert (rs + [x])[..|rs|] == rs;
  }

  /** create_noc_routers: place each declared router on its nearest router tile and
      add it to the storage, stopping with a fatal error on a tie or on a tile that
      is already taken. */
  method CreateNocRouters(routers: seq<LogicalRouter>, tiles: seq<RouterTilePosition>, noc: NocStorage)
    returns (r: Result<(), SetupError>)
    requires |tiles| > 0 && noc.Valid()
    modifies noc
    ensures noc.Valid() && noc.built == old(noc.built)
    ensures r.Ok? <==> PlaceRouters(tiles, routers).Ok?
    ensures r.Err? ==> r.error == PlaceRouters(tiles, routers).error
    ensures r.Ok? ==> noc.View() == AddRouters(old(noc.View()), RoutersAt(routers, tiles, PlaceRouters(tiles, routers).value.chosen))
  {
    var assignments := new int[|tiles|](_ => NotAssigned);
    ghost var chosen: seq<nat> := [];
    ghost var v0 := noc.View();
    assert routers[..0] == [];
    assert assignments[..] == seq(|tiles|, _ => NotAssigned);
    for i := 0 to |routers|
      invariant noc.Valid() && noc.built == old(noc.built)
      invariant PlaceRouters(tiles, routers[..i]) == Ok(Placement(chosen, assignments[..]))
      invariant noc.View() == AddRouters(v0, RoutersAt(routers[..i], tiles, chosen))
    {
      var lr := routers[i];
      var c, tie1, tie2 := NearestRouterTile(tiles, lr);
      PlaceRoutersStep(tiles, routers, i, Placement(chosen, assignments[..]));
      if tie1 == c {
        return Err(EquidistantTiles(lr.id));
      }
      if assignments[c] != NotAssigned {
        return Err(TileAlreadyAssigned(lr.id));
      }
      RoutersAtStep(routers, tiles, chosen, i, c);
      AddRoutersAppend(v0, RoutersAt(routers[..i], tiles, chosen), NocRouter(lr.id, tiles[c].gridX, tiles[c].gridY));
      noc.AddRouter(lr.id, tiles[c].gridX, tiles[c].gridY);
      assignments[c] := lr.id;
      chosen := chosen + [c];
    }
    assert routers[..|routers|] == routers;
    return Ok(());
  }

  /** The links one router's connection list declares, from the router with dense
      index src; an id no router has is a fatal error. */
  function ConnectionLinks(v: NocView, src: RouterId, conns: seq<int>): (r: Result<seq<NocLink>, SetupError>)
    ensures r.Err? ==> r.error.UnknownRouterId?
  {
    if conns == [] then Ok([])
    else
      match ConnectionLinks(v, src, conns[..|conns| - 1])
      case Err(e) => Err(e)
      case Ok(ls) =>
        var id := conns[|conns| - 1];
        if id in v.idTable then Ok(ls + [NocLink(src, v.idTable[id])]) else Err(UnknownRouterId(id))
  }

  /** The links all declared routers' connection lists declare, router by router;
      a router or connection id no router has is a fatal error. */
  function DeclaredLinks(v: NocView, routers: seq<LogicalRouter>): (r: Result<seq<NocLink>, SetupError>)
    ensures r.Err? ==> r.error.UnknownRouterId?
  {
    if routers == [] then Ok([])
    else
      match DeclaredLinks(v, routers[..|routers| - 1])
      case Err(e) => Err(e)
      case Ok(ls) =>
        var lr := routers[|routers| - 1];
        if lr.id !in v.idTable then Err(UnknownRouterId(lr.id))
        else
          match ConnectionLinks(v, v.idTable[lr.id], lr.connections)
          case Err(e) => Err(e)
          case Ok(more) => Ok(ls + more)
  }

  lemma {:induction false} ConnectionLinksPrefixErr(v: NocView, src: RouterId, conns: seq<int>, j: nat)
    requires j <= |conns| && ConnectionLinks(v, src, conns[..j]).Err?
    ensures ConnectionLinks(v, src, conns) == ConnectionLinks(v, src, conns[..j])
    decreases |conns| - j
  {
    if j < |conns| {
      assert conns[..j + 1][..j] == conns[..j];
      ConnectionLinksPrefixErr(v, src, conns, j + 1);
    } else {
      assert conns[..j] == conns;
    }
  }

  lemma {:induction false} DeclaredLinksPrefixErr(v: NocView, routers: seq<LogicalRouter>, i: nat)
    requires i <= |routers| && DeclaredLinks(v, routers[..i]).Err?
    ensures DeclaredLinks(v, routers) == DeclaredLinks(v, routers[..i])
    decreases |routers| - i
  {
    if i < |routers| {
      assert routers[..i + 1][..i] == routers[..i];
      DeclaredLinksPrefixErr(v, routers, i + 1);
    } else {
      assert routers[..i] == routers;
    }
  }

  /** The storage with the given links appended. */
  function AddLinks(v: NocView, ls: seq<NocLink>): NocView
  {
    v.(links := v.links + ls)
  }

  /** One more connection id after a successful prefix of a connection list: a known
      id adds its link, an unknown one fails the whole list. */
  lemma ConnectionLinksStep(v: NocView, src: RouterId, conns: seq<int>, j: nat, more: seq<NocLink>)
    requires j < |conns| && ConnectionLinks(v, src, conns[..j]) == Ok(more)
    ensures conns[j] in v.idTable ==>
              ConnectionLinks(v, src, conns[..j + 1]) == Ok(more + [NocLink(src, v.idTable[conns[j]])])
    ensures conns[j] !in v.idTable ==> ConnectionLinks(v, src, conns) == Err(UnknownRouterId(conns[j]))
  {
    assert conns[..j + 1][..j] == conns[..j] && conns[..j + 1][j] == conns[j];
    if conns[j] !in v.idTable {
      ConnectionLinksPrefixErr(v, src, conns, j + 1);
    }
  }

  /** One more declared router after a successful prefix: an unknown router id or a
      failing connection list fails the whole declaration, a full connection list
      adds its links. */
  lemma DeclaredLinksStep(v: NocView, routers: seq<LogicalRouter>, i: nat, done: seq<NocLink>)
    requires i < |routers| && DeclaredLinks(v, routers[..i]) == Ok(done)
    ensures routers[i].id !in v.idTable ==> DeclaredLinks(v, routers) == Err(UnknownRouterId(routers[i].id))
    ensures routers[i].id in v.idTable ==>
              var conns := ConnectionLinks(v, v.idTable[routers[i].id], routers[i].connections);
              && (conns.Err? ==> DeclaredLinks(v, routers) == Err(conns.error))
              && (conns.Ok? ==> DeclaredLinks(v, routers[..i + 1]) == Ok(done + conns.value))
  {
    assert routers[..i + 1][..i] == routers[..i] && routers[..i + 1][i] == routers[i];
    if DeclaredLinks(v, routers[..i + 1]).Err? {
      DeclaredLinksPrefixErr(v, routers, i + 1);
    }
  }

  /** The links of a connection list depend on the storage only through its id table. */
  lemma {:induction false} ConnectionLinksIdTable(v: NocView, w: NocView, src: RouterId, conns: seq<int>)
    requires v.idTable == w.idTable
    ensures ConnectionLinks(v, src, conns) == ConnectionLinks(w, src, conns)
  {
    if conns != [] {
      ConnectionLinksIdTable(v, w, src, conns[..|conns| - 1]);
    }
  }

  /** The inner loop of create_noc_links: add a link from src to every router of one
      connection list. */
  method AddConnectionLinks(src: RouterId, conns: seq<int>, noc: NocStorage) returns (r: Result<(), SetupError>)
    requires noc.Valid() && src < |noc.routers|
    modifies noc
    ensures noc.Valid() && noc.built == old(noc.built)
    ensures r.Ok? <==> ConnectionLinks(old(noc.View()), src, conns).Ok?
    ensures r.Err? ==> r.error == ConnectionLinks(old(noc.View()), src, conns).error
    ensures r.Ok? ==> noc.View() == AddLinks(old(noc.View()), ConnectionLinks(old(noc.View()), src, conns).value)
  {
    ghost var v0 := noc.View();
    ghost var more: seq<NocLink> := [];
    assert conns[..0] == [];
    for j := 0 to |conns|
      invariant noc.Valid() && noc.built == old(noc.built)
      invariant ConnectionLinks(v0, src, conns[..j]) == Ok(more)
      invariant noc.View() == AddLinks(v0, more)
    {
      ConnectionLinksStep(v0, src, conns, j, more);
      var sink := noc.ConvertRouterId(conns[j]);
      if sink.None? {
        return Err(UnknownRouterId(conns[j]));
      }
      noc.AddLink(src, sink.value);
      more := more + [NocLink(src, sink.value)];
    }
    assert conns[..|conns|] == conns;
    return Ok(());
  }

  /** create_noc_links: for each declared router, add a link from it to every router
      in its connection list, translating user ids into dense indices. */
  method CreateNocLinks(routers: seq<LogicalRouter>, noc: NocStorage) returns (r: Result<(), SetupError>)
    requires noc.Valid()
    modifies noc
    ensures noc.Valid() && noc.built == old(noc.built)
    ensures r.Ok? <==> DeclaredLinks(old(noc.View()), routers).Ok?
    ensures r.Err? ==> r.error == DeclaredLinks(old(noc.View()), routers).error
    ensures r.Ok? ==> noc.View() == AddLinks(old(noc.View()), DeclaredLinks(old(noc.View()), routers).value)
  {
    ghost var v0 := noc.View();
    ghost var done: seq<NocLink> := [];
    assert routers[..0] == [];
    for i := 0 to |routers|
      invariant noc.Valid() && noc.built == old(noc.built)
      invariant DeclaredLinks(v0, routers[..i]) == Ok(done)
      invariant noc.View() == AddLinks(v0, done)
    {
      var lr := routers[i];
      DeclaredLinksStep(v0, routers, i, done);
      var src := noc.ConvertRouterId(lr.id);
      if src.None? {
        return Err(UnknownRouterId(lr.id));
      }
      ghost var before := noc.View();
      ConnectionLinksIdTable(before, v0, src.value, lr.connections);
      var added := AddConnectionLinks(src.value, lr.connections, noc);
      if added.Err? {
        return added;
      }
      done := done + ConnectionLinks(v0, src.value, lr.connections).value;
    }
    assert routers[..|routers|] == routers;
    return Ok(());
  }

  /** Every router id and every connection id names a router of the storage. */
  predicate AllIdsKnown(v: NocView, routers: seq<LogicalRouter>)
  {
    forall i :: 0 <= i < |routers| ==>
      routers[i].id in v.idTable
      && forall j :: 0 <= j < |routers[i].connections| ==> routers[i].connections[j] in v.idTable
  }

  /** The declared connections as (source id, sink id) pairs, router by router and in
      connection-list order within a router. */
  function DeclaredPairs(routers: seq<LogicalRouter>): seq<(int, int)>
  {
    if routers == [] then []
    else
      var lr := routers[|routers| - 1];
      DeclaredPairs(routers[..|routers| - 1]) + seq(|lr.connections|, j requires 0 <= j < |lr.connections| => (lr.id, lr.connections[j]))
  }

  /** Link k joins the routers whose user ids make up the k-th pair. */
  predicate LinksJoin(v: NocView, ls: seq<NocLink>, pairs: seq<(int, int)>)
  {
    |ls| == |pairs|
    && forall k :: 0 <= k < |ls| ==>
         ls[k].source < |v.routers| && ls[k].sink < |v.routers|
         && v.routers[ls[k].source].userId == pairs[k].0 && v.routers[ls[k].sink].userId == pairs[k].1
  }

  /** The links of one connection list are found exactly when every id in it is
      known, and then link j runs from src to the router named by the j-th id. */
  lemma {:induction false} ConnectionLinksCorrect(v: NocView, src: RouterId, conns: seq<int>)
    requires ViewValid(v)
    ensures ConnectionLinks(v, src, conns).Ok? <==> forall j :: 0 <= j < |conns| ==> conns[j] in v.idTable
    ensures ConnectionLinks(v, src, conns).Ok? ==>
              var ls := ConnectionLinks(v, src, conns).value;
              |ls| == |conns|
              && forall j :: 0 <= j < |ls| ==>
                   ls[j].source == src && ls[j].sink < |v.routers| && v.routers[ls[j].sink].userId == conns[j]
  {
    if conns != [] {
      var pre := conns[..|conns| - 1];
      ConnectionLinksCorrect(v, src, pre);
      assert forall j :: 0 <= j < |pre| ==> pre[j] == conns[j];
    }
  }

  /** The declared links are found exactly when every router and connection id is known. */
  lemma {:induction false} DeclaredLinksKnown(v: NocView, routers: seq<LogicalRouter>)
    requires ViewValid(v)
    ensures DeclaredLinks(v, routers).Ok? <==> AllIdsKnown(v, routers)
  {
    if routers != [] {
      var n := |routers| - 1;
      var pre := routers[..n];
      var lr := routers[n];
      assert forall i :: 0 <= i < n ==> pre[i] == routers[i];
      DeclaredLinksKnown(v, pre);
      assert AllIdsKnown(v, routers) ==> AllIdsKnown(v, pre);
      if lr.id in v.idTable {
        ConnectionLinksCorrect(v, v.idTable[lr.id], lr.connections);
      }
    }
  }

  /** Appending the links of one more router to links that join the earlier pairs
      gives links that join the pairs with that router's pairs appended. */
  lemma LinksJoinAppend(v: NocView, ls: seq<NocLink>, pairs: seq<(int, int)>, more: seq<NocLink>, lr: LogicalRouter, src: RouterId)
    requires LinksJoin(v, ls, pairs)
    requires src < |v.routers| && v.routers[src].userId == lr.id
    requires |more| == |lr.connections|
    requires forall j :: 0 <= j < |more| ==>
               more[j].source == src && more[j].sink < |v.routers| && v.routers[more[j].sink].userId == lr.connections[j]
    ensures LinksJoin(v, ls + more, pairs + seq(|lr.connections|, j requires 0 <= j < |lr.connections| => (lr.id, lr.connections[j])))
  {
    var all: seq<NocLink> := ls + more;
    var ps := pairs + seq(|lr.connections|, j requires 0 <= j < |lr.connections| => (lr.id, lr.connections[j]));
    forall k | 0 <= k < |all|
      ensures all[k].source < |v.routers| && all[k].sink < |v.routers|
      ensures v.routers[all[k].source].userId == ps[k].0 && v.routers[all[k].sink].userId == ps[k].1
    {
      if k < |ls| {
        assert all[k] == ls[k] && ps[k] == pairs[k];
      } else {
        assert all[k] == more[k - |ls|];
      }
    }
  }

  /** Found links join, one for one, the declared pairs of routers. */
  lemma {:induction false} DeclaredLinksJoin(v: NocView, routers: seq<LogicalRouter>)
    requires ViewValid(v) && DeclaredLinks(v, routers).Ok?
    ensures LinksJoin(v, DeclaredLinks(v, routers).value, DeclaredPairs(routers))
  {
    if routers != [] {
      var n := |routers| - 1;
      var pre := routers[..n];
      var lr := routers[n];
      DeclaredLinksJoin(v, pre);
      var src := v.idTable[lr.id];
      ConnectionLinksCorrect(v, src, lr.connections);
      LinksJoinAppend(v, DeclaredLinks(v, pre).value, DeclaredPairs(pre), ConnectionLinks(v, src, lr.connections).value, lr, src);
    }
  }

  /** The storage holding nothing, as clear_noc leaves it. */
  function EmptyView(): NocView
  {
    NocView([], [], map[])
  }

  /** generate_noc, as a value: the routers placed on their tiles, then the declared
      links, in an emptied storage. */
  function Generate(info: NocInfo, tiles: seq<RouterTilePosition>): Result<NocView, SetupError>
    requires |tiles| > 0
  {
    match PlaceRouters(tiles, info.routers)
    case Err(e) => Err(e)
    case Ok(p) =>
      var v := AddRouters(EmptyView(), RoutersAt(info.routers, tiles, p.chosen));
      match DeclaredLinks(v, info.routers)
      case Err(e) => Err(e)
      case Ok(ls) => Ok(AddLinks(v, ls))
  }

  /** generate_noc: empty the storage, add the routers, add the links, and mark the
      model as built. */
  method GenerateNoc(info: NocInfo, tiles: seq<RouterTilePosition>, noc: NocStorage) returns (r: Result<(), SetupError>)
    requires |tiles| > 0
    modifies noc
    ensures r.Ok? <==> Generate(info, tiles).Ok?
    ensures r.Err? ==> r.error == Generate(info, tiles).error
    ensures r.Ok? ==> noc.Valid() && noc.built && noc.View() == Generate(info, tiles).value
  {
    noc.Clear();
    assert noc.View() == EmptyView();
    r := CreateNocRouters(info.routers, tiles, noc);
    if r.Err? {
      return;
    }
    r := CreateNocLinks(info.routers, noc);
    if r.Err? {
      return;
    }
    noc.FinishBuilding();
  }

  /** setup_noc, as a value: the built storage and the copied parameters, or the
      first fatal error. The router count is checked against the tile count before
      the empty case. */
  function Setup(arch: Option<NocInfo>, grid: seq<seq<GridCell>>, height: nat): Result<(NocView, NocParams), SetupError>
    requires Rectangular(grid, height)
  {
    if arch.None? then Err(NoNocDescription)
    else
      var info := arch.value;
      var tiles := GridTiles(grid, height, info.routerTileName, |grid|);
      if |tiles| < |info.routers| then Err(MoreRoutersThanTiles)
      else if |tiles| > |info.routers| then Err(FewerRoutersThanTiles)
      else if |tiles| == 0 then Err(NoRouterTiles)
      else
        match Generate(info, tiles)
        case Err(e) => Err(e)
        case Ok(v) => Ok((v, NocParams(info.linkBandwidth, info.linkLatency, info.routerLatency)))
  }

  /** setup_noc stops before building anything exactly when the description is
      missing or the number of router tiles differs from the number of declared
      routers; it reports no router tiles only when no router is declared either. */
  lemma SetupCountChecks(arch: Option<NocInfo>, grid: seq<seq<GridCell>>, height: nat)
    requires Rectangular(grid, height)
    ensures Setup(arch, grid, height) == Err(NoNocDescription) <==> arch.None?
    ensures arch.Some? ==>
              var tiles := GridTiles(grid, height, arch.value.routerTileName, |grid|);
              && (Setup(arch, grid, height) == Err(MoreRoutersThanTiles) <==> |tiles| < |arch.value.routers|)
              && (Setup(arch, grid, height) == Err(FewerRoutersThanTiles) <==> |tiles| > |arch.value.routers|)
              && (Setup(arch, grid, height) == Err(NoRouterTiles) <==> |tiles| == 0 && arch.value.routers == [])
  {
    if arch.Some? {
      var tiles := GridTiles(grid, height, arch.value.routerTileName, |grid|);
      if |tiles| > 0 {
        PlacementErrors(tiles, arch.value.routers);
      }
    }
  }

  /** Placing the routers fails only on a tie or a tile taken twice. */
  lemma {:induction false} PlacementErrors(tiles: seq<RouterTilePosition>, routers: seq<LogicalRouter>)
    requires |tiles| > 0
    ensures PlaceRouters(tiles, routers).Err? ==>
              PlaceRouters(tiles, routers).error.EquidistantTiles? || PlaceRouters(tiles, routers).error.TileAlreadyAssigned?
  {
    if routers != [] {
      PlacementErrors(tiles, routers[..|routers| - 1]);
    }
  }

  /** setup_noc: find the router tiles, check their number against the declared
      routers, build the NoC model and copy the link and router parameters. */
  method SetupNoc(arch: Option<NocInfo>, grid: seq<seq<GridCell>>, height: nat, noc: NocStorage)
    returns (r: Result<NocParams, SetupError>)
    requires Rectangular(grid, height)
    modifies noc
    ensures r.Ok? <==> Setup(arch, grid, height).Ok?
    ensures r.Err? ==> r.error == Setup(arch, grid, height).error
    ensures r.Ok? ==> r.value == Setup(arch, grid, height).value.1
    ensures r.Ok? ==> noc.Valid() && noc.built && noc.View() == Setup(arch, grid, height).value.0
  {
    if arch.None? {
      return Err(NoNocDescription);
    }
    var info := arch.value;
    var tiles := IdentifyRouterTiles(grid, height, info.routerTileName);
    if |tiles| < |info.routers| {
      return Err(MoreRoutersThanTiles);
    } else if |tiles| > |info.routers| {
      return Err(FewerRoutersThanTiles);
    } else if |tiles| == 0 {
      return Err(NoRouterTiles);
    }
    var g := GenerateNoc(info, tiles, noc);
    if g.Err? {
      return Err(g.error);
    }
    return Ok(NocParams(info.linkBandwidth, info.linkLatency, info.routerLatency));
  }

  /** Every connection id names a declared router. */
  predicate ConnectionsDeclared(routers: seq<LogicalRouter>)
  {
    forall i, j :: 0 <= i < |routers| && 0 <= j < |routers[i].connections| ==>
      exists k :: 0 <= k < |routers| && routers[k].id == routers[i].connections[j]
  }

  /** The storage after the routers are placed knows exactly the declared router ids. */
  lemma PlacedIds(routers: seq<LogicalRouter>, tiles: seq<RouterTilePosition>, chosen: seq<nat>)
    requires |chosen| == |routers| && forall i :: 0 <= i < |chosen| ==> chosen[i] < |tiles|
    ensures forall id :: id in AddRouters(EmptyView(), RoutersAt(routers, tiles, chosen)).idTable <==>
                           exists k :: 0 <= k < |routers| && routers[k].id == id
  {
    var rs := RoutersAt(routers, tiles, chosen);
    var v := AddRouters(EmptyView(), rs);
    AddRoutersFacts(EmptyView(), rs);
    forall id | id in v.idTable
      ensures exists k :: 0 <= k < |routers| && routers[k].id == id
    {
      var k :| 0 <= k < |rs| && rs[k].userId == id;
      assert routers[k].id == id;
    }
    forall id | exists k :: 0 <= k < |routers| && routers[k].id == id
      ensures id in v.idTable
    {
      var k :| 0 <= k < |routers| && routers[k].id == id;
      assert rs[k].userId == id;
    }
  }

  /** generate_noc succeeds exactly when the routers are placeable and every
      connection names a declared router. */
  lemma GenerateSucceedsIff(info: NocInfo, tiles: seq<RouterTilePosition>)
    requires |tiles| > 0 && IdsNotMarker(info.routers)
    ensures Generate(info, tiles).Ok? <==> Placeable(tiles, info.routers) && ConnectionsDeclared(info.routers)
  {
    assert PlaceRouters(tiles, info.routers).Ok? <==> Placeable(tiles, info.routers) by {
      PlaceRoutersCorrect(tiles, info.routers);
    }
    if PlaceRouters(tiles, info.routers).Ok? {
      var p := PlaceRouters(tiles, info.routers).value;
      var v := AddRouters(EmptyView(), RoutersAt(info.routers, tiles, p.chosen));
      assert ViewValid(v) by {
        AddRoutersFacts(EmptyView(), RoutersAt(info.routers, tiles, p.chosen));
      }
      DeclaredLinksKnown(v, info.routers);
      PlacedIdsKnown(info.routers, tiles, p.chosen);
    }
  }

  /** Once the routers are placed, every id is known exactly when every connection
      names a declared router. */
  lemma PlacedIdsKnown(rs: seq<LogicalRouter>, tiles: seq<RouterTilePosition>, chosen: seq<nat>)
    requires |chosen| == |rs| && forall i :: 0 <= i < |chosen| ==> chosen[i] < |tiles|
    ensures AllIdsKnown(AddRouters(EmptyView(), RoutersAt(rs, tiles, chosen)), rs) <==> ConnectionsDeclared(rs)
  {
    var v := AddRouters(EmptyView(), RoutersAt(rs, tiles, chosen));
    PlacedIds(rs, tiles, chosen);
    forall i | 0 <= i < |rs| ensures rs[i].id in v.idTable {
      assert 0 <= i < |rs| && rs[i].id == rs[i].id;
    }
    if ConnectionsDeclared(rs) {
      forall i, j | 0 <= i < |rs| && 0 <= j < |rs[i].connections|
        ensures rs[i].connections[j] in v.idTable
      {
        assert exists k :: 0 <= k < |rs| && rs[k].id == rs[i].connections[j];
      }
    }
    if AllIdsKnown(v, rs) {
      forall i, j | 0 <= i < |rs| && 0 <= j < |rs[i].connections|
        ensures exists k :: 0 <= k < |rs| && rs[k].id == rs[i].connections[j]
      {
        var id := rs[i].connections[j];
        assert id in v.idTable;
        assert exists k :: 0 <= k < |rs| && rs[k].id == id;
      }
    }
  }

  /** The NoC is built exactly when there are as many router tiles as declared
      routers and at least one, no declared router has a tie for its nearest tile,
      no two declared routers share a nearest tile, and every connection names a
      declared router. */
  lemma SetupSucceedsIff(info: NocInfo, grid: seq<seq<GridCell>>, height: nat)
    requires Rectangular(grid, height) && IdsNotMarker(info.routers)
    ensures var tiles := GridTiles(grid, height, info.routerTileName, |grid|);
            Setup(Some(info), grid, height).Ok? <==>
              |tiles| == |info.routers| && |tiles| > 0 && Placeable(tiles, info.routers)
              && ConnectionsDeclared(info.routers)
  {
    var tiles := GridTiles(grid, height, info.routerTileName, |grid|);
    if |tiles| == |info.routers| && |tiles| > 0 {
      GenerateSucceedsIff(info, tiles);
    }
  }

  /** Every index list without repeats, of length n and drawn from [0, n), holds
      every index in [0, n). */
  lemma IndicesCoverRange(chosen: seq<nat>, n: nat)
    requires Distinct(chosen) && |chosen| == n && forall i :: 0 <= i < n ==> chosen[i] < n
    ensures forall t :: 0 <= t < n ==> t in chosen
  {
    var all: seq<nat> := seq(n, i requires 0 <= i < n => i);
    forall x | x in chosen ensures x in all {
      assert all[x] == x;
    }
    DistinctSameLengthIsPermutation(chosen, all);
    forall t | 0 <= t < n ensures t in chosen {
      assert all[t] == t;
      assert t in multiset(all);
    }
  }

  /** What generate_noc builds from tiles listed in grid order, one per declared
      router: the declared routers in declaration order, each at the grid position
      of its nearest tile, no two at the same position, every tile used. */
  predicate RoutersOnTiles(rs: seq<NocRouter>, routers: seq<LogicalRouter>, tiles: seq<RouterTilePosition>)
    requires |tiles| > 0
  {
    && |rs| == |routers| == |tiles|
    && (forall i :: 0 <= i < |rs| ==>
          var c := ClosestOf(tiles, routers[i], |tiles|);
          rs[i] == NocRouter(routers[i].id, tiles[c].gridX, tiles[c].gridY))
    && (forall i, j :: 0 <= i < j < |rs| ==> (rs[i].gridX, rs[i].gridY) != (rs[j].gridX, rs[j].gridY))
    && (forall t :: t in tiles ==> exists i :: 0 <= i < |rs| && rs[i].gridX == t.gridX && rs[i].gridY == t.gridY)
  }

  /** Distinct tiles of a grid-ordered list sit at distinct grid positions. */
  lemma ChosenPositionsDistinct(tiles: seq<RouterTilePosition>, chosen: seq<nat>)
    requires InGridOrder(tiles) && Distinct(chosen) && forall i :: 0 <= i < |chosen| ==> chosen[i] < |tiles|
    ensures forall i, j :: 0 <= i < j < |chosen| ==>
              (tiles[chosen[i]].gridX, tiles[chosen[i]].gridY) != (tiles[chosen[j]].gridX, tiles[chosen[j]].gridY)
  {
    forall i, j | 0 <= i < j < |chosen|
      ensures (tiles[chosen[i]].gridX, tiles[chosen[i]].gridY) != (tiles[chosen[j]].gridX, tiles[chosen[j]].gridY)
    {
      var a, b := chosen[i], chosen[j];
      if a < b {
        assert Before(tiles[a], tiles[b]);
      } else {
        assert Before(tiles[b], tiles[a]);
      }
    }
  }

  /** As many distinct chosen tiles as there are tiles use every tile. */
  lemma ChosenCoverTiles(tiles: seq<RouterTilePosition>, chosen: seq<nat>)
    requires Distinct(chosen) && |chosen| == |tiles| && forall i :: 0 <= i < |chosen| ==> chosen[i] < |tiles|
    ensures forall t :: t in tiles ==> exists i :: 0 <= i < |chosen| && tiles[chosen[i]] == t
  {
    IndicesCoverRange(chosen, |tiles|);
    forall t | t in tiles
      ensures exists i :: 0 <= i < |chosen| && tiles[chosen[i]] == t
    {
      var c :| 0 <= c < |tiles| && tiles[c] == t;
      assert c in chosen;
      var i :| 0 <= i < |chosen| && chosen[i] == c;
      assert tiles[chosen[i]] == t;
    }
  }

  /** A successful placement of as many routers as tiles puts the routers on the
      tiles as RoutersOnTiles says. */
  lemma PlacementOnTiles(routers: seq<LogicalRouter>, tiles: seq<RouterTilePosition>, p: Placement)
    requires |tiles| > 0 && |tiles| == |routers| && InGridOrder(tiles)
    requires PlacementShape(p, |tiles|, |routers|) && PlacementMeans(tiles, routers, p)
    ensures RoutersOnTiles(RoutersAt(routers, tiles, p.chosen), routers, tiles)
  {
    var rs := RoutersAt(routers, tiles, p.chosen);
    ChosenPositionsDistinct(tiles, p.chosen);
    ChosenCoverTiles(tiles, p.chosen);
    forall t | t in tiles
      ensures exists i :: 0 <= i < |rs| && rs[i].gridX == t.gridX && rs[i].gridY == t.gridY
    {
      var i :| 0 <= i < |p.chosen| && tiles[p.chosen[i]] == t;
      assert rs[i].gridX == t.gridX && rs[i].gridY == t.gridY;
    }
  }

  /** generate_noc's routers are the placed routers, and the storage is consistent. */
  lemma GenerateRouters(info: NocInfo, tiles: seq<RouterTilePosition>)
    requires |tiles| > 0 && Generate(info, tiles).Ok?
    ensures var p := PlaceRouters(tiles, info.routers).value;
            && Generate(info, tiles).value.routers == RoutersAt(info.routers, tiles, p.chosen)
            && ViewValid(Generate(info, tiles).value)
  {
    var p := PlaceRouters(tiles, info.routers).value;
    var rs := RoutersAt(info.routers, tiles, p.chosen);
    var v0 := AddRouters(EmptyView(), rs);
    AddRoutersFacts(EmptyView(), rs);
    DeclaredLinksJoin(v0, info.routers);
    assert Generate(info, tiles).value == AddLinks(v0, DeclaredLinks(v0, info.routers).value);
  }

  /** A built NoC holds the declared routers in declaration order, each at the grid
      position of its nearest router tile; no two routers sit at the same position,
      and every router tile of the device holds one of them. */
  lemma SetupRouters(info: NocInfo, grid: seq<seq<GridCell>>, height: nat)
    requires Rectangular(grid, height) && IdsNotMarker(info.routers)
    requires Setup(Some(info), grid, height).Ok?
    ensures ViewValid(Setup(Some(info), grid, height).value.0)
    ensures RoutersOnTiles(Setup(Some(info), grid, height).value.0.routers, info.routers,
                           GridTiles(grid, height, info.routerTileName, |grid|))
  {
    var tiles := GridTiles(grid, height, info.routerTileName, |grid|);
    GridTilesOrdered(grid, height, info.routerTileName, |grid|);
    var p := PlaceRouters(tiles, info.routers).value;
    assert PlacementMeans(tiles, info.routers, p) by {
      PlaceRoutersCorrect(tiles, info.routers);
    }
    GenerateRouters(info, tiles);
    PlacementOnTiles(info.routers, tiles, p);
  }

  /** generate_noc adds one link per declared connection, in declaration order,
      each joining the routers the connection names. */
  lemma GenerateLinks(info: NocInfo, tiles: seq<RouterTilePosition>)
    requires |tiles| > 0 && Generate(info, tiles).Ok?
    ensures LinksJoin(Generate(info, tiles).value, Generate(info, tiles).value.links, DeclaredPairs(info.routers))
  {
    var p := PlaceRouters(tiles, info.routers).value;
    var rs := RoutersAt(info.routers, tiles, p.chosen);
    var v0 := AddRouters(EmptyView(), rs);
    assert ViewValid(v0) && v0.links == [] by {
      AddRoutersFacts(EmptyView(), rs);
    }
    DeclaredLinksJoin(v0, info.routers);
    var ls := DeclaredLinks(v0, info.routers).value;
    var v := AddLinks(v0, ls);
    assert Generate(info, tiles).value == v;
    assert v.links == ls && v.routers == v0.routers;
  }

  /** A built NoC holds one link per declared connection, in declaration order, each
      joining the routers the connection names; the link and router parameters are
      those of the description. */
  lemma SetupLinks(info: NocInfo, grid: seq<seq<GridCell>>, height: nat)
    requires Rectangular(grid, height) && Setup(Some(info), grid, height).Ok?
    ensures var (v, params) := Setup(Some(info), grid, height).value;
            && LinksJoin(v, v.links, DeclaredPairs(info.routers))
            && params == NocParams(info.linkBandwidth, info.linkLatency, info.routerLatency)
  {
    GenerateLinks(info, GridTiles(grid, height, info.routerTileName, |grid|));
  }
}
