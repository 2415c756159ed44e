# NoC setup, SAT routing extraction and tile pin numbering, in Dafny

This project models three pieces of the VPR/VTR FPGA CAD flow and proves properties of them.

1. **NoC topology construction** (`vpr/src/base/setup_noc.cpp`).
   - The device grid is scanned column by column for router tiles. Only each tile's origin cell is kept, together with its centroid.
   - The tile count is checked against the routers the architecture declares.
   - Each declared (logical) router is placed on its nearest tile. The build stops on a distance tie and on a tile chosen twice.
   - One directed link is created for every declared connection. User router ids are translated to dense ids through the NoC storage.
   - Files: `noc_storage.dfy` and `setup_noc.dfy`.
2. **The SAT routing formulation and its solution extraction** (`vpr/src/noc/sat_routing.cpp`).
   - The CP-SAT engine is not modelled. Each constraint family becomes a predicate over the values the engine reports for the (flow, link) booleans, the congestion indicators and the latency-overrun integers. These families are:
     - turn prohibition;
     - congestion indicators;
     - flow continuity;
     - geometric distance;
     - latency overrun.
   - The objective becomes an integer function.
   - `get_flow_link_vars` and `group_noc_links_based_on_direction` are modelled as the loops they are.
   - `sort_noc_links_in_chain_order`, `convert_vars_to_routes` and the driver `noc_sat_route` are modelled too. The sort is a map-building pass followed by a walk.
   - The main results are proved of any solution that satisfies the formulation and whose routes extract (`convert_vars_to_routes` sorts every flow's links without an error):
     - every extracted route is a simple chain from the flow's source router to its sink router;
     - it holds exactly the selected links;
     - it never takes an illegal turn;
     - its overrun variable measures it.
   - The formulation alone does not make extraction succeed. Under its continuity constraints the chain walk never loops (`RouteExtraction.WalkNeverTooLong`). The sort finds no start link exactly when a selected link enters the flow's source (`RouteExtraction.NoStartIffSourceEntered`). A selected cycle detached from the path fails the length assertion (`RouteExtraction.DetachedCycleFailsLength`).
   - Files: `sat_routing.dfy`, `chain_order.dfy` and `route_extraction.dfy`.
3. **Physical pin and class numbering** (`libs/libarchfpga/src/physical_types_util.cpp`).
   - A tile holds sub-tiles. Each sub-tile has a range of capacity instances, and each instance can host several logical block types.
   - Tile pins convert to and from (capacity location, pin in instance) pairs. `find_pin` and the two sub-tile index lookups are modelled as the loops they are.
   - The internal ("flat") numbering of pins and classes is modelled. It covers:
     - the counts and offsets;
     - decoding a number back to its sub-tile, instance, block and logical number;
     - filling the internal-pin table in place.
   - Pins and classes follow one numbering scheme, so `PinNumbering` states it once, over a `Kind`.
   - The proved properties are round trips in both directions, the error conditions, and the fact that the internal pin table lists the consecutive numbers `num_pins .. max_ptc - 1`.
   - Files: `physical_tile.dfy` and `pin_numbering.dfy`.

`common.dfy` holds `Option`, `Result` and a few sequence facts.

**Modelling choices.**
- Fatal errors and failed assertions of the source are `Err` values of a `Result`, one constructor per error.
- The global VPR context is passed in explicitly: the grid, the architecture's NoC description, the NoC storage, the flows and the solver's reported values.
- `NocStorage` is a class, because `setup_noc.cpp` builds it step by step. Its `add_router`, `add_link`, `convert_router_id`, `clear_noc` and `finished_building_noc` are modelled from how `setup_noc.cpp` uses them. The storage's own source file is not part of this model.
- `PHYSICAL_ROUTER_NOT_ASSIGNED` is taken to be -1; its definition (setup_noc.h) is not part of this model.

**What the objective's weights give.**
- The objective weighs one unit of latency overrun at 1024 (`vpr/src/noc/sat_routing.cpp:867`) and one congested link at 16384 (`vpr/src/noc/sat_routing.cpp:877`). One congested link therefore outweighs up to fifteen units of overrun, so overrun is not the dominant term.
- A congested link outweighs bandwidth savings only below 16384 rescaled units.
- `SatRouting.CongestionOutweighsOverrun` and `SatRouting.CongestionOutweighsBandwidth` state what these weights give.

## Model

| member | source | states |
|---|---|---|
| NocStorageModel.WithRouterValid | vpr/src/base/setup_noc.cpp:274-275 | Adding a router keeps the storage consistent for any user id: every router's id is in the id table, which names existing routers, and links join existing routers. |
| NocStorageModel.OutgoingLinks | vpr/src/noc/sat_routing.cpp:250 | A link is in router r's outgoing list iff it exists and its source is r; the list is in increasing link-id order. |
| NocStorageModel.IncomingLinks | vpr/src/noc/sat_routing.cpp:243 | A link is in router r's incoming list iff it exists and its sink is r; the list is in increasing link-id order. |
| NocStorageModel.NocStorage.constructor | vpr/src/base/setup_noc.cpp:149 | A fresh storage is consistent, empty and not built. |
| NocStorageModel.NocStorage.Clear | vpr/src/base/setup_noc.cpp:154 | clear_noc leaves a consistent storage with no routers, links or ids, not marked built. |
| NocStorageModel.NocStorage.AddRouter | vpr/src/base/setup_noc.cpp:274-275 | The router is appended; its dense index is entered for its user id unless that id is already taken; consistency is kept. |
| NocStorageModel.NocStorage.ConvertRouterId | vpr/src/base/setup_noc.cpp:311-316 | A found dense index names a router with that user id; None means no router carries the id. |
| NocStorageModel.NocStorage.AddLink | vpr/src/base/setup_noc.cpp:319 | The link between two existing routers is appended and consistency is kept. |
| NocStorageModel.NocStorage.FinishBuilding | vpr/src/base/setup_noc.cpp:163 | The storage is marked built; routers, links and ids are unchanged. |
| SetupNoc.ColumnTilesMembers | vpr/src/base/setup_noc.cpp:108-128 | In one column, a position is recorded iff its cell has the router tile name and zero width and height offsets, with centroid ((w-1)/2+i, (h-1)/2+j). |
| SetupNoc.ColumnTilesOrdered | vpr/src/base/setup_noc.cpp:108-128 | The tiles recorded in one column lie in that column, below the scanned height, with rows increasing. |
| SetupNoc.GridTilesMembers | vpr/src/base/setup_noc.cpp:107-129 | Over the whole grid, exactly the router-tile origin cells are recorded, each with its grid position and centroid. |
| SetupNoc.GridTilesColumns | vpr/src/base/setup_noc.cpp:107-129 | Every tile recorded while scanning the first w columns lies in one of those columns. |
| SetupNoc.GridTilesOrdered | vpr/src/base/setup_noc.cpp:107-129 | Recorded tiles are in column-major, row-minor order, so no position is recorded twice. |
| SetupNoc.IdentifyRouterTiles | vpr/src/base/setup_noc.cpp:93-132 | The nested grid loop returns exactly the tile list described by GridTiles. |
| SetupNoc.ClosestOfNearest | vpr/src/base/setup_noc.cpp:232-255 | The chosen tile is at minimal distance from the logical router and strictly closer than every earlier tile: the first minimum wins. |
| SetupNoc.NearestRouterTile | vpr/src/base/setup_noc.cpp:213-263 | The inner loop returns the first closest tile, and its first tie index equals that tile exactly when another tile is at the same minimal distance (the tie that aborts). |
| SetupNoc.PlaceRouters | vpr/src/base/setup_noc.cpp:213-279 | A successful placement chooses one tile index per declared router and records assignments for every tile. |
| SetupNoc.PlaceRoutersPrefixErr | vpr/src/base/setup_noc.cpp:258-270 | Once a prefix of the router list fails, the whole placement fails with the same error: the loop stops at the first fatal error. |
| SetupNoc.PlaceOneMore | vpr/src/base/setup_noc.cpp:266-278 | Placing one more untied router on a free tile keeps the placement's meaning: tiles are chosen injectively and each chosen tile records the router's id. |
| SetupNoc.TakenIffChosen | vpr/src/base/setup_noc.cpp:266 | With no router using the marker id, a tile's assignment differs from the marker iff some router chose it. |
| SetupNoc.PlaceRoutersCorrect | vpr/src/base/setup_noc.cpp:213-279 | Placement succeeds iff no router's nearest tile is tied and no two routers share a nearest tile; on success every router sits on its nearest tile, injectively, with its id recorded there. |
| SetupNoc.PlacementErrors | vpr/src/base/setup_noc.cpp:258-270 | Placement fails only with the tie error or the already-assigned error. |
| SetupNoc.AddRoutersFacts | vpr/src/base/setup_noc.cpp:274-275 | Adding the placed routers appends them in order, leaves links alone, keeps the storage consistent and makes exactly their ids known. |
| SetupNoc.CreateNocRouters | vpr/src/base/setup_noc.cpp:183-282 | create_noc_routers fails iff the placement fails, with its error; on success the storage gained one router per declared router, in order, at the chosen tile's grid position. |
| SetupNoc.ConnectionLinks | vpr/src/base/setup_noc.cpp:314-321 | Translating a router's connection list fails only on an unknown user id. |
| SetupNoc.DeclaredLinks | vpr/src/base/setup_noc.cpp:309-322 | Translating every declared connection fails only on an unknown user id. |
| SetupNoc.ConnectionLinksPrefixErr | vpr/src/base/setup_noc.cpp:314-321 | The first unknown id in a connection list decides the error. |
| SetupNoc.DeclaredLinksPrefixErr | vpr/src/base/setup_noc.cpp:309-322 | The first router with an unknown id decides the error. |
| SetupNoc.CreateNocLinks | vpr/src/base/setup_noc.cpp:295-325 | create_noc_links fails iff some id is unknown, with that error; on success exactly the translated links are appended, in declaration order. |
| SetupNoc.AddConnectionLinks | vpr/src/base/setup_noc.cpp:314-321 | The loop over one router's connection list fails iff some connected id is unknown, with that error; on success the storage holds exactly the links from the source to each connected router appended, in list order. |
| SetupNoc.ConnectionLinksCorrect | vpr/src/base/setup_noc.cpp:314-321 | One link per connection entry, from the given router to the router carrying the entry's user id; it succeeds iff every entry is a known id. |
| SetupNoc.DeclaredLinksKnown | vpr/src/base/setup_noc.cpp:309-322 | Link creation succeeds iff every router id and every connection id is known. |
| SetupNoc.LinksJoinAppend | vpr/src/base/setup_noc.cpp:314-321 | Appending one router's links to links that match a list of declared (from, to) id pairs matches the extended list. |
| SetupNoc.DeclaredLinksJoin | vpr/src/base/setup_noc.cpp:309-322 | The created links correspond one to one, in order, to the declared (router, connection) pairs, both ends translated; their count is the total number of connections. |
| SetupNoc.GenerateNoc | vpr/src/base/setup_noc.cpp:147-166 | generate_noc clears the storage, adds routers then links, and marks it built; it fails exactly as the router or link step does. |
| SetupNoc.SetupCountChecks | vpr/src/base/setup_noc.cpp:45-62 | Setup stops with the missing-description error iff there is none; with too few tiles iff tiles < routers; with too many iff tiles > routers; with no tiles iff none are found and no router is declared. |
| SetupNoc.SetupNoc | vpr/src/base/setup_noc.cpp:35-78 | setup_noc fails exactly as the model Setup does; on success the storage is built with Setup's view and the returned parameters are Setup's. |
| SetupNoc.PlacedIds | vpr/src/base/setup_noc.cpp:274-275 | After the routers are added, a user id is known iff some declared router has it. |
| SetupNoc.GenerateSucceedsIff | vpr/src/base/setup_noc.cpp:147-166 | generate_noc succeeds iff the placement conditions hold and every connection names a declared router. |
| SetupNoc.PlacedIdsKnown | vpr/src/base/setup_noc.cpp:309-322 | Every id used by the links is known iff every connection names a declared router. |
| SetupNoc.SetupSucceedsIff | vpr/src/base/setup_noc.cpp:35-78 | Setup succeeds iff the tile count equals the router count and is positive, the placement conditions hold and every connection names a declared router. |
| SetupNoc.IndicesCoverRange | vpr/src/base/setup_noc.cpp:266-278 | n distinct indices below n cover all of 0..n-1. |
| SetupNoc.ChosenPositionsDistinct | vpr/src/base/setup_noc.cpp:266-278 | Distinct chosen tiles have distinct grid positions. |
| SetupNoc.ChosenCoverTiles | vpr/src/base/setup_noc.cpp:266-278 | With as many routers as tiles, the chosen tiles cover every tile. |
| SetupNoc.PlacementOnTiles | vpr/src/base/setup_noc.cpp:266-278 | On success every router tile holds exactly one router and no two routers share a position. |
| SetupNoc.GenerateRouters | vpr/src/base/setup_noc.cpp:156-157 | The generated routers are the declared routers at their chosen tiles, and the view is consistent. |
| SetupNoc.SetupRouters | vpr/src/base/setup_noc.cpp:51-65 | After a successful setup, the routers occupy the recorded router tiles one to one and the storage is consistent. |
| SetupNoc.GenerateLinks | vpr/src/base/setup_noc.cpp:159-160 | The generated links correspond one to one, in order, to the declared connections. |
| SetupNoc.SetupLinks | vpr/src/base/setup_noc.cpp:64-70 | After a successful setup the links match the declared connections, and link bandwidth, link latency and router latency are copied unchanged. |
| SatRouting.GetFlowLinkVars | vpr/src/noc/sat_routing.cpp:100-114 | The nested loop returns exactly the variables of FlowLinkVars, flow-major, skipping pairs with no variable. |
| SatRouting.FlowLinkVarsMembers | vpr/src/noc/sat_routing.cpp:100-114 | A pair is returned iff its flow and link were asked for and the container has a variable for it. |
| SatRouting.VarsOfFlowMembers | vpr/src/noc/sat_routing.cpp:104-111 | For one flow: a pair is returned iff it has that flow, an asked-for link and a variable. |
| SatRouting.VarsOfFlowDense | vpr/src/noc/sat_routing.cpp:447-451 | When every (flow, link) pair has a variable, the result is the flow paired with each link, in order. |
| SatRouting.SumOfFlowVars | vpr/src/noc/sat_routing.cpp:216-217 | Summing one flow's returned variables counts its selected links among those asked for. |
| SatRouting.SumVarsOfFlow | vpr/src/noc/sat_routing.cpp:104-111 | The sum of one flow's variables equals its count of selected links. |
| SatRouting.CountSelZero | vpr/src/noc/sat_routing.cpp:244-245 | The count is zero iff none of the links is selected for the flow. |
| SatRouting.AllLinks | vpr/src/noc/sat_routing.cpp:482-483 | The list of all link ids is 0..n-1 in order. |
| SatRouting.CongestionDetermined | vpr/src/noc/sat_routing.cpp:179-203 | The two half-reified constraints hold iff each link's indicator is true exactly when its rescaled load exceeds the resolution. |
| SatRouting.GroupedStep | vpr/src/noc/sat_routing.cpp:341-353 | Handling one more link appends it to the group of its direction and to no other. |
| SatRouting.GroupedPartition | vpr/src/noc/sat_routing.cpp:330-354 | A link is in a direction's group iff it is axis-aligned with that direction (same x and higher y is up, same x otherwise down, higher x right, otherwise left); groups keep link order. |
| SatRouting.GroupLinksByDirection | vpr/src/noc/sat_routing.cpp:323-355 | Grouping succeeds iff every link is axis-aligned, and then yields the groups above; otherwise it reports a link that is not axis-aligned (the assertion). |
| SatRouting.GroupCount | vpr/src/noc/sat_routing.cpp:309-317 | A flow's selected links in a direction group are its selected links of that direction. |
| SatRouting.DistanceByDirection | vpr/src/noc/sat_routing.cpp:305-319 | The distance constraints hold iff right minus left selected links is dx and up minus down is dy. |
| SatRouting.OverrunSatisfiable | vpr/src/noc/sat_routing.cpp:479-494 | An overrun value in [0, 20] equal to max(selected links - n_max, 0) exists iff the flow exceeds its hop budget by at most 20 links. |
| SatRouting.CongestionOutweighsOverrun | vpr/src/noc/sat_routing.cpp:862-879 | With equal routed bandwidth, one congested link fewer lowers the objective even against up to 15 more units of overrun. |
| SatRouting.CongestionOutweighsBandwidth | vpr/src/noc/sat_routing.cpp:862-879 | With equal overrun, one congested link fewer lowers the objective unless routed bandwidth grows by 16384 or more. |
| ChainOrder.SourceMap | vpr/src/noc/sat_routing.cpp:366-373 | The source map names only known links. |
| ChainOrder.SourceMapFacts | vpr/src/noc/sat_routing.cpp:368-373 | Every input link's source is mapped, and each mapped link is an input link leaving that router. |
| ChainOrder.SinksFacts | vpr/src/noc/sat_routing.cpp:368-373 | A router is marked as a destination iff some input link enters it. |
| ChainOrder.FirstStart | vpr/src/noc/sat_routing.cpp:376-382 | The start is the first input link whose source no input link enters; None iff there is no such link. |
| ChainOrder.SortInChainOrder | vpr/src/noc/sat_routing.cpp:357-399 | The map-building pass, start search and walk compute ChainSort: empty input gives empty output, no start or a wrong length is an error. |
| ChainOrder.WalkChain | vpr/src/noc/sat_routing.cpp:384-396 | The walk loop produces the bounded walk from the start, or the too-long or length-mismatch error. |
| ChainOrder.FollowShape | vpr/src/noc/sat_routing.cpp:386-394 | The walk starts at the start link, each next link is the map's link at the previous sink, and it stops early only at a sink with no continuation. |
| ChainOrder.FollowNoRepeat | vpr/src/noc/sat_routing.cpp:386-394 | A walk that stops by itself visits no link twice. |
| ChainOrder.WalkInLinks | vpr/src/noc/sat_routing.cpp:384-394 | The walk uses only input links and each link starts where the previous one ends. |
| ChainOrder.WalkSimple | vpr/src/noc/sat_routing.cpp:384-394 | From a start no input link enters, a walk that stops by itself visits no router twice. |
| ChainOrder.FirstPassFacts | vpr/src/noc/sat_routing.cpp:365-373 | After the first pass, src_map and is_dst describe the input links. |
| ChainOrder.ChainSortSound | vpr/src/noc/sat_routing.cpp:357-399 | A successful sort returns as many links as given, all input links, forming a simple chain, a permutation of the input when its links are distinct. |
| ChainOrder.ChainSortEnds | vpr/src/noc/sat_routing.cpp:375-394 | The sorted chain starts at a router no input link enters and ends at a router no input link leaves. |
| ChainOrder.FollowAlong | vpr/src/noc/sat_routing.cpp:386-394 | On a chain whose links the map names, the walk from any link retraces the rest of the chain. |
| ChainOrder.SameLinks | vpr/src/noc/sat_routing.cpp:368 | Lists that are permutations of each other have the same length and members. |
| ChainOrder.SourceMapOnChain | vpr/src/noc/sat_routing.cpp:368-373 | For the links of a simple chain, in any order, the map sends each source to its chain link and the final sink is unmapped. |
| ChainOrder.StartOnChain | vpr/src/noc/sat_routing.cpp:376-382 | For the links of a simple chain, in any order, the start found is the chain's first link. |
| ChainOrder.ChainSortComplete | vpr/src/noc/sat_routing.cpp:357-399 | Any permutation of a non-empty simple chain sorts back to that chain. |
| RouteExtraction.SelectedLinks | vpr/src/noc/sat_routing.cpp:412-418 | A flow's collected links are exactly the links whose variable is true, in increasing id order. |
| RouteExtraction.SelectedLinksCount | vpr/src/noc/sat_routing.cpp:482-487 | The number of collected links is the overrun constraint's sum of the flow's variables. |
| RouteExtraction.CountAllLinks | vpr/src/noc/sat_routing.cpp:412-418 | The number of collected links is the flow's count of selected links over all links. |
| RouteExtraction.SortAllOk | vpr/src/noc/sat_routing.cpp:420-422 | Sorting all routes succeeds iff each flow's links sort, and then each output route is that flow's sorted route. |
| RouteExtraction.SortAllPrefixErr | vpr/src/noc/sat_routing.cpp:420-422 | The first flow whose links do not sort decides the error. |
| RouteExtraction.SelectedRoutes | vpr/src/noc/sat_routing.cpp:409-418 | There is one collected route per flow, holding that flow's selected links. |
| RouteExtraction.SelectedRoutesKnown | vpr/src/noc/sat_routing.cpp:412-418 | Every collected link is a link of the topology. |
| RouteExtraction.ConvertVarsToRoutes | vpr/src/noc/sat_routing.cpp:401-425 | convert_vars_to_routes collects each flow's selected links and chain-sorts them flow by flow. |
| RouteExtraction.CollectSelected | vpr/src/noc/sat_routing.cpp:409-418 | The collection loop yields each flow's selected links. |
| RouteExtraction.SortRoutes | vpr/src/noc/sat_routing.cpp:420-422 | The sorting loop sorts the routes flow by flow and stops at the first failure. |
| RouteExtraction.NocSatRoute | vpr/src/noc/sat_routing.cpp:848-920 | The run stops at the grouping assertion exactly when some link is neither vertical nor horizontal, naming such a link. Otherwise the result is empty unless the status is FEASIBLE or OPTIMAL, and then it is the converted routes, or the chain-sort failure. |
| RouteExtraction.IdTableIdentity | vpr/src/noc/sat_routing.cpp:236-237 | With distinct user ids, converting a router's user id gives back that router. |
| RouteExtraction.CountsAt | vpr/src/noc/sat_routing.cpp:224-258 | A router's in-count (out-count) for a flow is zero iff no selected link enters (leaves) it. |
| RouteExtraction.RouteEndpoints | vpr/src/noc/sat_routing.cpp:205-260 | Under continuity, a sorted route is non-empty, starts at the flow's source router and ends at its sink router. |
| RouteExtraction.RouteIsSelectedPath | vpr/src/noc/sat_routing.cpp:205-260 | Under continuity, a sorted route is a simple chain from source to sink and a permutation of the selected links. |
| RouteExtraction.RouteAvoidsIllegalTurns | vpr/src/noc/sat_routing.cpp:127-133 | No two consecutive links of a sorted route form an illegal turn. |
| RouteExtraction.RouteOverrun | vpr/src/noc/sat_routing.cpp:479-494 | The overrun value equals max(route length - n_max, 0). |
| RouteExtraction.ChainSortOrderIndependent | vpr/src/noc/sat_routing.cpp:412-422 | The sorted route does not depend on the order in which the selected links were collected. |
| RouteExtraction.FlowRouteSound | vpr/src/noc/sat_routing.cpp:205-260 | For one flow of a solution, a sorted route is a simple chain from source to sink, exactly the selected links, free of illegal turns, and measured by its overrun variable. |
| RouteExtraction.SolvedRoutesSound | vpr/src/noc/sat_routing.cpp:837-897 | For a solution satisfying the whole formulation (every link axis-aligned, distance constraints over the direction groups of all links), successful extraction yields one sound route per flow. |
| RouteExtraction.SourceLinkSelected | vpr/src/noc/sat_routing.cpp:225-233 | Under continuity, some selected link leaves the flow's source router. |
| RouteExtraction.StartLeavesSource | vpr/src/noc/sat_routing.cpp:375-383 | Under continuity, a selected link whose source no selected link enters leaves the flow's source, and then no selected link enters the source. |
| RouteExtraction.SinkOfSelected | vpr/src/noc/sat_routing.cpp:367-372 | A router among the sinks recorded by the first pass has a selected link entering it. |
| RouteExtraction.NoStartIffSourceEntered | vpr/src/noc/sat_routing.cpp:375-385 | Under continuity, the sort of a flow's selected links finds no start link if and only if a selected link enters the flow's source router. |
| RouteExtraction.WalkEntersOnce | vpr/src/noc/sat_routing.cpp:225-258 | Under continuity, a chain of selected links from the flow's source, which no selected link enters, never repeats a link. |
| RouteExtraction.TwoSelectedInto | vpr/src/noc/sat_routing.cpp:243-244 | Two distinct selected links entering one router give that router an incoming count of at least two. |
| RouteExtraction.AtMostOneInto | vpr/src/noc/sat_routing.cpp:225-258 | Under continuity, when no selected link enters the flow's source, at most one selected link enters any router. |
| RouteExtraction.OneSelectedInto | vpr/src/noc/sat_routing.cpp:225-258 | Under continuity, when no selected link enters the flow's source, two selected links entering the same router are the same link. |
| RouteExtraction.WalkSelected | vpr/src/noc/sat_routing.cpp:386-394 | The walk over the source map from a selected link is a chain of selected links starting at that link. |
| RouteExtraction.SelectedChainDistinct | vpr/src/noc/sat_routing.cpp:225-258 | Under continuity, a chain of selected links starting at the unentered flow source has no repeated link. |
| RouteExtraction.WalkFromStartFits | vpr/src/noc/sat_routing.cpp:386-394 | Under continuity, the walk from the start link takes at most as many links as are selected. |
| RouteExtraction.WalkNeverTooLong | vpr/src/noc/sat_routing.cpp:386-394 | Under continuity, the chain walk over a flow's selected links never loops: the sort never fails with WalkTooLong. |
| RouteExtraction.ContinuityFromCounts | vpr/src/noc/sat_routing.cpp:224-258 | With distinct user ids, the continuity constraints hold once the source has one selected link out, the sink one in, and every other router at most one in, at most one out and as many in as out. |
| RouteExtraction.DetachedCycleMeetsContinuity | vpr/src/noc/sat_routing.cpp:205-260 | Selecting links 0 -> 1, 2 -> 3 and 3 -> 2 for the flow 0 -> 1 on four routers meets every continuity constraint. |
| RouteExtraction.DetachedCycleFailsLength | vpr/src/noc/sat_routing.cpp:396 | On that solution the walk covers one link of three, so the sort fails the length assertion. |
| RouteExtraction.SourceLoopMeetsContinuity | vpr/src/noc/sat_routing.cpp:205-260 | Selecting links 0 -> 1 and 1 -> 0 for the flow 0 -> 1 meets every continuity constraint. |
| RouteExtraction.SourceLoopHasNoStart | vpr/src/noc/sat_routing.cpp:375-385 | On that solution every selected link leaves a router another selected link enters, so the sort finds no start link. |
| PhysicalTile.PerInstancePositive | libs/libarchfpga/src/physical_types_util.cpp:640-641 | A sub-tile with pins has a positive number of pins per instance, and its pins are that number times its capacity. |
| PhysicalTile.CapacityLocationFromPin | libs/libarchfpga/src/physical_types_util.cpp:632-652 | The loop computes CapacityLocation, including its error. |
| PhysicalTile.PinFromCapacityLocation | libs/libarchfpga/src/physical_types_util.cpp:654-671 | The loop computes PinFromLocation, including its error. |
| PhysicalTile.CapacityLocationAt | libs/libarchfpga/src/physical_types_util.cpp:634-647 | A pin in sub-tile k's range maps to (its offset / per-instance + low, its offset % per-instance). |
| PhysicalTile.PinFromLocationAt | libs/libarchfpga/src/physical_types_util.cpp:656-666 | For a location in sub-tile k's range, the pin is the earlier sub-tiles' pins + per-instance x (loc - low) + relative pin. |
| PhysicalTile.PinInSomeSubTile | libs/libarchfpga/src/physical_types_util.cpp:634-647 | A pin below the total lies in exactly the range of some sub-tile. |
| PhysicalTile.CapacityLocationFails | libs/libarchfpga/src/physical_types_util.cpp:649-651 | Converting a pin fails iff the pin is at least the total of the sub-tiles' pins. |
| PhysicalTile.CapacityLocationNone | libs/libarchfpga/src/physical_types_util.cpp:649-651 | Past the last sub-tile the search fails from any point. |
| PhysicalTile.PinFromLocationFails | libs/libarchfpga/src/physical_types_util.cpp:668-670 | Converting a location fails iff no sub-tile's capacity range contains it. |
| PhysicalTile.PinLocationPin | libs/libarchfpga/src/physical_types_util.cpp:632-671 | With disjoint capacity ranges, pin, then location, then pin gives back the pin. |
| PhysicalTile.LocationPinLocation | libs/libarchfpga/src/physical_types_util.cpp:632-671 | With disjoint capacity ranges, a location and an in-instance pin round-trip through the tile pin. |
| PhysicalTile.PortIndex | libs/libarchfpga/src/physical_types_util.cpp:605-613 | The first port with the name, or None iff no port has it. |
| PhysicalTile.PortSubTile | libs/libarchfpga/src/physical_types_util.cpp:604-621 | The first sub-tile with such a port, or None iff there is none. |
| PhysicalTile.FindPin | libs/libarchfpga/src/physical_types_util.cpp:597-630 | find_pin returns OPEN when no port has the name, fails its assertion when the index is not below the port's pin count, and otherwise returns the pins of earlier sub-tiles + the pins of earlier ports + the index. |
| PhysicalTile.ScanPorts | libs/libarchfpga/src/physical_types_util.cpp:605-613 | The scan over one sub-tile's ports finds a port iff one has the name; it then yields the first such port's width and the pins of the ports before it, and leaves the width OPEN otherwise. |
| PhysicalTile.FindPinOpen | libs/libarchfpga/src/physical_types_util.cpp:623-629 | For a non-negative index, find_pin gives OPEN iff no sub-tile has a port with the name. |
| PhysicalTile.FindPinInFirstInstance | libs/libarchfpga/src/physical_types_util.cpp:597-652 | When ports describe one instance, the pin find_pin returns lies in the first capacity instance of its sub-tile, at the port's offset plus the index. |
| PhysicalTile.LastHosting | libs/libarchfpga/src/physical_types_util.cpp:455-462 | The last sub-tile listing the block, or None iff none lists it. |
| PhysicalTile.BlockSubTileIndex | libs/libarchfpga/src/physical_types_util.cpp:453-471 | The two-argument lookup returns the index of the last sub-tile listing the block, and fails iff none does. |
| PhysicalTile.FirstHostingAt | libs/libarchfpga/src/physical_types_util.cpp:492-500 | The first sub-tile listing the block whose capacity range contains the location, or None iff there is none. |
| PhysicalTile.BlockSubTileIndexAt | libs/libarchfpga/src/physical_types_util.cpp:488-509 | The three-argument lookup returns the index of that first sub-tile, and fails iff there is none. |
| PinNumbering.SubTileInternalCount | libs/libarchfpga/src/physical_types_util.cpp:1380-1387 | A sub-tile's internal pins (classes: lines 1138-1145) are the sum over its equivalent sites times its capacity. |
| PinNumbering.TileInternalCount | libs/libarchfpga/src/physical_types_util.cpp:1389-1396 | A tile's internal pins (classes: lines 1147-1155) are the sum over its sub-tiles. |
| PinNumbering.MaxPtcBounds | libs/libarchfpga/src/physical_types_util.cpp:1398-1407 | Without flat routing, a number is below max ptc iff it is on the tile (is_pin_on_tile, is_class_on_tile); the flat bound is at least the non-flat one. |
| PinNumbering.SubTileOffsetOf | libs/libarchfpga/src/physical_types_util.cpp:250-262 | The sub-tile offset (classes: lines 189-203) is the tile count plus the internal numbers of earlier sub-tiles. |
| PinNumbering.PerInstanceIsSitesSize | libs/libarchfpga/src/physical_types_util.cpp:269 | The per-instance count is the sum over the equivalent sites. |
| PinNumbering.InstOffsetOf | libs/libarchfpga/src/physical_types_util.cpp:264-275 | The instance offset (classes: lines 205-216) adds the relative capacity times the per-instance count. |
| PinNumbering.FirstSite | libs/libarchfpga/src/physical_types_util.cpp:284-289 | The first equivalent site that is the block, or the site count iff the block is not among them. |
| PinNumbering.BlockOffsetOf | libs/libarchfpga/src/physical_types_util.cpp:277-291 | The block offset (classes: lines 218-232) adds the sizes of the sites before the block. |
| PinNumbering.SubTileOfFrom | libs/libarchfpga/src/physical_types_util.cpp:1185-1197 | The search from sub-tile k returns a sub-tile at k or later. |
| PinNumbering.SubTileOf | libs/libarchfpga/src/physical_types_util.cpp:1174-1200 | The decoded sub-tile exists. |
| PinNumbering.SubTileFromNum | libs/libarchfpga/src/physical_types_util.cpp:1174-1200 | The loop (classes: lines 895-917) finds the sub-tile whose cumulative range holds the number, on-tile or internal, and its instance, or nothing past the last sub-tile. |
| PinNumbering.SiteContaining | libs/libarchfpga/src/physical_types_util.cpp:1213-1220 | The first site whose cumulative end exceeds the offset, or None iff no site's does. |
| PinNumbering.BlockFromNum | libs/libarchfpga/src/physical_types_util.cpp:1202-1223 | The loop (classes: lines 919-938) checks an internal number, decodes its sub-tile and instance, and returns the site holding it, or the errors the assertions and the null result stand for. |
| PinNumbering.LogicalNumFromNum | libs/libarchfpga/src/physical_types_util.cpp:293-310 | The logical number (classes: lines 234-248) is the physical number minus the offset of its block. |
| PinNumbering.SubTileOfAt | libs/libarchfpga/src/physical_types_util.cpp:1185-1197 | A number in sub-tile k's cumulative range decodes to k and instance (offset / per-instance). |
| PinNumbering.SubTileOfNone | libs/libarchfpga/src/physical_types_util.cpp:1199 | A number past every sub-tile decodes to nothing. |
| PinNumbering.NumInSomeSubTile | libs/libarchfpga/src/physical_types_util.cpp:1185-1197 | A number within the cumulative ranges lies in one sub-tile's range. |
| PinNumbering.SiteContainingAt | libs/libarchfpga/src/physical_types_util.cpp:1213-1220 | An offset inside site i's range finds site i. |
| PinNumbering.SiteInSome | libs/libarchfpga/src/physical_types_util.cpp:1213-1220 | An offset below the sites' total lies in some site's range. |
| PinNumbering.DecodeSubTile | libs/libarchfpga/src/physical_types_util.cpp:1174-1200 | Every internal number decodes to a sub-tile and an instance in range, with its offset inside that instance. |
| PinNumbering.DecodeInternal | libs/libarchfpga/src/physical_types_util.cpp:1202-1223 | Every internal number decodes to a sub-tile, an instance and a hosted block whose range holds it. |
| PinNumbering.LogicalPhysicalLogical | libs/libarchfpga/src/physical_types_util.cpp:1364-1378 | The physical number of (sub-tile, instance, block, logical number) is internal and decodes back to each of them. |
| PinNumbering.PhysicalLogicalPhysical | libs/libarchfpga/src/physical_types_util.cpp:312-327 | With distinct sites, every internal number decodes to a valid (sub-tile, instance, block, logical number) whose physical number is the same number. |
| PinNumbering.LogicalNumOkIff | libs/libarchfpga/src/physical_types_util.cpp:293-310 | Decoding a logical number succeeds iff the number is internal: at least the tile count and below the flat max ptc. |
| PinNumbering.OnTileBeforeIsPhyPinsBefore | libs/libarchfpga/src/physical_types_util.cpp:1186 | The on-tile pin ranges are the sub-tiles' tile pins, as in the capacity-location conversion. |
| PinNumbering.OnTilePinsAgree | libs/libarchfpga/src/physical_types_util.cpp:1174-1200 | For tile pins, the sub-tile decoding and the capacity-location conversion fail together and agree on the location. |
| PinNumbering.BlockPinNums | libs/libarchfpga/src/physical_types_util.cpp:1288-1296 | One physical number per entry of the block's pin map. |
| PinNumbering.SitesPinNums | libs/libarchfpga/src/physical_types_util.cpp:1287-1297 | One number per entry of the sites' pin maps. |
| PinNumbering.InstPinNums | libs/libarchfpga/src/physical_types_util.cpp:1286-1298 | c instances give c times the per-instance numbers. |
| PinNumbering.TilePinNums | libs/libarchfpga/src/physical_types_util.cpp:1285-1299 | The table has as many entries as the tile's internal pins. |
| PinNumbering.TileInternalPinsNum | libs/libarchfpga/src/physical_types_util.cpp:1281-1302 | The table is filled in place, in sub-tile, instance, site and pin-map order, with each pin's physical number. |
| PinNumbering.FillSubTile | libs/libarchfpga/src/physical_types_util.cpp:1286-1298 | One sub-tile's instances are written after the given position and nothing before it changes. |
| PinNumbering.FillInstance | libs/libarchfpga/src/physical_types_util.cpp:1287-1297 | One instance's sites are written after the given position and nothing before it changes. |
| PinNumbering.FillBlock | libs/libarchfpga/src/physical_types_util.cpp:1288-1296 | The loop over one block's pin map writes that block's internal pin numbers, in map order, right after the given position, advances the position by the map's size and leaves everything before it unchanged. |
| PinNumbering.BlockPinNumsConsecutive | libs/libarchfpga/src/physical_types_util.cpp:1288-1296 | For a block whose pin map is in in-cluster order, its numbers are consecutive from its block offset. |
| PinNumbering.SitesPinNumsConsecutive | libs/libarchfpga/src/physical_types_util.cpp:1287-1297 | An instance's numbers are consecutive from its instance offset. |
| PinNumbering.InstPinNumsConsecutive | libs/libarchfpga/src/physical_types_util.cpp:1286-1298 | A sub-tile's numbers are consecutive from its sub-tile offset. |
| PinNumbering.TilePinNumsConsecutive | libs/libarchfpga/src/physical_types_util.cpp:1285-1299 | The table's entries are consecutive from num_pins. |
| PinNumbering.InternalPinsAreConsecutive | libs/libarchfpga/src/physical_types_util.cpp:1281-1302 | With distinct sites and pin maps in in-cluster order, the internal pin table is exactly num_pins, ..., max_ptc - 1. |

## Left out

**Outside the model.**
- The CP-SAT engine: building the model, solving, hints, parameters and logging. The model states what any solution the engine reports must satisfy.
- The dead second `Minimize`/`Solve` after the `return` (`vpr/src/noc/sat_routing.cpp:909-910`) and the unused `minimize_aggregate_bandwidth` flag.
- The movable-router variant (`vpr/src/noc/sat_routing.cpp:498-678`) and the commented-out place-and-route driver. This is disabled code.
- `add_congestion_constraints`: its call is commented out in `noc_sat_route`.

**Floating point, replaced by inputs or exact values.**
- Bandwidth rescaling (a `floor` of a double ratio) is an input: the rescaled integer bandwidth of each flow.
- The hop budget `n_max` is an input.
- The latency bound is an exact real. The test `< 0.1` is kept.
- Router distances are squared Euclidean distances in exact reals. `sqrt` is monotone, so the choice of the closest tile is the same. `vtr::isclose` is exact equality, so near-ties that isclose would accept are not modelled.
- The initial `LLONG_MAX` distance is a "no distance yet" state.

**External collaborators, taken as inputs.**
- `get_compressed_loc`: the compressed displacement (dx, dy) of each flow is an input.
- The turn-model router's illegal-turn list is an input.
- The placement of router blocks is an input: each flow carries the dense ids of its source and sink routers.

**Storage and iteration order.**
- The NoC storage (noc_storage.cpp) is not part of this model. Its operations are modelled from their use.
- `convert_router_id` on an unknown id is an `UnknownRouterId` error.
- The unordered_map iteration order in `convert_vars_to_routes` is taken as (flow, link) order. `RouteExtraction.ChainSortOrderIndependent` shows the sorted route does not depend on it when the selected links form a simple path.

**Assumptions of the routing theorems.**
- The routing theorems assume distinct router user ids (`RouteExtraction.UserIdsDistinct`). With duplicate ids, `convert_router_id` in the continuity loop would name another router.
- The placement theorems assume no declared router uses the "not assigned" marker id -1 (`SetupNoc.IdsNotMarker`).

**Chain walk.**
- In `sort_noc_links_in_chain_order`, a cycle of selected links reachable from the start makes the source loop for ever. The model stops the walk one link past the input length and reports `WalkTooLong`.
- When no link qualifies as the start, the source dereferences the end iterator. The model reports `NoStartLink`.
- The formulation's constraints exclude neither a selected cycle detached from the flow's path nor a selected link entering the flow's source; only the objective's bandwidth term discourages them. The first makes the length assertion fail (`RouteExtraction.DetachedCycleFailsLength`), the second leaves no start link (`RouteExtraction.SourceLoopHasNoStart`).
- The solution is an input, so `NocSatRoute` groups the links before it looks at the solution, as the source does before solving, but the groups feed only the formulation (`SatRouting.Formulation`).

**Not modelled in physical_types_util.cpp.**
- The pb-graph pointer walks.
- The bimap and direct-map lookups (`get_sub_tile_physical_pin`, `get_physical_pin`).
- The class-map builders.
- The name-formatting functions.
- `get_max_num_pins` and `pick_*_type`.

**Representation limits.**
- Pin numbers, port pin counts and physical numbers are unbounded naturals, with no 32-bit overflow. Capacity and class ranges are unbounded integers.
- `WellFormed` requires each sub-tile's tile pins and class range to be a multiple of its capacity. The source's divisions assume this and would otherwise truncate.
- A logical block's `pb_pin_num_map` is given as the list of its in-cluster pin numbers in the map's iteration order. The map type is not part of this model.
- `PinNumbering.InternalPinsAreConsecutive` assumes that order is increasing in-cluster order and that a sub-tile lists each block once.
- A null block pointer is the `NoBlockForNumber` error. `PinNumbering.DecodeInternal` shows it cannot occur for an internal number.

**Not modelled at all.**
- `echo_noc` file output and timers.
- Logging and error-message text.
