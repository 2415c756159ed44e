/**
 * convert_vars_to_routes and the return value of noc_sat_route: read the links
 * each flow is routed through off a solution, put them into chain order, and
 * what that yields for a solution satisfying the whole formulation.
 */
module RouteExtraction {
  import opened Common
  import opened NocStorageModel
  import opened ChainOrder
  import opened SatRouting

  /** The links flow f is routed through, in link-id order. */
  function SelectedLinks(x: Assignment, f: FlowId, numLinks: nat): (r: seq<LinkId>)
    ensures forall l: LinkId :: l in r <==> l < numLinks && Sel(x, f, l)
    ensures forall i :: 0 <= i < |r| ==> r[i] < numLinks
    ensures Increasing(r)
  {
    if numLinks == 0 then []
    else
      var pre := SelectedLinks(x, f, numLinks - 1);
      assert forall i :: 0 <= i < |pre| ==> pre[i] in pre && pre[i] < numLinks - 1;
      pre + (if Sel(x, f, numLinks - 1) then [numLinks - 1] else [])
  }

  /** The selected links are as many as the constraints count over all links. */
  lemma {:induction false} SelectedLinksCount(x: Assignment, f: FlowId, numLinks: nat)
    ensures |SelectedLinks(x, f, numLinks)| == SelectedCount(x, f, numLinks)
  {
    SumOfFlowVars(x, f, AllLinks(numLinks));
    CountAllLinks(x, f, numLinks);
  }

  lemma {:induction false} CountAllLinks(x: Assignment, f: FlowId, numLinks: nat)
    ensures |SelectedLinks(x, f, numLinks)| == CountSel(x, f, AllLinks(numLinks))
  {
    if numLinks > 0 {
      CountAllLinks(x, f, numLinks - 1);
      assert AllLinks(numLinks)[..numLinks - 1] == AllLinks(numLinks - 1);
    }
  }

  /** Increasing link ids are distinct. */
  lemma IncreasingDistinct(s: seq<LinkId>)
    requires Increasing(s)
    ensures Distinct(s)
  {
  }

  datatype SolverStatus = Unknown | ModelInvalid | Feasible | Infeasible | Optimal

  /** The engine found a solution. */
  predicate Solved(status: SolverStatus)
  {
    status == Feasible || status == Optimal
  }

  /** Sort every flow's links in flow order; the first flow whose links do not sort
      into a chain stops the conversion (the source fails its length assertion there). */
  function SortAll(noc: seq<NocLink>, routes: seq<seq<LinkId>>): Result<seq<seq<LinkId>>, ChainError>
    requires forall f :: 0 <= f < |routes| ==> LinksKnown(noc, routes[f])
  {
    if routes == [] then Ok([])
    else
      match SortAll(noc, routes[..|routes| - 1])
      case Err(e) => Err(e)
      case Ok(done) =>
        match ChainSort(noc, routes[|routes| - 1])
        case Err(e) => Err(e)
        case Ok(r) => Ok(done + [r])
  }

  /** Sorting succeeds exactly when every flow's links sort, and then route f is the
      sorted links of flow f. */
  lemma {:induction false} SortAllOk(noc: seq<NocLink>, routes: seq<seq<LinkId>>)
    requires forall f :: 0 <= f < |routes| ==> LinksKnown(noc, routes[f])
    ensures SortAll(noc, routes).Ok? <==> forall f :: 0 <= f < |routes| ==> ChainSort(noc, routes[f]).Ok?
    ensures SortAll(noc, routes).Ok? ==>
      var out := SortAll(noc, routes).value;
      |out| == |routes| && forall f :: 0 <= f < |routes| ==> ChainSort(noc, routes[f]) == Ok(out[f])
  {
    if routes != [] {
      var pre := routes[..|routes| - 1];
      SortAllOk(noc, pre);
      assert forall f :: 0 <= f < |pre| ==> pre[f] == routes[f];
    }
  }

  /** A failure on some prefix of the flows is the failure of the whole conversion. */
  lemma {:induction false} SortAllPrefixErr(noc: seq<NocLink>, routes: seq<seq<LinkId>>, k: nat)
    requires k <= |routes| && forall f :: 0 <= f < |routes| ==> LinksKnown(noc, routes[f])
    requires SortAll(noc, routes[..k]).Err?
    ensures SortAll(noc, routes) == SortAll(noc, routes[..k])
    decreases |routes| - k
  {
    if k < |routes| {
      assert routes[..k + 1][..k] == routes[..k];
      SortAllPrefixErr(noc, routes, k + 1);
    } else {
      assert routes[..k] == routes;
    }
  }

  /** Each flow's selected links, flow by flow. */
  function SelectedRoutes(x: Assignment, numFlows: nat, numLinks: nat): (rs: seq<seq<LinkId>>)
    ensures |rs| == numFlows
    ensures forall f :: 0 <= f < numFlows ==> rs[f] == SelectedLinks(x, f, numLinks)
  {
    seq(numFlows, f requires 0 <= f < numFlows => SelectedLinks(x, f, numLinks))
  }

  lemma SelectedRoutesKnown(noc: seq<NocLink>, x: Assignment, numFlows: nat)
    ensures forall f :: 0 <= f < numFlows ==> LinksKnown(noc, SelectedRoutes(x, numFlows, |noc|)[f])
  {
    forall f, k | 0 <= f < numFlows && 0 <= k < |SelectedLinks(x, f, |noc|)|
      ensures SelectedLinks(x, f, |noc|)[k] < |noc|
    {
      assert SelectedLinks(x, f, |noc|)[k] in SelectedLinks(x, f, |noc|);
    }
  }

  /** What convert_vars_to_routes returns: each flow's selected links in chain order. */
  function Routes(noc: seq<NocLink>, x: Assignment, numFlows: nat): Result<seq<seq<LinkId>>, ChainError>
  {
    SelectedRoutesKnown(noc, x, numFlows);
    SortAll(noc, SelectedRoutes(x, numFlows, |noc|))
  }

  /** convert_vars_to_routes: collect the links whose variable is set per flow, then
      sort each flow's links into chain order. The container is walked flow by flow,
      link by link. */
  method ConvertVarsToRoutes(noc: seq<NocLink>, x: Assignment, numFlows: nat, status: SolverStatus)
    returns (r: Result<seq<seq<LinkId>>, ChainError>)
    requires Solved(status)
    requires Dense(x, numFlows, |noc|)
    ensures r == Routes(noc, x, numFlows)
  {
    var routes := CollectSelected(x, numFlows, |noc|);
    SelectedRoutesKnown(noc, x, numFlows);
    r := SortRoutes(noc, routes);
  }

  /** The first loop of convert_vars_to_routes: append each set variable's link to
      its flow's route. */
  method CollectSelected(x: Assignment, numFlows: nat, numLinks: nat) returns (routes: seq<seq<LinkId>>)
    requires Dense(x, numFlows, numLinks)
    ensures routes == SelectedRoutes(x, numFlows, numLinks)
  {
    routes := seq(numFlows, f => []);
    for f := 0 to numFlows
      invariant |routes| == numFlows
      invariant forall g :: 0 <= g < f ==> routes[g] == SelectedLinks(x, g, numLinks)
      invariant forall g :: f <= g < numFlows ==> routes[g] == []
    {
      for l := 0 to numLinks
        invariant |routes| == numFlows
        invariant forall g :: 0 <= g < f ==> routes[g] == SelectedLinks(x, g, numLinks)
        invariant forall g :: f < g < numFlows ==> routes[g] == []
        invariant routes[f] == SelectedLinks(x, f, l)
      {
        if x[(f, l)] {
          routes := routes[f := routes[f] + [l]];
        }
      }
    }
  }

  /** The second loop of convert_vars_to_routes: chain-order every route in turn. */
  method SortRoutes(noc: seq<NocLink>, routes: seq<seq<LinkId>>) returns (r: Result<seq<seq<LinkId>>, ChainError>)
    requires forall f :: 0 <= f < |routes| ==> LinksKnown(noc, routes[f])
    ensures r == SortAll(noc, routes)
  {
    var sorted: seq<seq<LinkId>> := [];
    for f := 0 to |routes|
      invariant SortAll(noc, routes[..f]) == Ok(sorted)
    {
      assert routes[..f + 1][..f] == routes[..f];
      var s := SortInChainOrder(noc, routes[f]);
      if s.Err? {
        SortAllPrefixErr(noc, routes, f + 1);
        return Err(s.error);
      }
      sorted := sorted + [s.value];
    }
    assert routes[..|routes|] == routes;
    return Ok(sorted);
  }

  /** Why noc_sat_route stops without routes: a link that is neither vertical nor
      horizontal (the assertion while grouping links by direction, before the model
      is solved), or a route whose links cannot be put in chain order. */
  datatype RouteError = NotAxisAligned(link: LinkId) | ChainFailed(reason: ChainError)

  /** noc_sat_route: group the links by direction, then, once the engine has produced
      a solution x with the given status, return the routes of a solved model and an
      empty result otherwise. */
  method NocSatRoute(noc: NocView, x: Assignment, numFlows: nat, status: SolverStatus)
    returns (r: Result<seq<seq<LinkId>>, RouteError>)
    requires LinksWithin(noc.links, |noc.routers|) && Dense(x, numFlows, |noc.links|)
    ensures (r.Err? && r.error.NotAxisAligned?) <==> !AxisAligned(noc)
    ensures r.Err? && r.error.NotAxisAligned? ==>
              r.error.link < |noc.links| && LinkDirection(noc, r.error.link).None?
    ensures AxisAligned(noc) && !Solved(status) ==> r == Ok([])
    ensures AxisAligned(noc) && Solved(status) && Routes(noc.links, x, numFlows).Ok? ==>
              r == Ok(Routes(noc.links, x, numFlows).value)
    ensures AxisAligned(noc) && Solved(status) && Routes(noc.links, x, numFlows).Err? ==>
              r == Err(ChainFailed(Routes(noc.links, x, numFlows).error))
  {
    var groups := GroupLinksByDirection(noc);
    if groups.Err? {
      return Err(NotAxisAligned(groups.error));
    }
    if Solved(status) {
      var routes := ConvertVarsToRoutes(noc.links, x, numFlows, status);
      if routes.Err? {
        return Err(ChainFailed(routes.error));
      }
      return Ok(routes.value);
    }
    return Ok([]);
  }

  // ---------------------------------------------------------------------------
  // What a solution of the formulation guarantees about the extracted routes

  /** Distinct routers carry distinct user ids. */
  predicate UserIdsDistinct(routers: seq<NocRouter>)
  {
    forall i, j :: 0 <= i < j < |routers| ==> routers[i].userId != routers[j].userId
  }

  /** With distinct user ids, converting a router's user id gives back its own index. */
  lemma IdTableIdentity(noc: NocView, k: nat)
    requires ViewValid(noc) && UserIdsDistinct(noc.routers) && k < |noc.routers|
    ensures noc.routers[k].userId in noc.idTable && noc.idTable[noc.routers[k].userId] == k
  {
    var j := noc.idTable[noc.routers[k].userId];
    assert noc.routers[j].userId == noc.routers[k].userId;
  }

  /** A selected link entering (leaving) router v makes the in (out) count positive;
      none makes it zero. */
  lemma CountsAt(noc: NocView, x: Assignment, f: FlowId, v: RouterId)
    ensures InCount(noc, x, f, v) == 0 <==> forall l: LinkId :: l < |noc.links| && noc.links[l].sink == v ==> !Sel(x, f, l)
    ensures OutCount(noc, x, f, v) == 0 <==> forall l: LinkId :: l < |noc.links| && noc.links[l].source == v ==> !Sel(x, f, l)
  {
    SumOfFlowVars(x, f, IncomingLinks(noc.links, v));
    CountSelZero(x, f, IncomingLinks(noc.links, v));
    SumOfFlowVars(x, f, OutgoingLinks(noc.links, v));
    CountSelZero(x, f, OutgoingLinks(noc.links, v));
  }

  /** Under the continuity constraints, a router with no selected link in and some
      selected link out is the flow's source. */
  lemma OnlyOutIsSource(noc: NocView, x: Assignment, f: FlowId, flow: TrafficFlow, v: RouterId)
    requires ViewValid(noc) && UserIdsDistinct(noc.routers) && ContinuityHolds(noc, x, f, flow)
    requires v < |noc.routers| && InCount(noc, x, f, v) == 0 && OutCount(noc, x, f, v) != 0
    ensures v == flow.source
  {
    IdTableIdentity(noc, v);
  }

  /** Under the continuity constraints, a router with some selected link in and no
      selected link out is the flow's sink. */
  lemma OnlyInIsSink(noc: NocView, x: Assignment, f: FlowId, flow: TrafficFlow, w: RouterId)
    requires ViewValid(noc) && UserIdsDistinct(noc.routers) && ContinuityHolds(noc, x, f, flow)
    requires w < |noc.routers| && InCount(noc, x, f, w) != 0 && OutCount(noc, x, f, w) == 0
    ensures w == flow.sink
  {
    IdTableIdentity(noc, w);
  }

  /** The in count of a router no selected link enters is zero. */
  lemma NoneSelectedInto(noc: NocView, x: Assignment, f: FlowId, v: RouterId)
    requires LinksKnown(noc.links, SelectedLinks(x, f, |noc.links|))
    requires forall k :: 0 <= k < |SelectedLinks(x, f, |noc.links|)| ==>
               noc.links[SelectedLinks(x, f, |noc.links|)[k]].sink != v
    ensures InCount(noc, x, f, v) == 0
  {
    var sel := SelectedLinks(x, f, |noc.links|);
    CountsAt(noc, x, f, v);
    forall l: LinkId | l < |noc.links| && Sel(x, f, l)
      ensures noc.links[l].sink != v
    {
      assert l in sel;
      var k :| 0 <= k < |sel| && sel[k] == l;
    }
  }

  /** The out count of a router no selected link leaves is zero. */
  lemma NoneSelectedFrom(noc: NocView, x: Assignment, f: FlowId, w: RouterId)
    requires LinksKnown(noc.links, SelectedLinks(x, f, |noc.links|))
    requires forall k :: 0 <= k < |SelectedLinks(x, f, |noc.links|)| ==>
               noc.links[SelectedLinks(x, f, |noc.links|)[k]].source != w
    ensures OutCount(noc, x, f, w) == 0
  {
    var sel := SelectedLinks(x, f, |noc.links|);
    CountsAt(noc, x, f, w);
    forall l: LinkId | l < |noc.links| && Sel(x, f, l)
      ensures noc.links[l].source != w
    {
      assert l in sel;
      var k :| 0 <= k < |sel| && sel[k] == l;
    }
  }

  /** Under the continuity constraints, a flow's links that sort into a chain start
      at the flow's source router and end at its sink router. */
  lemma RouteEndpoints(noc: NocView, x: Assignment, f: FlowId, flow: TrafficFlow)
    requires ViewValid(noc) && UserIdsDistinct(noc.routers)
    requires ContinuityHolds(noc, x, f, flow)
    requires ChainSort(noc.links, SelectedLinks(x, f, |noc.links|)).Ok?
    ensures var r := ChainSort(noc.links, SelectedLinks(x, f, |noc.links|)).value;
      && r != [] && LinksKnown(noc.links, r)
      && noc.links[r[0]].source == flow.source
      && noc.links[r[|r| - 1]].sink == flow.sink
  {
    var sel := SelectedLinks(x, f, |noc.links|);
    var r := ChainSort(noc.links, sel).value;
    assert sel != [] by {
      CountsAt(noc, x, f, flow.source);
      var l: LinkId :| l < |noc.links| && noc.links[l].source == flow.source && Sel(x, f, l);
      assert l in sel;
    }
    ChainSortEnds(noc.links, sel);
    ChainSortSound(noc.links, sel);
    assert r[0] in sel && r[|r| - 1] in sel;

    var v := noc.links[r[0]].source;
    NoneSelectedInto(noc, x, f, v);
    assert OutCount(noc, x, f, v) != 0 by {
      CountsAt(noc, x, f, v);
    }
    OnlyOutIsSource(noc, x, f, flow, v);

    var w := noc.links[r[|r| - 1]].sink;
    NoneSelectedFrom(noc, x, f, w);
    assert InCount(noc, x, f, w) != 0 by {
      CountsAt(noc, x, f, w);
    }
    OnlyInIsSink(noc, x, f, flow, w);
  }

  /** A route is a simple chain of known links, made of exactly the links the solution
      selects for the flow, leading from the flow's source router to its sink router. */
  ghost predicate PathOfFlow(noc: NocView, x: Assignment, f: FlowId, flow: TrafficFlow, route: seq<LinkId>)
  {
    && route != [] && LinksKnown(noc.links, route) && SimpleChain(noc.links, route)
    && multiset(route) == multiset(SelectedLinks(x, f, |noc.links|))
    && noc.links[route[0]].source == flow.source
    && noc.links[route[|route| - 1]].sink == flow.sink
  }

  /** No illegal pair appears as two consecutive links of the route. */
  predicate AvoidsTurns(illegal: seq<(LinkId, LinkId)>, route: seq<LinkId>)
  {
    forall i, t :: 0 <= i < |route| - 1 && 0 <= t < |illegal| ==> illegal[t] != (route[i], route[i + 1])
  }

  /** The route of a flow is a simple chain made of exactly the links the solution
      selects for it: a path from its source router to its sink router that visits no
      router twice. */
  lemma RouteIsSelectedPath(noc: NocView, x: Assignment, f: FlowId, flow: TrafficFlow)
    requires ViewValid(noc) && UserIdsDistinct(noc.routers)
    requires ContinuityHolds(noc, x, f, flow)
    requires ChainSort(noc.links, SelectedLinks(x, f, |noc.links|)).Ok?
    ensures PathOfFlow(noc, x, f, flow, ChainSort(noc.links, SelectedLinks(x, f, |noc.links|)).value)
  {
    var sel := SelectedLinks(x, f, |noc.links|);
    RouteEndpoints(noc, x, f, flow);
    ChainSortSound(noc.links, sel);
    IncreasingDistinct(sel);
  }

  /** No route takes an illegal turn: no illegal pair appears as two consecutive links. */
  lemma RouteAvoidsIllegalTurns(noc: seq<NocLink>, x: Assignment, f: FlowId, numFlows: nat, illegal: seq<(LinkId, LinkId)>)
    requires f < numFlows && TurnsForbidden(x, numFlows, illegal)
    requires ChainSort(noc, SelectedLinks(x, f, |noc|)).Ok?
    ensures AvoidsTurns(illegal, ChainSort(noc, SelectedLinks(x, f, |noc|)).value)
  {
    var sel := SelectedLinks(x, f, |noc|);
    var r := ChainSort(noc, sel).value;
    ChainSortSound(noc, sel);
    forall i, t | 0 <= i < |r| - 1 && 0 <= t < |illegal|
      ensures illegal[t] != (r[i], r[i + 1])
    {
      assert r[i] in sel && r[i + 1] in sel;
    }
  }

  /** The overrun variable of a flow is how far its route's length exceeds the hop budget. */
  lemma RouteOverrun(noc: seq<NocLink>, x: Assignment, f: FlowId, flow: TrafficFlow, v: int)
    requires OverrunHolds(x, f, flow, |noc|, v)
    requires ChainSort(noc, SelectedLinks(x, f, |noc|)).Ok?
    ensures v == Max(|ChainSort(noc, SelectedLinks(x, f, |noc|)).value| - flow.hopBudget, 0)
  {
    var sel := SelectedLinks(x, f, |noc|);
    assert |ChainSort(noc, sel).value| == |sel| by {
      ChainSortLength(noc, sel);
    }
    SelectedLinksCount(x, f, |noc|);
  }

  /** The order in which the container hands out the selected links does not matter:
      any arrangement of links that sorts into a chain sorts into the same chain. */
  lemma ChainSortOrderIndependent(noc: seq<NocLink>, a: seq<LinkId>, b: seq<LinkId>)
    requires LinksKnown(noc, a) && Distinct(a) && multiset(a) == multiset(b)
    requires ChainSort(noc, a).Ok?
    ensures LinksKnown(noc, b) && ChainSort(noc, b) == ChainSort(noc, a)
  {
    ChainSortSound(noc, a);
    var r := ChainSort(noc, a).value;
    if a == [] {
      assert |b| == |multiset(b)| == 0;
    } else {
      ChainSortComplete(noc, b, r);
      ChainSortComplete(noc, a, r);
    }
  }

  /** Everything the formulation guarantees about the route of one flow. */
  ghost predicate SoundRoute(
    noc: NocView, x: Assignment, f: FlowId, flow: TrafficFlow, illegal: seq<(LinkId, LinkId)>,
    overrun: Option<int>, route: seq<LinkId>)
  {
    && PathOfFlow(noc, x, f, flow, route)
    && AvoidsTurns(illegal, route)
    && (overrun.Some? ==> overrun.value == Max(|route| - flow.hopBudget, 0))
  }

  lemma FlowRouteSound(
    noc: NocView, flows: seq<TrafficFlow>, illegal: seq<(LinkId, LinkId)>, x: Assignment,
    overrun: seq<Option<int>>, f: FlowId)
    requires ViewValid(noc) && UserIdsDistinct(noc.routers) && f < |flows| && |overrun| == |flows|
    requires ContinuityHolds(noc, x, f, flows[f]) && TurnsForbidden(x, |flows|, illegal)
    requires overrun[f].Some? ==> OverrunHolds(x, f, flows[f], |noc.links|, overrun[f].value)
    requires ChainSort(noc.links, SelectedLinks(x, f, |noc.links|)).Ok?
    ensures SoundRoute(noc, x, f, flows[f], illegal, overrun[f], ChainSort(noc.links, SelectedLinks(x, f, |noc.links|)).value)
  {
    if overrun[f].Some? {
      RouteOverrun(noc.links, x, f, flows[f], overrun[f].value);
    }
    RouteAvoidsIllegalTurns(noc.links, x, f, |flows|, illegal);
    RouteIsSelectedPath(noc, x, f, flows[f]);
  }

  /** For a solution of the whole formulation, noc_sat_route returns one route per flow,
      each a simple path from the flow's source router to its sink router made of
      exactly the links selected for it, taking no illegal turn, and whose overrun
      variable (when it has one) measures its excess over the hop budget. */
  lemma SolvedRoutesSound(
    noc: NocView, flows: seq<TrafficFlow>, illegal: seq<(LinkId, LinkId)>, resolution: int,
    x: Assignment, overrun: seq<Option<int>>, congested: seq<bool>)
    requires ViewValid(noc) && UserIdsDistinct(noc.routers)
    requires Formulation(noc, flows, illegal, resolution, x, overrun, congested)
    requires Routes(noc.links, x, |flows|).Ok?
    ensures var routes := Routes(noc.links, x, |flows|).value;
      && |routes| == |flows|
      && forall f :: 0 <= f < |flows| ==> SoundRoute(noc, x, f, flows[f], illegal, overrun[f], routes[f])
  {
    var rs := SelectedRoutes(x, |flows|, |noc.links|);
    SelectedRoutesKnown(noc.links, x, |flows|);
    SortAllOk(noc.links, rs);
    var routes := Routes(noc.links, x, |flows|).value;
    forall f | 0 <= f < |flows|
      ensures SoundRoute(noc, x, f, flows[f], illegal, overrun[f], routes[f])
    {
      assert ChainSort(noc.links, SelectedLinks(x, f, |noc.links|)) == Ok(routes[f]);
      FlowRouteSound(noc, flows, illegal, x, overrun, f);
    }
  }

  // ---------------------------------------------------------------------------
  // When the routes of a solution cannot be extracted

  /** Under the continuity constraints, some selected link leaves the flow's source. */
  lemma SourceLinkSelected(noc: NocView, x: Assignment, f: FlowId, flow: TrafficFlow) returns (k: nat)
    requires ContinuityHolds(noc, x, f, flow)
    ensures k < |SelectedLinks(x, f, |noc.links|)|
    ensures noc.links[SelectedLinks(x, f, |noc.links|)[k]].source == flow.source
  {
    var sel := SelectedLinks(x, f, |noc.links|);
    CountsAt(noc, x, f, flow.source);
    var l: LinkId :| l < |noc.links| && noc.links[l].source == flow.source && Sel(x, f, l);
    assert l in sel;
    k :| 0 <= k < |sel| && sel[k] == l;
  }

  /** A selected link whose source no selected link enters leaves the flow's source,
      and then no selected link enters the source at all. */
  lemma StartLeavesSource(noc: NocView, x: Assignment, f: FlowId, flow: TrafficFlow, s: nat)
    requires ViewValid(noc) && UserIdsDistinct(noc.routers) && ContinuityHolds(noc, x, f, flow)
    requires s < |SelectedLinks(x, f, |noc.links|)|
    requires noc.links[SelectedLinks(x, f, |noc.links|)[s]].source
             !in Sinks(noc.links, SelectedLinks(x, f, |noc.links|))
    ensures noc.links[SelectedLinks(x, f, |noc.links|)[s]].source == flow.source
    ensures InCount(noc, x, f, flow.source) == 0
  {
    var sel := SelectedLinks(x, f, |noc.links|);
    var u := noc.links[sel[s]].source;
    assert InCount(noc, x, f, u) == 0 by {
      SinksFacts(noc.links, sel);
      NoneSelectedInto(noc, x, f, u);
    }
    assert OutCount(noc, x, f, u) != 0 by {
      CountsAt(noc, x, f, u);
      assert sel[s] in sel;
    }
    OnlyOutIsSource(noc, x, f, flow, u);
  }

  /** The continuity constraints bound only the links leaving the source and entering
      the sink, so a selected link may enter the source. The chain sort then finds no
      start link (the source would dereference the end iterator), and only then. */
  lemma NoStartIffSourceEntered(noc: NocView, x: Assignment, f: FlowId, flow: TrafficFlow)
    requires ViewValid(noc) && UserIdsDistinct(noc.routers) && ContinuityHolds(noc, x, f, flow)
    ensures ChainSort(noc.links, SelectedLinks(x, f, |noc.links|)) == Err(NoStartLink)
            <==> InCount(noc, x, f, flow.source) != 0
  {
    var sel := SelectedLinks(x, f, |noc.links|);
    var st := FirstStart(noc.links, sel, Sinks(noc.links, sel), 0);
    if st.Some? {
      StartLeavesSource(noc, x, f, flow, st.value);
    } else {
      var k := SourceLinkSelected(noc, x, f, flow);
      SinkOfSelected(noc, x, f, flow.source, k);
    }
  }

  /** A router in the sinks of the selected links has a selected link entering it. */
  lemma SinkOfSelected(noc: NocView, x: Assignment, f: FlowId, v: RouterId, k: nat)
    requires k < |SelectedLinks(x, f, |noc.links|)|
    requires noc.links[SelectedLinks(x, f, |noc.links|)[k]].source == v
    requires v in Sinks(noc.links, SelectedLinks(x, f, |noc.links|))
    ensures InCount(noc, x, f, v) != 0
  {
    var sel := SelectedLinks(x, f, |noc.links|);
    SinksFacts(noc.links, sel);
    var j :| 0 <= j < |sel| && noc.links[sel[j]].sink == v;
    assert sel[j] in sel;
    CountsAt(noc, x, f, v);
  }

  /** A walk over selected links that starts at the flow's source, when no selected
      link enters the source, never repeats a link: the first repeat would make two
      selected links enter one router, which the continuity constraints forbid. */
  lemma {:induction false} WalkEntersOnce(
    noc: NocView, x: Assignment, f: FlowId, flow: TrafficFlow, w: seq<LinkId>, i: nat, j: nat)
    requires ViewValid(noc) && UserIdsDistinct(noc.routers) && ContinuityHolds(noc, x, f, flow)
    requires InCount(noc, x, f, flow.source) == 0
    requires LinksKnown(noc.links, w) && Chained(noc.links, w)
    requires forall k :: 0 <= k < |w| ==> Sel(x, f, w[k])
    requires i < j < |w| && noc.links[w[0]].source == flow.source
    ensures w[i] != w[j]
    decreases i
  {
    if i > 0 {
      WalkEntersOnce(noc, x, f, flow, w, i - 1, j - 1);
    }
    assert noc.links[w[j - 1]].sink == noc.links[w[j]].source;
    if w[i] == w[j] {
      if i == 0 {
        CountsAt(noc, x, f, flow.source);
        assert false;
      } else {
        assert noc.links[w[i - 1]].sink == noc.links[w[i]].source;
        OneSelectedInto(noc, x, f, flow, w[i - 1], w[j - 1]);
        assert false;
      }
    }
  }

  /** Under the continuity constraints, when no selected link enters the flow's source,
      no two selected links enter the same router. */
  lemma OneSelectedInto(noc: NocView, x: Assignment, f: FlowId, flow: TrafficFlow, a: LinkId, b: LinkId)
    requires ViewValid(noc) && UserIdsDistinct(noc.routers) && ContinuityHolds(noc, x, f, flow)
    requires InCount(noc, x, f, flow.source) == 0
    requires a < |noc.links| && b < |noc.links| && Sel(x, f, a) && Sel(x, f, b)
    requires noc.links[a].sink == noc.links[b].sink
    ensures a == b
  {
    if a != b {
      TwoSelectedInto(noc, x, f, a, b);
      AtMostOneInto(noc, x, f, flow, noc.links[a].sink);
      assert false;
    }
  }

  /** Two distinct selected links entering one router count twice. */
  lemma TwoSelectedInto(noc: NocView, x: Assignment, f: FlowId, a: LinkId, b: LinkId)
    requires a < |noc.links| && b < |noc.links| && a != b && Sel(x, f, a) && Sel(x, f, b)
    requires noc.links[a].sink == noc.links[b].sink
    ensures InCount(noc, x, f, noc.links[a].sink) >= 2
  {
    var v := noc.links[a].sink;
    SumOfFlowVars(x, f, IncomingLinks(noc.links, v));
    CountSelTwo(x, f, IncomingLinks(noc.links, v), a, b);
  }

  /** Under the continuity constraints, when no selected link enters the flow's source,
      at most one selected link enters any router. */
  lemma AtMostOneInto(noc: NocView, x: Assignment, f: FlowId, flow: TrafficFlow, v: RouterId)
    requires ViewValid(noc) && UserIdsDistinct(noc.routers) && ContinuityHolds(noc, x, f, flow)
    requires InCount(noc, x, f, flow.source) == 0
    requires v < |noc.routers|
    ensures InCount(noc, x, f, v) <= 1
  {
    IdTableIdentity(noc, v);
  }

  /** A chain of links the solution selects for flow f. */
  ghost predicate SelectedChain(noc: NocView, x: Assignment, f: FlowId, w: seq<LinkId>)
  {
    && LinksKnown(noc.links, w)
    && Chained(noc.links, w)
    && (forall k :: 0 <= k < |w| ==> Sel(x, f, w[k]))
  }

  /** The walk over src_map from a selected link is a chain of selected links. */
  lemma WalkSelected(noc: NocView, x: Assignment, f: FlowId, start: LinkId)
    requires start in SelectedLinks(x, f, |noc.links|)
    ensures SelectedChain(noc, x, f, Follow(noc.links, SourceMap(noc.links, SelectedLinks(x, f, |noc.links|)), start,
                                            |SelectedLinks(x, f, |noc.links|)| + 1))
    ensures Follow(noc.links, SourceMap(noc.links, SelectedLinks(x, f, |noc.links|)), start,
                   |SelectedLinks(x, f, |noc.links|)| + 1)[0] == start
  {
    var sel := SelectedLinks(x, f, |noc.links|);
    var m := SourceMap(noc.links, sel);
    assert SourceMapOf(noc.links, sel, m) by {
      SourceMapFacts(noc.links, sel);
    }
    var w := Follow(noc.links, m, start, |sel| + 1);
    assert |w| > 0 && w[0] == start by {
      FollowShape(noc.links, m, start, |sel| + 1);
    }
    WalkInLinks(noc.links, sel, m, start, |sel| + 1);
    forall k | 0 <= k < |w|
      ensures Sel(x, f, w[k])
    {
      assert w[k] in sel;
    }
  }

  /** A chain of selected links that starts at the flow's source, when no selected
      link enters the source, visits no link twice. */
  lemma SelectedChainDistinct(noc: NocView, x: Assignment, f: FlowId, flow: TrafficFlow, w: seq<LinkId>)
    requires ViewValid(noc) && UserIdsDistinct(noc.routers) && ContinuityHolds(noc, x, f, flow)
    requires InCount(noc, x, f, flow.source) == 0
    requires SelectedChain(noc, x, f, w) && w != [] && noc.links[w[0]].source == flow.source
    ensures Distinct(w)
  {
    forall i, j | 0 <= i < j < |w|
      ensures w[i] != w[j]
    {
      WalkEntersOnce(noc, x, f, flow, w, i, j);
    }
  }

  /** The walk from a selected link whose source no selected link enters takes at
      most as many links as are selected. */
  lemma WalkFromStartFits(noc: NocView, x: Assignment, f: FlowId, flow: TrafficFlow, s: nat)
    requires ViewValid(noc) && UserIdsDistinct(noc.routers) && ContinuityHolds(noc, x, f, flow)
    requires s < |SelectedLinks(x, f, |noc.links|)|
    requires noc.links[SelectedLinks(x, f, |noc.links|)[s]].source
             !in Sinks(noc.links, SelectedLinks(x, f, |noc.links|))
    ensures |Follow(noc.links, SourceMap(noc.links, SelectedLinks(x, f, |noc.links|)),
                    SelectedLinks(x, f, |noc.links|)[s], |SelectedLinks(x, f, |noc.links|)| + 1)|
            <= |SelectedLinks(x, f, |noc.links|)|
  {
    var sel := SelectedLinks(x, f, |noc.links|);
    var start := sel[s];
    StartLeavesSource(noc, x, f, flow, s);
    var w := Follow(noc.links, SourceMap(noc.links, sel), start, |sel| + 1);
    WalkSelected(noc, x, f, start);
    assert Distinct(w) by {
      SelectedChainDistinct(noc, x, f, flow, w);
    }
    IncreasingDistinct(sel);
    assert forall k :: 0 <= k < |w| ==> w[k] in sel;
    DistinctWithinIsShorter(w, sel);
  }

  /** Under the continuity constraints the chain walk never outgrows the selected
      links: the sort of a solution's links does not loop for ever. */
  lemma WalkNeverTooLong(noc: NocView, x: Assignment, f: FlowId, flow: TrafficFlow)
    requires ViewValid(noc) && UserIdsDistinct(noc.routers) && ContinuityHolds(noc, x, f, flow)
    ensures ChainSort(noc.links, SelectedLinks(x, f, |noc.links|)) != Err(WalkTooLong)
  {
    var sel := SelectedLinks(x, f, |noc.links|);
    var st := FirstStart(noc.links, sel, Sinks(noc.links, sel), 0);
    if sel != [] && st.Some? {
      WalkFromStartFits(noc, x, f, flow, st.value);
    }
  }

  /** An increasing sequence whose only member is a is [a]. */
  lemma OnlyMember(ls: seq<nat>, a: nat)
    requires forall l: nat :: l in ls <==> l == a
    requires forall i, j :: 0 <= i < j < |ls| ==> ls[i] < ls[j]
    ensures ls == [a]
  {
    assert a in ls;
    assert Distinct(ls);
    DistinctWithinIsShorter(ls, [a]);
    assert ls[0] in ls;
  }

  /** With exactly one link a entering (or leaving) router v, the count at v is whether
      a is selected. */
  lemma OneLinkCount(noc: NocView, x: Assignment, f: FlowId, v: RouterId, a: LinkId, entering: bool)
    requires a < |noc.links| && Sel(x, f, a)
    requires entering ==> noc.links[a].sink == v
    requires !entering ==> noc.links[a].source == v
    requires forall l :: 0 <= l < |noc.links| && l != a ==>
               (if entering then noc.links[l].sink else noc.links[l].source) != v
    ensures entering ==> InCount(noc, x, f, v) == 1
    ensures !entering ==> OutCount(noc, x, f, v) == 1
  {
    if entering {
      OnlyMember(IncomingLinks(noc.links, v), a);
    } else {
      OnlyMember(OutgoingLinks(noc.links, v), a);
    }
    SumOfFlowVars(x, f, [a]);
  }

  /** Four routers whose user ids are their indices, with link 0 -> 1 and a cycle
      2 -> 3 -> 2 beside it. */
  const cycleView := NocView(seq(4, k => NocRouter(k, k % 2, k / 2)),
                             [NocLink(0, 1), NocLink(2, 3), NocLink(3, 2)],
                             map id | 0 <= id < 4 :: id)
  /** A flow from router 0 to router 1. */
  const zeroToOne := TrafficFlow(0, 1, 1, 1.0, 1, 1, 0)

  /** The continuity constraints allow a cycle detached from the path: a solution that
      selects links 2 -> 3 and 3 -> 2 besides 0 -> 1 for the flow 0 -> 1 meets them. */
  lemma DetachedCycleMeetsContinuity(x: Assignment)
    requires Sel(x, 0, 0) && Sel(x, 0, 1) && Sel(x, 0, 2)
    ensures ViewValid(cycleView) && UserIdsDistinct(cycleView.routers)
    ensures ContinuityHolds(cycleView, x, 0, zeroToOne)
  {
    CycleViewValid();
    CycleCounts(x);
    forall v | 0 <= v < |cycleView.routers| && v != zeroToOne.source && v != zeroToOne.sink
      ensures InCount(cycleView, x, 0, v) <= 1 && OutCount(cycleView, x, 0, v) <= 1
      ensures InCount(cycleView, x, 0, v) == OutCount(cycleView, x, 0, v)
    {
      assert v == 2 || v == 3;
    }
    ContinuityFromCounts(cycleView, x, 0, zeroToOne);
  }

  /** The continuity constraints, stated router by router: with distinct user ids the
      id table sends each router's id back to the router itself. */
  lemma ContinuityFromCounts(noc: NocView, x: Assignment, f: FlowId, flow: TrafficFlow)
    requires ViewValid(noc) && UserIdsDistinct(noc.routers)
    requires OutCount(noc, x, f, flow.source) == 1 && InCount(noc, x, f, flow.sink) == 1
    requires forall v :: 0 <= v < |noc.routers| && v != flow.source && v != flow.sink ==>
               InCount(noc, x, f, v) <= 1 && OutCount(noc, x, f, v) <= 1
               && InCount(noc, x, f, v) == OutCount(noc, x, f, v)
    ensures ContinuityHolds(noc, x, f, flow)
  {
    forall k | 0 <= k < |noc.routers|
      ensures noc.idTable[noc.routers[k].userId] == k
    {
      IdTableIdentity(noc, k);
    }
  }

  lemma CycleViewValid()
    ensures ViewValid(cycleView) && UserIdsDistinct(cycleView.routers)
  {
  }

  /** The selected links in and out of each router, for a solution selecting all three links. */
  lemma CycleCounts(x: Assignment)
    requires Sel(x, 0, 0) && Sel(x, 0, 1) && Sel(x, 0, 2)
    ensures OutCount(cycleView, x, 0, 0) == 1 && InCount(cycleView, x, 0, 1) == 1
    ensures InCount(cycleView, x, 0, 2) == 1 && OutCount(cycleView, x, 0, 2) == 1
    ensures InCount(cycleView, x, 0, 3) == 1 && OutCount(cycleView, x, 0, 3) == 1
  {
    CycleCountAt(x, 0, 0, false);
    CycleCountAt(x, 1, 0, true);
    CycleCountAt(x, 2, 2, true);
    CycleCountAt(x, 2, 1, false);
    CycleCountAt(x, 3, 1, true);
    CycleCountAt(x, 3, 2, false);
  }

  /** Link a is the only link of cycleView entering (or leaving) router v. */
  lemma CycleCountAt(x: Assignment, v: RouterId, a: LinkId, entering: bool)
    requires a < 3 && Sel(x, 0, a)
    requires (if entering then cycleView.links[a].sink else cycleView.links[a].source) == v
    ensures entering ==> InCount(cycleView, x, 0, v) == 1
    ensures !entering ==> OutCount(cycleView, x, 0, v) == 1
  {
    assert cycleView.links == [NocLink(0, 1), NocLink(2, 3), NocLink(3, 2)];
    OneLinkCount(cycleView, x, 0, v, a, entering);
  }

  /** A solution that selects links 0, 1 and 2 lists them in that order. */
  lemma FirstThreeSelected(x: Assignment)
    requires Sel(x, 0, 0) && Sel(x, 0, 1) && Sel(x, 0, 2)
    ensures SelectedLinks(x, 0, 3) == [0, 1, 2]
  {
    assert SelectedLinks(x, 0, 1) == [0];
    assert SelectedLinks(x, 0, 2) == [0, 1];
  }

  /** On such a solution the walk covers one selected link of three, so the length
      assertion fails. */
  lemma DetachedCycleFailsLength(x: Assignment)
    requires Sel(x, 0, 0) && Sel(x, 0, 1) && Sel(x, 0, 2)
    ensures ChainSort(cycleView.links, SelectedLinks(x, 0, 3)) == Err(LengthMismatch)
  {
    FirstThreeSelected(x);
    var links, sel := cycleView.links, [0, 1, 2];
    assert links == [NocLink(0, 1), NocLink(2, 3), NocLink(3, 2)];
    assert 0 !in Sinks(links, sel) by {
      SinksFacts(links, sel);
    }
    assert 1 !in SourceMap(links, sel) by {
      SourceMapFacts(links, sel);
    }
  }

  /** Two routers whose user ids are their indices, with links 0 -> 1 and 1 -> 0. */
  const loopView := NocView(seq(2, k => NocRouter(k, k, 0)), [NocLink(0, 1), NocLink(1, 0)],
                            map id | 0 <= id < 2 :: id)

  /** A selected link back into the source meets the continuity constraints too: a
      solution that selects both links for the flow 0 -> 1 meets them. */
  lemma SourceLoopMeetsContinuity(x: Assignment)
    requires Sel(x, 0, 0) && Sel(x, 0, 1)
    ensures ViewValid(loopView) && UserIdsDistinct(loopView.routers)
    ensures ContinuityHolds(loopView, x, 0, zeroToOne)
  {
    assert loopView.links == [NocLink(0, 1), NocLink(1, 0)];
    OneLinkCount(loopView, x, 0, 0, 0, false);
    OneLinkCount(loopView, x, 0, 1, 0, true);
    ContinuityFromCounts(loopView, x, 0, zeroToOne);
  }

  /** On such a solution every selected link leaves a router some selected link enters,
      so the chain sort finds no start link. */
  lemma SourceLoopHasNoStart(x: Assignment)
    requires Sel(x, 0, 0) && Sel(x, 0, 1)
    ensures ChainSort(loopView.links, SelectedLinks(x, 0, 2)) == Err(NoStartLink)
  {
    var links := loopView.links;
    assert links == [NocLink(0, 1), NocLink(1, 0)];
    var sel := SelectedLinks(x, 0, 2);
    assert sel == [0, 1] by {
      assert SelectedLinks(x, 0, 1) == [0];
    }
    SinksFacts(links, sel);
  }
}
