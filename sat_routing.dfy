/**
 * The constraint formulation built by noc_sat_route. The CP-SAT engine is not
 * modelled: every constraint family becomes a predicate over the values the
 * engine reports for the boolean (traffic flow, link) variables, for the
 * congestion indicators and for the latency-overrun integers, and the objective
 * becomes an integer function of those values.
 */
module SatRouting {
  import opened Common
  import opened NocStorageModel

  type FlowId = nat

  /** A traffic flow as the formulation sees it: the dense ids of the routers its
      source and sink blocks are placed on, its bandwidth rescaled to an integer
      (the floor of demand / link bandwidth * resolution), its latency bound, the
      number of links that bound allows (n_max), and the compressed-grid
      displacement from its source router to its sink router. */
  datatype TrafficFlow = TrafficFlow(
    source: RouterId, sink: RouterId, bandwidth: int, maxLatency: real,
    hopBudget: int, deltaX: int, deltaY: int)

  /** The values of the (flow, link) boolean variables in a solution. */
  type Assignment = map<(FlowId, LinkId), bool>

  /** create_flow_link_vars: there is exactly one variable per flow and link. */
  ghost predicate Dense(x: Assignment, numFlows: nat, numLinks: nat)
  {
    forall f: FlowId, l: LinkId :: (f, l) in x <==> f < numFlows && l < numLinks
  }

  /** Flow f is routed through link l. */
  predicate Sel(x: Assignment, f: FlowId, l: LinkId)
  {
    (f, l) in x && x[(f, l)]
  }

  /** A flow receives a latency-overrun variable exactly when its latency bound is below 0.1. */
  predicate LatencyConstrained(flow: TrafficFlow)
  {
    flow.maxLatency < 0.1
  }

  // ---------------------------------------------------------------------------
  // get_flow_link_vars

  /** The variables of flow f for the given links, in link order, skipping pairs
      the container has no variable for. */
  function VarsOfFlow(x: Assignment, f: FlowId, links: seq<LinkId>): seq<(FlowId, LinkId)>
  {
    if links == [] then []
    else
      var last := links[|links| - 1];
      VarsOfFlow(x, f, links[..|links| - 1]) + (if (f, last) in x then [(f, last)] else [])
  }

  /** What get_flow_link_vars returns: the outer product of flows and links, flow-major. */
  function FlowLinkVars(x: Assignment, flows: seq<FlowId>, links: seq<LinkId>): seq<(FlowId, LinkId)>
  {
    if flows == [] then []
    else FlowLinkVars(x, flows[..|flows| - 1], links) + VarsOfFlow(x, flows[|flows| - 1], links)
  }

  method GetFlowLinkVars(x: Assignment, flows: seq<FlowId>, links: seq<LinkId>)
    returns (results: seq<(FlowId, LinkId)>)
    ensures results == FlowLinkVars(x, flows, links)
  {
    results := [];
    for i := 0 to |flows|
      invariant results == FlowLinkVars(x, flows[..i], links)
    {
      assert flows[..i + 1][..i] == flows[..i];
      ghost var before := results;
      for j := 0 to |links|
        invariant results == before + VarsOfFlow(x, flows[i], links[..j])
      {
        assert links[..j + 1][..j] == links[..j];
        if (flows[i], links[j]) in x {
          results := results + [(flows[i], links[j])];
        }
      }
      assert links[..|links|] == links;
    }
    assert flows[..|flows|] == flows;
  }

  /** A variable is returned exactly when its flow and its link were asked for and it exists. */
  lemma {:induction false} FlowLinkVarsMembers(x: Assignment, flows: seq<FlowId>, links: seq<LinkId>)
    ensures forall v :: v in FlowLinkVars(x, flows, links) <==> v.0 in flows && v.1 in links && v in x
  {
    if flows != [] {
      var pre := flows[..|flows| - 1];
      FlowLinkVarsMembers(x, pre, links);
      VarsOfFlowMembers(x, flows[|flows| - 1], links);
      assert flows == pre + [flows[|flows| - 1]];
    }
  }

  lemma {:induction false} VarsOfFlowMembers(x: Assignment, f: FlowId, links: seq<LinkId>)
    ensures forall v :: v in VarsOfFlow(x, f, links) <==> v.0 == f && v.1 in links && v in x
  {
    if links != [] {
      var pre := links[..|links| - 1];
      VarsOfFlowMembers(x, f, pre);
      assert links == pre + [links[|links| - 1]];
    }
  }

  /** When every requested pair has a variable, one flow's variables are its links in order. */
  lemma {:induction false} VarsOfFlowDense(x: Assignment, f: FlowId, links: seq<LinkId>)
    requires forall l :: l in links ==> (f, l) in x
    ensures VarsOfFlow(x, f, links) == seq(|links|, i requires 0 <= i < |links| => (f, links[i]))
  {
    if links != [] {
      var pre := links[..|links| - 1];
      VarsOfFlowDense(x, f, pre);
    }
  }

  // ---------------------------------------------------------------------------
  // Counting selected variables

  /** LinearExpr::Sum over a vector of variables: how many of them are set. */
  function SumSelected(x: Assignment, vars: seq<(FlowId, LinkId)>): nat
  {
    if vars == [] then 0
    else SumSelected(x, vars[..|vars| - 1]) + (if vars[|vars| - 1] in x && x[vars[|vars| - 1]] then 1 else 0)
  }

  /** How many of the given links flow f is routed through. */
  function CountSel(x: Assignment, f: FlowId, links: seq<LinkId>): nat
  {
    if links == [] then 0
    else CountSel(x, f, links[..|links| - 1]) + (if Sel(x, f, links[|links| - 1]) then 1 else 0)
  }

  /** Summing one flow's variables counts its selected links among those asked for. */
  lemma {:induction false} SumOfFlowVars(x: Assignment, f: FlowId, links: seq<LinkId>)
    ensures SumSelected(x, FlowLinkVars(x, [f], links)) == CountSel(x, f, links)
  {
    assert [f][..0] == [];
    assert FlowLinkVars(x, [f], links) == VarsOfFlow(x, f, links);
    SumVarsOfFlow(x, f, links);
  }

  lemma {:induction false} SumVarsOfFlow(x: Assignment, f: FlowId, links: seq<LinkId>)
    ensures SumSelected(x, VarsOfFlow(x, f, links)) == CountSel(x, f, links)
  {
    if links != [] {
      var pre := links[..|links| - 1];
      var last := links[|links| - 1];
      SumVarsOfFlow(x, f, pre);
      if (f, last) in x {
        var v := VarsOfFlow(x, f, links);
        assert v == VarsOfFlow(x, f, pre) + [(f, last)];
        assert v[..|v| - 1] == VarsOfFlow(x, f, pre);
        assert v[|v| - 1] == (f, last);
        assert SumSelected(x, v) == SumSelected(x, VarsOfFlow(x, f, pre)) + (if Sel(x, f, last) then 1 else 0);
      } else {
        assert VarsOfFlow(x, f, links) == VarsOfFlow(x, f, pre);
      }
    }
  }

  /** No selected link among them exactly when the count is zero. */
  lemma {:induction false} CountSelZero(x: Assignment, f: FlowId, links: seq<LinkId>)
    ensures CountSel(x, f, links) == 0 <==> forall l :: l in links ==> !Sel(x, f, l)
  {
    if links != [] {
      var pre := links[..|links| - 1];
      CountSelZero(x, f, pre);
      assert links == pre + [links[|links| - 1]];
    }
  }

  /** Two different selected links among them make the count at least two. */
  lemma {:induction false} CountSelTwo(x: Assignment, f: FlowId, links: seq<LinkId>, a: LinkId, b: LinkId)
    requires a in links && b in links && a != b && Sel(x, f, a) && Sel(x, f, b)
    ensures CountSel(x, f, links) >= 2
  {
    var pre := links[..|links| - 1];
    var last := links[|links| - 1];
    assert links == pre + [last];
    if last == a {
      assert b in pre;
      CountSelZero(x, f, pre);
    } else if last == b {
      assert a in pre;
      CountSelZero(x, f, pre);
    } else {
      assert a in pre && b in pre;
      CountSelTwo(x, f, pre, a, b);
    }
  }

  /** The ids of all links, as noc_model.get_noc_links().keys() lists them. */
  function AllLinks(n: nat): (r: seq<LinkId>)
    ensures |r| == n && forall i :: 0 <= i < n ==> r[i] == i
  {
    seq(n, i requires 0 <= i < n => i)
  }

  // ---------------------------------------------------------------------------
  // forbid_illegal_turns

  /** For every illegal pair of consecutive links and every flow, the flow does not
      use both links. */
  predicate TurnsForbidden(x: Assignment, numFlows: nat, illegal: seq<(LinkId, LinkId)>)
  {
    forall t, f: FlowId :: 0 <= t < |illegal| && f < numFlows ==>
      !(Sel(x, f, illegal[t].0) && Sel(x, f, illegal[t].1))
  }

  // ---------------------------------------------------------------------------
  // create_congested_link_vars

  /** Σ_f rescaled_bw[f] · x[f, l]: the rescaled bandwidth routed over link l. */
  function LinkLoad(x: Assignment, flows: seq<TrafficFlow>, l: LinkId): int
  {
    if flows == [] then 0
    else
      var f := |flows| - 1;
      LinkLoad(x, flows[..f], l) + (if Sel(x, f, l) then flows[f].bandwidth else 0)
  }

  /** One indicator per link, forced false when the load fits the resolution and
      true when it exceeds it (two half-reified inequalities). */
  predicate CongestionHolds(x: Assignment, flows: seq<TrafficFlow>, numLinks: nat, resolution: int, congested: seq<bool>)
  {
    && |congested| == numLinks
    && forall l :: 0 <= l < numLinks ==>
         (!congested[l] ==> LinkLoad(x, flows, l) <= resolution)
         && (congested[l] ==> LinkLoad(x, flows, l) > resolution)
  }

  /** The two half-reified inequalities pin every indicator down: it is true exactly
      when the load exceeds the resolution. */
  lemma CongestionDetermined(x: Assignment, flows: seq<TrafficFlow>, numLinks: nat, resolution: int, congested: seq<bool>)
    ensures CongestionHolds(x, flows, numLinks, resolution, congested) <==>
      |congested| == numLinks && forall l :: 0 <= l < numLinks ==> (congested[l] <==> LinkLoad(x, flows, l) > resolution)
  {
  }

  // ---------------------------------------------------------------------------
  // add_continuity_constraints

  /** Selected links of flow f leaving router r. */
  function OutCount(noc: NocView, x: Assignment, f: FlowId, r: RouterId): nat
  {
    SumSelected(x, FlowLinkVars(x, [f], OutgoingLinks(noc.links, r)))
  }

  /** Selected links of flow f entering router r. */
  function InCount(noc: NocView, x: Assignment, f: FlowId, r: RouterId): nat
  {
    SumSelected(x, FlowLinkVars(x, [f], IncomingLinks(noc.links, r)))
  }

  /** Exactly one selected link leaves the source and exactly one enters the sink;
      every other router (visited through the id table, as the loop over routers
      converts each user id) has at most one selected link in, at most one out,
      and as many in as out. */
  predicate ContinuityHolds(noc: NocView, x: Assignment, f: FlowId, flow: TrafficFlow)
  {
    && OutCount(noc, x, f, flow.source) == 1
    && InCount(noc, x, f, flow.sink) == 1
    && forall k :: 0 <= k < |noc.routers| && noc.routers[k].userId in noc.idTable ==>
         var r := noc.idTable[noc.routers[k].userId];
         r != flow.source && r != flow.sink ==>
           InCount(noc, x, f, r) <= 1 && OutCount(noc, x, f, r) <= 1
           && InCount(noc, x, f, r) == OutCount(noc, x, f, r)
  }

  // ---------------------------------------------------------------------------
  // group_noc_links_based_on_direction and add_distance_constraints

  datatype Direction = Up | Down | Right | Left

  /** The direction of link l from the grid positions of its routers; None when the
      link is neither vertical nor horizontal (the source asserts this never happens). */
  function LinkDirection(noc: NocView, l: LinkId): Option<Direction>
    requires l < |noc.links| && LinksWithin(noc.links, |noc.routers|)
  {
    var src := noc.routers[noc.links[l].source];
    var dst := noc.routers[noc.links[l].sink];
    if src.gridX != dst.gridX && src.gridY != dst.gridY then None
    else if src.gridX == dst.gridX then (if dst.gridY > src.gridY then Some(Up) else Some(Down))
    else if dst.gridX > src.gridX then Some(Right)
    else Some(Left)
  }

  /** Every link is vertical or horizontal, so the grouping by direction goes through. */
  predicate AxisAligned(noc: NocView)
    requires LinksWithin(noc.links, |noc.routers|)
  {
    forall l :: 0 <= l < |noc.links| ==> LinkDirection(noc, l).Some?
  }

  datatype DirectionGroups = DirectionGroups(up: seq<LinkId>, down: seq<LinkId>, right: seq<LinkId>, left: seq<LinkId>)

  /** The group a direction selects. */
  function Group(g: DirectionGroups, d: Direction): seq<LinkId>
  {
    match d
    case Up => g.up
    case Down => g.down
    case Right => g.right
    case Left => g.left
  }

  /** The first n links sorted into their direction groups, in link-id order. */
  function Grouped(noc: NocView, n: nat): DirectionGroups
    requires n <= |noc.links| && LinksWithin(noc.links, |noc.routers|)
  {
    if n == 0 then DirectionGroups([], [], [], [])
    else
      var g := Grouped(noc, n - 1);
      var l := n - 1;
      match LinkDirection(noc, l)
      case None => g
      case Some(Up) => g.(up := g.up + [l])
      case Some(Down) => g.(down := g.down + [l])
      case Some(Right) => g.(right := g.right + [l])
      case Some(Left) => g.(left := g.left + [l])
  }

  /** Sorting one more link appends it to the group of its direction only. */
  lemma GroupedStep(noc: NocView, n: nat, d: Direction)
    requires 0 < n <= |noc.links| && LinksWithin(noc.links, |noc.routers|)
    ensures Group(Grouped(noc, n), d)
      == Group(Grouped(noc, n - 1), d) + (if LinkDirection(noc, n - 1) == Some(d) then [n - 1] else [])
  {
  }

  /** Every axis-aligned link among the first n is in the group of its direction and
      in no other, and each group lists its links in increasing id order. */
  lemma GroupedPartition(noc: NocView, n: nat, d: Direction)
    requires n <= |noc.links| && LinksWithin(noc.links, |noc.routers|)
    ensures forall l: LinkId :: l in Group(Grouped(noc, n), d) <==> l < n && LinkDirection(noc, l) == Some(d)
    ensures Increasing(Group(Grouped(noc, n), d))
  {
    GroupedMembers(noc, n, d);
    GroupedIncreasing(noc, n, d);
  }

  lemma {:induction false} GroupedMembers(noc: NocView, n: nat, d: Direction)
    requires n <= |noc.links| && LinksWithin(noc.links, |noc.routers|)
    ensures forall l: LinkId :: l in Group(Grouped(noc, n), d) <==> l < n && LinkDirection(noc, l) == Some(d)
  {
    if n > 0 {
      GroupedMembers(noc, n - 1, d);
      GroupedStep(noc, n, d);
      var pre := Group(Grouped(noc, n - 1), d);
      var s := Group(Grouped(noc, n), d);
      var mine := LinkDirection(noc, n - 1) == Some(d);
      forall l: LinkId
        ensures l in s <==> l < n && LinkDirection(noc, l) == Some(d)
      {
        if mine {
          assert l in s <==> l in pre || l == n - 1;
        } else {
          assert s == pre;
        }
      }
    }
  }

  /** The groups of the first n links hold only links below n. */
  lemma {:induction false} GroupedBelow(noc: NocView, n: nat, d: Direction)
    requires n <= |noc.links| && LinksWithin(noc.links, |noc.routers|)
    ensures forall i :: 0 <= i < |Group(Grouped(noc, n), d)| ==> Group(Grouped(noc, n), d)[i] < n
  {
    if n > 0 {
      GroupedBelow(noc, n - 1, d);
      GroupedStep(noc, n, d);
      var pre := Group(Grouped(noc, n - 1), d);
      var s := Group(Grouped(noc, n), d);
      forall i | 0 <= i < |s| ensures s[i] < n {
        if i < |pre| {
          assert s[i] == pre[i];
        }
      }
    }
  }

  lemma {:induction false} GroupedIncreasing(noc: NocView, n: nat, d: Direction)
    requires n <= |noc.links| && LinksWithin(noc.links, |noc.routers|)
    ensures Increasing(Group(Grouped(noc, n), d))
  {
    if n > 0 {
      GroupedIncreasing(noc, n - 1, d);
      GroupedBelow(noc, n - 1, d);
      GroupedStep(noc, n, d);
      var pre := Group(Grouped(noc, n - 1), d);
      var s := Group(Grouped(noc, n), d);
      if LinkDirection(noc, n - 1) == Some(d) {
        forall i, j | 0 <= i < j < |s|
          ensures s[i] < s[j]
        {
          assert s[i] == pre[i];
          if j < |pre| {
            assert s[j] == pre[j];
          }
        }
      }
    }
  }

  /** Strictly increasing link ids. */
  predicate Increasing(s: seq<LinkId>)
  {
    forall i, j :: 0 <= i < j < |s| ==> s[i] < s[j]
  }

  /** group_noc_links_based_on_direction: append every link to the vector of its
      direction, or fail on the first link that is neither vertical nor horizontal. */
  method GroupLinksByDirection(noc: NocView) returns (r: Result<DirectionGroups, LinkId>)
    requires LinksWithin(noc.links, |noc.routers|)
    ensures r.Ok? ==> r.value == Grouped(noc, |noc.links|)
    ensures r.Ok? <==> AxisAligned(noc)
    ensures r.Err? ==> r.error < |noc.links| && LinkDirection(noc, r.error).None?
  {
    var up: seq<LinkId> := [];
    var down: seq<LinkId> := [];
    var right: seq<LinkId> := [];
    var left: seq<LinkId> := [];
    for l := 0 to |noc.links|
      invariant DirectionGroups(up, down, right, left) == Grouped(noc, l)
      invariant forall k :: 0 <= k < l ==> LinkDirection(noc, k).Some?
    {
      var src := noc.routers[noc.links[l].source];
      var dst := noc.routers[noc.links[l].sink];
      if !(src.gridX == dst.gridX || src.gridY == dst.gridY) {
        assert LinkDirection(noc, l).None?;
        return Err(l);
      }
      if src.gridX == dst.gridX {
        if dst.gridY > src.gridY {
          up := up + [l];
        } else {
          down := down + [l];
        }
      } else {
        if dst.gridX > src.gridX {
          right := right + [l];
        } else {
          left := left + [l];
        }
      }
    }
    return Ok(DirectionGroups(up, down, right, left));
  }

  /** Links to the right minus links to the left equals the horizontal displacement,
      and links up minus links down the vertical one. */
  predicate DistanceHolds(x: Assignment, f: FlowId, flow: TrafficFlow, g: DirectionGroups)
  {
    && SumSelected(x, FlowLinkVars(x, [f], g.right)) - SumSelected(x, FlowLinkVars(x, [f], g.left)) == flow.deltaX
    && SumSelected(x, FlowLinkVars(x, [f], g.up)) - SumSelected(x, FlowLinkVars(x, [f], g.down)) == flow.deltaY
  }

  /** How many of the first n links point in direction d and carry flow f. */
  function DirCount(noc: NocView, x: Assignment, f: FlowId, d: Direction, n: nat): nat
    requires n <= |noc.links| && LinksWithin(noc.links, |noc.routers|)
  {
    if n == 0 then 0
    else DirCount(noc, x, f, d, n - 1) + (if LinkDirection(noc, n - 1) == Some(d) && Sel(x, f, n - 1) then 1 else 0)
  }

  /** Counting flow f's links in a direction group counts its links of that direction. */
  lemma {:induction false} GroupCount(noc: NocView, x: Assignment, f: FlowId, d: Direction, n: nat)
    requires n <= |noc.links| && LinksWithin(noc.links, |noc.routers|)
    ensures CountSel(x, f, Group(Grouped(noc, n), d)) == DirCount(noc, x, f, d, n)
  {
    if n > 0 {
      GroupCount(noc, x, f, d, n - 1);
      GroupedStep(noc, n, d);
      var pre := Group(Grouped(noc, n - 1), d);
      if LinkDirection(noc, n - 1) == Some(d) {
        CountSelAppend(x, f, pre, n - 1);
      } else {
        assert Group(Grouped(noc, n), d) == pre;
      }
    }
  }

  /** Appending a link adds one to the count exactly when the flow selects it. */
  lemma CountSelAppend(x: Assignment, f: FlowId, links: seq<LinkId>, l: LinkId)
    ensures CountSel(x, f, links + [l]) == CountSel(x, f, links) + (if Sel(x, f, l) then 1 else 0)
  {
    var s := links + [l];
    assert s[..|s| - 1] == links;
  }

  /** With the groups built from every link, the distance constraints say that flow
      f's links to the right minus those to the left is the horizontal displacement,
      and its links up minus those down the vertical one. */
  lemma DistanceByDirection(noc: NocView, x: Assignment, f: FlowId, flow: TrafficFlow)
    requires LinksWithin(noc.links, |noc.routers|)
    ensures var n := |noc.links|;
      DistanceHolds(x, f, flow, Grouped(noc, n)) <==>
        && DirCount(noc, x, f, Right, n) - DirCount(noc, x, f, Left, n) == flow.deltaX
        && DirCount(noc, x, f, Up, n) - DirCount(noc, x, f, Down, n) == flow.deltaY
  {
    var n := |noc.links|;
    var g := Grouped(noc, n);
    forall d | true
      ensures SumSelected(x, FlowLinkVars(x, [f], Group(g, d))) == DirCount(noc, x, f, d, n)
    {
      SumOfFlowVars(x, f, Group(g, d));
      GroupCount(noc, x, f, d, n);
    }
    assert g.right == Group(g, Right) && g.left == Group(g, Left);
    assert g.up == Group(g, Up) && g.down == Group(g, Down);
  }

  // ---------------------------------------------------------------------------
  // constrain_latency_overrun_vars

  /** Links flow f is routed through, summed over every link of the NoC. */
  function SelectedCount(x: Assignment, f: FlowId, numLinks: nat): nat
  {
    SumSelected(x, FlowLinkVars(x, [f], AllLinks(numLinks)))
  }

  function Max(a: int, b: int): int
  {
    if a >= b then a else b
  }

  /** The overrun variable lies in its domain [0, 20] and equals
      max(selected links - n_max, 0). */
  predicate OverrunHolds(x: Assignment, f: FlowId, flow: TrafficFlow, numLinks: nat, v: int)
  {
    0 <= v <= 20 && v == Max(SelectedCount(x, f, numLinks) - flow.hopBudget, 0)
  }

  /** The fixed domain [0, 20] makes the formulation infeasible for a flow that would
      need to exceed its hop budget by more than 20 links. */
  lemma OverrunSatisfiable(x: Assignment, f: FlowId, flow: TrafficFlow, numLinks: nat)
    ensures (exists v :: OverrunHolds(x, f, flow, numLinks, v)) <==> SelectedCount(x, f, numLinks) - flow.hopBudget <= 20
  {
    var c := SelectedCount(x, f, numLinks) - flow.hopBudget;
    if c <= 20 {
      assert OverrunHolds(x, f, flow, numLinks, Max(c, 0));
    }
  }

  // ---------------------------------------------------------------------------
  // The whole formulation and its objective

  /** The overrun variable of each flow, present exactly for latency-constrained flows. */
  predicate OverrunVarsShape(flows: seq<TrafficFlow>, overrun: seq<Option<int>>)
  {
    |overrun| == |flows| && forall f :: 0 <= f < |flows| ==> (overrun[f].Some? <==> LatencyConstrained(flows[f]))
  }

  /** Everything a solution reported as FEASIBLE or OPTIMAL satisfies. */
  ghost predicate Formulation(
    noc: NocView, flows: seq<TrafficFlow>, illegal: seq<(LinkId, LinkId)>, resolution: int,
    x: Assignment, overrun: seq<Option<int>>, congested: seq<bool>)
  {
    && LinksWithin(noc.links, |noc.routers|)
    && AxisAligned(noc)
    && Dense(x, |flows|, |noc.links|)
    && OverrunVarsShape(flows, overrun)
    && (forall f :: 0 <= f < |flows| && overrun[f].Some? ==> OverrunHolds(x, f, flows[f], |noc.links|, overrun[f].value))
    && TurnsForbidden(x, |flows|, illegal)
    && CongestionHolds(x, flows, |noc.links|, resolution, congested)
    && (forall f :: 0 <= f < |flows| ==> ContinuityHolds(noc, x, f, flows[f]))
    && (forall f :: 0 <= f < |flows| ==> DistanceHolds(x, f, flows[f], Grouped(noc, |noc.links|)))
  }

  /** Σ of the overrun variables that exist. */
  function OverrunSum(overrun: seq<Option<int>>): int
  {
    if overrun == [] then 0
    else OverrunSum(overrun[..|overrun| - 1]) + (match overrun[|overrun| - 1] case Some(v) => v case None => 0)
  }

  /** Σ over links of the rescaled bandwidth routed over them. */
  function AggregateBandwidth(x: Assignment, flows: seq<TrafficFlow>, numLinks: nat): int
  {
    if numLinks == 0 then 0
    else AggregateBandwidth(x, flows, numLinks - 1) + LinkLoad(x, flows, numLinks - 1)
  }

  /** How many links are congested. */
  function CongestedCount(congested: seq<bool>): nat
  {
    if congested == [] then 0
    else CongestedCount(congested[..|congested| - 1]) + (if congested[|congested| - 1] then 1 else 0)
  }

  const OverrunWeight: int := 1024
  const CongestionWeight: int := 1024 * 16

  /** The minimised objective: 1024 per unit of latency overrun, one per unit of
      routed rescaled bandwidth, and 16384 per congested link. */
  function Objective(x: Assignment, flows: seq<TrafficFlow>, numLinks: nat, overrun: seq<Option<int>>, congested: seq<bool>): int
  {
    OverrunWeight * OverrunSum(overrun) + AggregateBandwidth(x, flows, numLinks) + CongestionWeight * CongestedCount(congested)
  }

  /** One fewer congested link outweighs up to fifteen extra units of latency overrun
      when routed bandwidth is the same: the weights rank congestion above latency. */
  lemma CongestionOutweighsOverrun(
    x1: Assignment, x2: Assignment, flows: seq<TrafficFlow>, numLinks: nat,
    o1: seq<Option<int>>, o2: seq<Option<int>>, c1: seq<bool>, c2: seq<bool>)
    requires AggregateBandwidth(x1, flows, numLinks) == AggregateBandwidth(x2, flows, numLinks)
    requires CongestedCount(c1) < CongestedCount(c2)
    requires OverrunSum(o1) <= OverrunSum(o2) + 15
    ensures Objective(x1, flows, numLinks, o1, c1) < Objective(x2, flows, numLinks, o2, c2)
  {
    WeightedLess(OverrunSum(o1), OverrunSum(o2), AggregateBandwidth(x1, flows, numLinks),
                 AggregateBandwidth(x2, flows, numLinks), CongestedCount(c1), CongestedCount(c2));
  }

  /** One fewer congested link outweighs any saving in routed bandwidth smaller than 16384. */
  lemma CongestionOutweighsBandwidth(
    x1: Assignment, x2: Assignment, flows: seq<TrafficFlow>, numLinks: nat,
    o1: seq<Option<int>>, o2: seq<Option<int>>, c1: seq<bool>, c2: seq<bool>)
    requires OverrunSum(o1) == OverrunSum(o2)
    requires CongestedCount(c1) < CongestedCount(c2)
    requires AggregateBandwidth(x1, flows, numLinks) < AggregateBandwidth(x2, flows, numLinks) + CongestionWeight
    ensures Objective(x1, flows, numLinks, o1, c1) < Objective(x2, flows, numLinks, o2, c2)
  {
    WeightedLess(OverrunSum(o1), OverrunSum(o2), AggregateBandwidth(x1, flows, numLinks),
                 AggregateBandwidth(x2, flows, numLinks), CongestedCount(c1), CongestedCount(c2));
  }

  /** The weighted sums of two objective values, as plain integers. */
  lemma WeightedLess(s1: int, s2: int, b1: int, b2: int, k1: int, k2: int)
    requires k1 < k2
    requires OverrunWeight * s1 + b1 <= OverrunWeight * s2 + b2 + 16383
    ensures OverrunWeight * s1 + b1 + CongestionWeight * k1 < OverrunWeight * s2 + b2 + CongestionWeight * k2
  {
    assert CongestionWeight * k2 - CongestionWeight * k1 == CongestionWeight * (k2 - k1);
  }
}
