/**
 * The in-memory NoC model that the topology builder fills in: routers with
 * the grid position of their tile, directed links between dense router
 * indices, and the table that translates a user-facing router id into its
 * dense index. Only the operations the builder calls are modelled.
 */
module NocStorageModel {
  import opened Common

  /** Dense indices: a link id is a position in the link list, a router id a position
      in the router list. */
  type LinkId = nat
  type RouterId = nat

  /** A router: the id the architecture file gave it and the grid position of the
      bottom-left cell of its tile. Its dense index is its position in the router list. */
  datatype NocRouter = NocRouter(userId: int, gridX: int, gridY: int)

  /** A directed link between two routers, named by their dense indices.
      Its link id is its position in the link list. */
  datatype NocLink = NocLink(source: RouterId, sink: RouterId)

  /** Every link joins two routers that exist. */
  predicate LinksWithin(links: seq<NocLink>, numRouters: nat)
  {
    forall k :: 0 <= k < |links| ==> links[k].source < numRouters && links[k].sink < numRouters
  }

  /** The contents of the storage as a value: what the routing formulation reads. */
  datatype NocView = NocView(routers: seq<NocRouter>, links: seq<NocLink>, idTable: map<int, nat>)

  /** The id table names existing routers by their user id, every router is
      reachable through it, and every link joins existing routers. */
  predicate ViewValid(v: NocView)
  {
    && (forall id :: id in v.idTable ==> v.idTable[id] < |v.routers| && v.routers[v.idTable[id]].userId == id)
    && (forall k :: 0 <= k < |v.routers| ==> v.routers[k].userId in v.idTable)
    && LinksWithin(v.links, |v.routers|)
  }

  /** The storage after add_router: the router is appended, and its dense index is
      entered in the id table unless the user id is already there (the first router
      with an id keeps it). */
  function WithRouter(v: NocView, id: int, gridX: int, gridY: int): NocView
  {
    NocView(v.routers + [NocRouter(id, gridX, gridY)], v.links,
            if id in v.idTable then v.idTable else v.idTable[id := |v.routers|])
  }

  /** The storage after add_link: the link is appended. */
  function WithLink(v: NocView, source: RouterId, sink: RouterId): NocView
  {
    v.(links := v.links + [NocLink(source, sink)])
  }

  /** Adding a router keeps the storage consistent, whatever its user id. */
  lemma WithRouterValid(v: NocView, id: int, gridX: int, gridY: int)
    requires ViewValid(v)
    ensures ViewValid(WithRouter(v, id, gridX, gridY))
  {
    var w := WithRouter(v, id, gridX, gridY);
    forall k | 0 <= k < |w.routers|
      ensures w.routers[k].userId in w.idTable
    {
      if k < |v.routers| {
        assert w.routers[k] == v.routers[k];
      }
    }
  }

  /** Links leaving router r, in link-id order (the storage appends to a router's
      outgoing list as links are added). */
  function OutgoingLinks(links: seq<NocLink>, r: nat): (ls: seq<nat>)
    ensures forall l: nat :: l in ls <==> l < |links| && links[l].source == r
    ensures forall i, j :: 0 <= i < j < |ls| ==> ls[i] < ls[j]
  {
    if links == [] then []
    else
      var last := |links| - 1;
      var pre := OutgoingLinks(links[..last], r);
      assert forall i :: 0 <= i < |pre| ==> pre[i] < last by {
        forall i | 0 <= i < |pre|
          ensures pre[i] < last
        {
          assert pre[i] in pre;
        }
      }
      pre + (if links[last].source == r then [last] else [])
  }

  /** Links entering router r, in link-id order. */
  function IncomingLinks(links: seq<NocLink>, r: nat): (ls: seq<nat>)
    ensures forall l: nat :: l in ls <==> l < |links| && links[l].sink == r
    ensures forall i, j :: 0 <= i < j < |ls| ==> ls[i] < ls[j]
  {
    if links == [] then []
    else
      var last := |links| - 1;
      var pre := IncomingLinks(links[..last], r);
      assert forall i :: 0 <= i < |pre| ==> pre[i] < last by {
        forall i | 0 <= i < |pre|
          ensures pre[i] < last
        {
          assert pre[i] in pre;
        }
      }
      pre + (if links[last].sink == r then [last] else [])
  }

  class NocStorage {
    var routers: seq<NocRouter>
    var links: seq<NocLink>
    var idTable: map<int, nat>
    var built: bool

    function View(): NocView
      reads this
    {
      NocView(routers, links, idTable)
    }

    ghost predicate Valid()
      reads this
    {
      ViewValid(View())
    }

    constructor ()
      ensures Valid() && routers == [] && links == [] && idTable == map[] && !built
    {
      routers, links, idTable, built := [], [], map[], false;
    }

    /** clear_noc: forget every router and link. */
    method Clear()
      modifies this
      ensures Valid() && routers == [] && links == [] && idTable == map[] && !built
    {
      routers, links, idTable, built := [], [], map[], false;
    }

    /** add_router: append a router; its dense index is entered in the id table
        unless the user id is already there (the first router with an id keeps it). */
    method AddRouter(id: int, gridX: int, gridY: int)
      requires Valid()
      modifies this
      ensures Valid()
      ensures View() == WithRouter(old(View()), id, gridX, gridY) && built == old(built)
    {
      WithRouterValid(View(), id, gridX, gridY);
      if id !in idTable {
        idTable := idTable[id := |routers|];
      }
      routers := routers + [NocRouter(id, gridX, gridY)];
    }

    /** convert_router_id: the dense index of a user id, or None when no router has it
        (the storage reports that as a fatal error). */
    function ConvertRouterId(id: int): (r: Option<nat>)
      reads this
      requires Valid()
      ensures r.Some? ==> r.value < |routers| && routers[r.value].userId == id
      ensures r.None? ==> forall k :: 0 <= k < |routers| ==> routers[k].userId != id
    {
      if id in idTable then Some(idTable[id]) else None
    }

    /** add_link: append a directed link between two existing routers. */
    method AddLink(source: nat, sink: nat)
      requires Valid() && source < |routers| && sink < |routers|
      modifies this
      ensures Valid()
      ensures View() == WithLink(old(View()), source, sink) && built == old(built)
    {
      links := links + [NocLink(source, sink)];
    }

    /** finished_building_noc: mark the model as complete. */
    method FinishBuilding()
      modifies this
      ensures built
      ensures routers == old(routers) && links == old(links) && idTable == old(idTable)
    {
      built := true;
    }
  }
}
