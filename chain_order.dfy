/**
 * sort_noc_links_in_chain_order: put the links one flow uses into walking
 * order. A first pass records, for every router, the last link leaving it
 * (src_map) and the set of routers some link enters (is_dst); the start is the
 * first link whose source no link enters; the walk then follows src_map from
 * sink to source until it finds no continuation. The result must have as many
 * links as the input.
 */
module ChainOrder {
  import opened Common
  import opened NocStorageModel

  /** Every link id names a link of the topology. */
  predicate LinksKnown(noc: seq<NocLink>, links: seq<LinkId>)
  {
    forall k :: 0 <= k < |links| ==> links[k] < |noc|
  }

  /** src_map after the first pass: a later link with the same source overwrites an earlier one. */
  function SourceMap(noc: seq<NocLink>, links: seq<LinkId>): (m: map<RouterId, LinkId>)
    requires LinksKnown(noc, links)
    ensures MapKnown(noc, m)
  {
    if links == [] then map[]
    else
      var last := links[|links| - 1];
      SourceMap(noc, links[..|links| - 1])[noc[last].source := last]
  }

  /** src_map sends a router to an input link leaving it, and knows every router an input link leaves. */
  lemma {:induction false} SourceMapFacts(noc: seq<NocLink>, links: seq<LinkId>)
    requires LinksKnown(noc, links)
    ensures forall r :: r in SourceMap(noc, links) ==> SourceMap(noc, links)[r] in links && noc[SourceMap(noc, links)[r]].source == r
    ensures forall k :: 0 <= k < |links| ==> noc[links[k]].source in SourceMap(noc, links)
  {
    if links != [] {
      var pre := links[..|links| - 1];
      SourceMapFacts(noc, pre);
      assert links == pre + [links[|links| - 1]];
    }
  }

  /** is_dst after the first pass: the routers some link enters. */
  function Sinks(noc: seq<NocLink>, links: seq<LinkId>): set<RouterId>
    requires LinksKnown(noc, links)
  {
    if links == [] then {}
    else Sinks(noc, links[..|links| - 1]) + {noc[links[|links| - 1]].sink}
  }

  lemma {:induction false} SinksFacts(noc: seq<NocLink>, links: seq<LinkId>)
    requires LinksKnown(noc, links)
    ensures forall k :: 0 <= k < |links| ==> noc[links[k]].sink in Sinks(noc, links)
    ensures forall r :: r in Sinks(noc, links) ==> exists k :: 0 <= k < |links| && noc[links[k]].sink == r
  {
    if links != [] {
      var pre := links[..|links| - 1];
      SinksFacts(noc, pre);
      assert links == pre + [links[|links| - 1]];
      forall r | r in Sinks(noc, links) ensures exists k :: 0 <= k < |links| && noc[links[k]].sink == r {
        if r in Sinks(noc, pre) {
          var k :| 0 <= k < |pre| && noc[pre[k]].sink == r;
          assert links[k] == pre[k];
        } else {
          assert noc[links[|links| - 1]].sink == r;
        }
      }
    }
  }

  /** The first position at or after i whose link's source is not in dsts. */
  function FirstStart(noc: seq<NocLink>, links: seq<LinkId>, dsts: set<RouterId>, i: nat): (r: Option<nat>)
    requires LinksKnown(noc, links) && i <= |links|
    ensures r.Some? ==> i <= r.value < |links| && noc[links[r.value]].source !in dsts
    ensures r.Some? ==> forall k :: i <= k < r.value ==> noc[links[k]].source in dsts
    ensures r.None? ==> forall k :: i <= k < |links| ==> noc[links[k]].source in dsts
    decreases |links| - i
  {
    if i == |links| then None
    else if noc[links[i]].source !in dsts then Some(i)
    else FirstStart(noc, links, dsts, i + 1)
  }

  /** Values of src_map name links of the topology. */
  predicate MapKnown(noc: seq<NocLink>, m: map<RouterId, LinkId>)
  {
    forall r :: r in m ==> m[r] < |noc|
  }

  /** The walk from link cur, cut off after at most n links. */
  function Follow(noc: seq<NocLink>, m: map<RouterId, LinkId>, cur: LinkId, n: nat): seq<LinkId>
    requires cur < |noc| && MapKnown(noc, m)
    decreases n
  {
    if n == 0 then []
    else [cur] + (if noc[cur].sink in m then Follow(noc, m, m[noc[cur].sink], n - 1) else [])
  }

  /** Why the chain could not be rebuilt: no link qualifies as the start (the source then
      dereferences the end iterator), the walk outgrew the input (the source walks on for
      ever or fails its length assertion), or the walk ended with fewer links than the
      input (the length assertion fails). */
  datatype ChainError = NoStartLink | WalkTooLong | LengthMismatch

  /** The walk ends the sort: longer than the input means the source would never stop (or trip
      its length assertion), a different length trips the assertion. */
  function Outcome(w: seq<LinkId>, n: nat): Result<seq<LinkId>, ChainError>
  {
    if |w| > n then Err(WalkTooLong) else if |w| != n then Err(LengthMismatch) else Ok(w)
  }

  /** What sort_noc_links_in_chain_order computes. */
  function ChainSort(noc: seq<NocLink>, links: seq<LinkId>): Result<seq<LinkId>, ChainError>
    requires LinksKnown(noc, links)
  {
    if links == [] then Ok([])
    else
      var m := SourceMap(noc, links);
      match FirstStart(noc, links, Sinks(noc, links), 0)
      case None => Err(NoStartLink)
      case Some(s) =>
        Outcome(Follow(noc, m, links[s], |links| + 1), |links|)
  }

  /** Each link starts where the previous one ends. */
  predicate Chained(noc: seq<NocLink>, r: seq<LinkId>)
    requires LinksKnown(noc, r)
  {
    forall i :: 0 <= i < |r| - 1 ==> noc[r[i]].sink == noc[r[i + 1]].source
  }

  /** A chain that visits no router twice: the link sources are pairwise different
      and the final sink is none of them. */
  predicate SimpleChain(noc: seq<NocLink>, r: seq<LinkId>)
    requires LinksKnown(noc, r)
  {
    && Chained(noc, r)
    && (forall i, j :: 0 <= i < j < |r| ==> noc[r[i]].source != noc[r[j]].source)
    && (forall i :: 0 <= i < |r| ==> noc[r[i]].source != noc[r[|r| - 1]].sink)
  }

  method SortInChainOrder(noc: seq<NocLink>, links: seq<LinkId>) returns (r: Result<seq<LinkId>, ChainError>)
    requires LinksKnown(noc, links)
    ensures r == ChainSort(noc, links)
  {
    if |links| == 0 {
      return Ok([]);
    }
    var srcMap: map<RouterId, LinkId> := map[];
    var isDst: set<RouterId> := {};
    for i := 0 to |links|
      invariant srcMap == SourceMap(noc, links[..i])
      invariant isDst == Sinks(noc, links[..i])
    {
      assert links[..i + 1][..i] == links[..i];
      srcMap := srcMap[noc[links[i]].source := links[i]];
      isDst := isDst + {noc[links[i]].sink};
    }
    assert links[..|links|] == links;

    var k := 0;
    while k < |links| && noc[links[k]].source in isDst
      invariant 0 <= k <= |links|
      invariant FirstStart(noc, links, isDst, k) == FirstStart(noc, links, isDst, 0)
    {
      k := k + 1;
    }
    if k == |links| {
      return Err(NoStartLink);
    }

    r := WalkChain(noc, srcMap, links[k], |links|);
  }

  /** The `while (true)` walk of sort_noc_links_in_chain_order, from link start over
      src_map, followed by the length assertion against the n input links. */
  method WalkChain(noc: seq<NocLink>, srcMap: map<RouterId, LinkId>, start: LinkId, n: nat)
    returns (r: Result<seq<LinkId>, ChainError>)
    requires start < |noc| && MapKnown(noc, srcMap)
    ensures r == Outcome(Follow(noc, srcMap, start, n + 1), n)
  {
    ghost var walk := Follow(noc, srcMap, start, n + 1);
    FollowShape(noc, srcMap, start, n + 1);
    var current: LinkId := start;
    var route: seq<LinkId> := [];
    while true
      invariant current < |noc| && |route| < |walk|
      invariant route == walk[..|route|] && current == walk[|route|]
      decreases n + 1 - |route|
    {
      route := route + [current];
      if |route| > n {
        assert route == walk;
        return Err(WalkTooLong);
      }
      var dst := noc[current].sink;
      if dst !in srcMap {
        assert route == walk;
        break;
      }
      current := srcMap[dst];
    }
    if |route| != n {
      return Err(LengthMismatch);
    }
    return Ok(route);
  }

  /** The walk starts at cur, takes at most n links of the topology, and stops early
      only where the last sink has no entry in src_map. */
  lemma {:induction false} FollowEnds(noc: seq<NocLink>, m: map<RouterId, LinkId>, cur: LinkId, n: nat)
    requires cur < |noc| && MapKnown(noc, m)
    ensures |Follow(noc, m, cur, n)| <= n
    ensures n > 0 ==> |Follow(noc, m, cur, n)| > 0 && Follow(noc, m, cur, n)[0] == cur
    ensures LinksKnown(noc, Follow(noc, m, cur, n))
    ensures 0 < |Follow(noc, m, cur, n)| < n ==> noc[Follow(noc, m, cur, n)[|Follow(noc, m, cur, n)| - 1]].sink !in m
    decreases n
  {
    if n > 0 && noc[cur].sink in m {
      var next := m[noc[cur].sink];
      FollowEnds(noc, m, next, n - 1);
      var w := Follow(noc, m, cur, n);
      var t := Follow(noc, m, next, n - 1);
      assert w == [cur] + t;
      if 0 < |w| < n {
        assert w[|w| - 1] == t[|t| - 1];
      }
    }
  }

  /** Each next link of w is the one src_map gives for the previous link's sink. */
  predicate FollowsMap(noc: seq<NocLink>, m: map<RouterId, LinkId>, w: seq<LinkId>)
    requires LinksKnown(noc, w)
  {
    forall i :: 0 <= i < |w| - 1 ==> noc[w[i]].sink in m && w[i + 1] == m[noc[w[i]].sink]
  }

  /** The walk moves from link to link along src_map. */
  lemma {:induction false} FollowSteps(noc: seq<NocLink>, m: map<RouterId, LinkId>, cur: LinkId, n: nat)
    requires cur < |noc| && MapKnown(noc, m)
    ensures LinksKnown(noc, Follow(noc, m, cur, n)) && FollowsMap(noc, m, Follow(noc, m, cur, n))
    decreases n
  {
    FollowEnds(noc, m, cur, n);
    if n > 0 && noc[cur].sink in m {
      var next := m[noc[cur].sink];
      FollowSteps(noc, m, next, n - 1);
      FollowEnds(noc, m, next, n - 1);
      var w := Follow(noc, m, cur, n);
      var t := Follow(noc, m, next, n - 1);
      assert w == [cur] + t;
      forall i | 0 <= i < |w| - 1
        ensures noc[w[i]].sink in m && w[i + 1] == m[noc[w[i]].sink]
      {
        if i > 0 {
          assert w[i] == t[i - 1] && w[i + 1] == t[i];
        }
      }
    }
  }

  /** The walk starts at cur, takes at most n links, and each next link is the one src_map
      gives for the previous link's sink; when it stops early, the last sink has no entry. */
  lemma FollowShape(noc: seq<NocLink>, m: map<RouterId, LinkId>, cur: LinkId, n: nat)
    requires cur < |noc| && MapKnown(noc, m)
    ensures var w := Follow(noc, m, cur, n);
      && |w| <= n
      && (n > 0 ==> |w| > 0 && w[0] == cur)
      && LinksKnown(noc, w)
      && (forall i :: 0 <= i < |w| - 1 ==> noc[w[i]].sink in m && w[i + 1] == m[noc[w[i]].sink])
      && (0 < |w| < n ==> noc[w[|w| - 1]].sink !in m)
  {
    FollowEnds(noc, m, cur, n);
    FollowSteps(noc, m, cur, n);
  }

  /** A walk that stopped on its own never repeats a link: a repeated link would make it
      repeat its whole continuation and so never stop. */
  lemma FollowNoRepeat(noc: seq<NocLink>, m: map<RouterId, LinkId>, cur: LinkId, n: nat)
    requires cur < |noc| && MapKnown(noc, m)
    requires |Follow(noc, m, cur, n)| < n
    ensures var w := Follow(noc, m, cur, n);
      forall i, j :: 0 <= i < j < |w| ==> w[i] != w[j]
  {
    var w := Follow(noc, m, cur, n);
    FollowEnds(noc, m, cur, n);
    FollowSteps(noc, m, cur, n);
    forall i, j | 0 <= i < j < |w|
      ensures w[i] != w[j]
    {
      if w[i] == w[j] {
        var d := 0;
        while j + d < |w| - 1
          invariant 0 <= d <= |w| - 1 - j
          invariant w[i + d] == w[j + d]
        {
          assert w[i + d + 1] == m[noc[w[i + d]].sink];
          assert w[j + d + 1] == m[noc[w[j + d]].sink];
          d := d + 1;
        }
        assert false;
      }
    }
  }

  /** src_map as the first pass leaves it: it maps each router to an input link leaving that
      router, and has an entry for every router an input link leaves. */
  predicate SourceMapOf(noc: seq<NocLink>, links: seq<LinkId>, m: map<RouterId, LinkId>)
    requires LinksKnown(noc, links)
  {
    && (forall r :: r in m ==> m[r] in links && m[r] < |noc| && noc[m[r]].source == r)
    && (forall k :: 0 <= k < |links| ==> noc[links[k]].source in m)
  }

  /** The walk over src_map stays among the input links and is chained. */
  lemma WalkInLinks(noc: seq<NocLink>, links: seq<LinkId>, m: map<RouterId, LinkId>, start: LinkId, n: nat)
    requires LinksKnown(noc, links) && SourceMapOf(noc, links, m) && start in links
    ensures MapKnown(noc, m)
    ensures var w := Follow(noc, m, start, n);
      && (forall i :: 0 <= i < |w| ==> w[i] in links)
      && LinksKnown(noc, w)
      && Chained(noc, w)
  {
    var w := Follow(noc, m, start, n);
    FollowShape(noc, m, start, n);
    forall i | 0 <= i < |w|
      ensures w[i] in links
    {
      if i > 0 {
        assert w[i] == m[noc[w[i - 1]].sink];
      }
    }
  }

  /** A walk from a link no input link enters, that stopped on its own, is a simple chain. */
  lemma WalkSimple(noc: seq<NocLink>, links: seq<LinkId>, m: map<RouterId, LinkId>, start: LinkId, n: nat)
    requires LinksKnown(noc, links) && SourceMapOf(noc, links, m) && start in links
    requires forall k :: 0 <= k < |links| ==> noc[links[k]].sink != noc[start].source
    requires MapKnown(noc, m) && |Follow(noc, m, start, n)| < n
    ensures var w := Follow(noc, m, start, n);
      LinksKnown(noc, w) && SimpleChain(noc, w)
  {
    var w := Follow(noc, m, start, n);
    WalkInLinks(noc, links, m, start, n);
    FollowShape(noc, m, start, n);
    FollowNoRepeat(noc, m, start, n);
    forall i, j | 0 <= i < j < |w|
      ensures noc[w[i]].source != noc[w[j]].source
    {
      assert noc[w[j]].source == noc[w[j - 1]].sink;
      if i > 0 {
        assert w[i] == m[noc[w[i - 1]].sink];
        assert w[j] == m[noc[w[j - 1]].sink];
      }
    }
    forall i | 0 <= i < |w|
      ensures noc[w[i]].source != noc[w[|w| - 1]].sink
    {
      assert noc[w[i]].source in m;
    }
  }

  lemma FirstPassFacts(noc: seq<NocLink>, links: seq<LinkId>)
    requires LinksKnown(noc, links)
    ensures SourceMapOf(noc, links, SourceMap(noc, links))
    ensures forall k :: 0 <= k < |links| ==> noc[links[k]].sink in Sinks(noc, links)
    ensures forall r :: r in Sinks(noc, links) ==> exists k :: 0 <= k < |links| && noc[links[k]].sink == r
  {
    SourceMapFacts(noc, links);
    SinksFacts(noc, links);
  }

  /** A successful sort returns every input link once, in an order that is a simple chain. */
  lemma ChainSortSound(noc: seq<NocLink>, links: seq<LinkId>)
    requires LinksKnown(noc, links)
    ensures ChainSort(noc, links).Ok? ==>
      var r := ChainSort(noc, links).value;
      && |r| == |links|
      && (forall i :: 0 <= i < |r| ==> r[i] in links)
      && LinksKnown(noc, r)
      && SimpleChain(noc, r)
      && (Distinct(links) ==> multiset(r) == multiset(links))
  {
    if links != [] && ChainSort(noc, links).Ok? {
      var m := SourceMap(noc, links);
      var s := FirstStart(noc, links, Sinks(noc, links), 0).value;
      var w := Follow(noc, m, links[s], |links| + 1);
      assert ChainSort(noc, links).value == w;
      FirstPassFacts(noc, links);
      WalkInLinks(noc, links, m, links[s], |links| + 1);
      WalkSimple(noc, links, m, links[s], |links| + 1);
      if Distinct(links) {
        assert Distinct(w) by {
          FollowNoRepeat(noc, m, links[s], |links| + 1);
        }
        DistinctSameLengthIsPermutation(w, links);
      }
    }
  }

  /** A successful sort keeps the number of links. */
  lemma ChainSortLength(noc: seq<NocLink>, links: seq<LinkId>)
    requires LinksKnown(noc, links) && ChainSort(noc, links).Ok?
    ensures |ChainSort(noc, links).value| == |links|
  {
    ChainSortSound(noc, links);
  }

  /** A successful sort starts at a link whose source no input link enters and ends
      at a link whose sink no input link leaves. */
  lemma ChainSortEnds(noc: seq<NocLink>, links: seq<LinkId>)
    requires LinksKnown(noc, links)
    ensures ChainSort(noc, links).Ok? && links != [] ==>
      var r := ChainSort(noc, links).value;
      && r != [] && r[0] < |noc| && r[|r| - 1] < |noc|
      && (forall k :: 0 <= k < |links| ==> noc[links[k]].sink != noc[r[0]].source)
      && (forall k :: 0 <= k < |links| ==> noc[links[k]].source != noc[r[|r| - 1]].sink)
  {
    if links != [] && ChainSort(noc, links).Ok? {
      var m := SourceMap(noc, links);
      var s := FirstStart(noc, links, Sinks(noc, links), 0).value;
      var w := Follow(noc, m, links[s], |links| + 1);
      assert ChainSort(noc, links).value == w;
      FirstPassFacts(noc, links);
      FollowShape(noc, m, links[s], |links| + 1);
    }
  }

  /** Over a map that sends each source of a simple chain to its link, the walk from link i
      retraces the rest of the chain and then stops. */
  lemma {:induction false} FollowAlong(noc: seq<NocLink>, m: map<RouterId, LinkId>, p: seq<LinkId>, i: nat)
    requires LinksKnown(noc, p) && Chained(noc, p) && i < |p| && MapKnown(noc, m)
    requires forall t :: 0 <= t < |p| ==> noc[p[t]].source in m && m[noc[p[t]].source] == p[t]
    requires noc[p[|p| - 1]].sink !in m
    ensures Follow(noc, m, p[i], |p| - i + 1) == p[i..]
    decreases |p| - i
  {
    var s := noc[p[i]].sink;
    if i + 1 < |p| {
      assert s in m && m[s] == p[i + 1] by {
        assert s == noc[p[i + 1]].source;
      }
      assert Follow(noc, m, p[i + 1], |p| - (i + 1) + 1) == p[i + 1..] by {
        FollowAlong(noc, m, p, i + 1);
      }
      calc {
        Follow(noc, m, p[i], |p| - i + 1);
        [p[i]] + Follow(noc, m, p[i + 1], |p| - (i + 1) + 1);
        [p[i]] + p[i + 1..];
        p[i..];
      }
    } else {
      assert s !in m;
      assert p[i..] == [p[i]];
    }
  }

  /** Two link lists with the same multiset hold the same links. */
  lemma SameLinks(noc: seq<NocLink>, links: seq<LinkId>, p: seq<LinkId>)
    requires LinksKnown(noc, p) && multiset(links) == multiset(p)
    ensures |links| == |p| && LinksKnown(noc, links)
    ensures forall x :: x in links <==> x in p
  {
    forall x
      ensures x in links <==> x in p
    {
      assert x in links <==> x in multiset(links);
      assert x in p <==> x in multiset(p);
    }
    assert |links| == |multiset(links)| == |p|;
    forall k | 0 <= k < |links|
      ensures links[k] < |noc|
    {
      assert links[k] in p;
    }
  }

  /** On an arrangement of a simple chain, src_map sends each source to the chain link
      leaving it and has no other entries. */
  lemma SourceMapOnChain(noc: seq<NocLink>, links: seq<LinkId>, p: seq<LinkId>)
    requires LinksKnown(noc, p) && SimpleChain(noc, p)
    requires LinksKnown(noc, links) && forall x :: x in links <==> x in p
    ensures var m := SourceMap(noc, links);
      && (forall t :: 0 <= t < |p| ==> noc[p[t]].source in m && m[noc[p[t]].source] == p[t])
      && (p != [] ==> noc[p[|p| - 1]].sink !in m)
  {
    var m := SourceMap(noc, links);
    SourceMapFacts(noc, links);
    forall t | 0 <= t < |p|
      ensures noc[p[t]].source in m && m[noc[p[t]].source] == p[t]
    {
      assert p[t] in links;
      var k :| 0 <= k < |links| && links[k] == p[t];
      var u :| 0 <= u < |p| && p[u] == m[noc[p[t]].source];
      assert noc[p[u]].source == noc[p[t]].source;
    }
    if p != [] {
      forall r | r in m
        ensures r != noc[p[|p| - 1]].sink
      {
        var u :| 0 <= u < |p| && p[u] == m[r];
      }
    }
  }

  /** On an arrangement of a simple chain, the start link found is the chain's first link. */
  lemma StartOnChain(noc: seq<NocLink>, links: seq<LinkId>, p: seq<LinkId>)
    requires LinksKnown(noc, p) && p != [] && SimpleChain(noc, p)
    requires LinksKnown(noc, links) && forall x :: x in links <==> x in p
    ensures var f := FirstStart(noc, links, Sinks(noc, links), 0);
      f.Some? && links[f.value] == p[0]
  {
    var dsts := Sinks(noc, links);
    SinksFacts(noc, links);
    forall r | r in dsts
      ensures r != noc[p[0]].source
    {
      var k :| 0 <= k < |links| && noc[links[k]].sink == r;
      assert links[k] in p;
      var t :| 0 <= t < |p| && p[t] == links[k];
      if t + 1 < |p| {
        assert noc[p[t]].sink == noc[p[t + 1]].source;
      }
    }
    forall t | 0 < t < |p|
      ensures noc[p[t]].source in dsts
    {
      assert noc[p[t - 1]].sink == noc[p[t]].source;
      assert p[t - 1] in links;
      var k :| 0 <= k < |links| && links[k] == p[t - 1];
    }
    assert p[0] in links;
    var k0 :| 0 <= k0 < |links| && links[k0] == p[0];
    assert noc[links[k0]].source !in dsts;
    var s := FirstStart(noc, links, dsts, 0).value;
    assert links[s] in p;
    var t :| 0 <= t < |p| && p[t] == links[s];
  }

  /** Any arrangement of the links of a simple chain is sorted back into that chain. */
  lemma ChainSortComplete(noc: seq<NocLink>, links: seq<LinkId>, p: seq<LinkId>)
    requires LinksKnown(noc, p) && p != [] && SimpleChain(noc, p)
    requires multiset(links) == multiset(p)
    ensures LinksKnown(noc, links) && ChainSort(noc, links) == Ok(p)
  {
    SameLinks(noc, links, p);
    SourceMapOnChain(noc, links, p);
    StartOnChain(noc, links, p);
    FollowAlong(noc, SourceMap(noc, links), p, 0);
    assert p[0..] == p;
  }
}
