/**
 * The flat numbering of a tile's pins and pin classes. The numbers below the
 * tile's own count belong to the tile itself; the numbers above it belong to the
 * logical blocks inside, laid out sub-tile by sub-tile, capacity instance by
 * capacity instance, hosted block by hosted block. Pins and classes are numbered
 * by the same scheme, so the model states it once, over a Kind.
 */
module PinNumbering {
  import opened Common
  import opened PhysicalTile

  /** Whether the numbers are pin numbers or class numbers. */
  datatype Kind = Pins | Classes

  /** The numbers one logical block needs: the size of its pin map, or of its
      class list. */
  function BlockSize(kind: Kind, b: LogicalBlock): nat
  {
    match kind
    case Pins => |b.pbPins|
    case Classes => b.numClasses
  }

  /** The numbers of the tile itself: its pins, or its classes. */
  function OnTileCount(kind: Kind, t: TileType): nat
  {
    match kind
    case Pins => t.numPins
    case Classes => t.numClasses
  }

  /** is_pin_on_tile and is_class_on_tile. */
  predicate IsOnTile(kind: Kind, t: TileType, num: int)
  {
    num < OnTileCount(kind, t)
  }

  /** The tile numbers a sub-tile owns: its tile pins, or its range of tile classes. */
  function SubTileOnTileCount(kind: Kind, st: SubTile): int
  {
    match kind
    case Pins => st.numPhyPins
    case Classes => Total(st.classRange)
  }

  /** The numbers of the first n blocks a sub-tile can host. */
  function SitesSize(kind: Kind, sites: seq<LogicalBlock>, n: nat): nat
    requires n <= |sites|
  {
    if n == 0 then 0 else SitesSize(kind, sites, n - 1) + BlockSize(kind, sites[n - 1])
  }

  /** One past the last number of site j. */
  function SiteEnd(kind: Kind, sites: seq<LogicalBlock>, j: nat): nat
    requires j < |sites|
  {
    SitesSize(kind, sites, j + 1)
  }

  lemma {:induction false} SitesSizeMonotone(kind: Kind, sites: seq<LogicalBlock>, i: nat, j: nat)
    requires i <= j <= |sites|
    ensures SitesSize(kind, sites, i) <= SitesSize(kind, sites, j)
    decreases j - i
  {
    if i < j {
      SitesSizeMonotone(kind, sites, i, j - 1);
    }
  }

  /** The internal numbers of a sub-tile: one set of hosted-block numbers per
      capacity instance. */
  function SubTileInternal(kind: Kind, st: SubTile): int
  {
    SitesSize(kind, st.sites, |st.sites|) * Total(st.capacity)
  }

  /** get_total_num_sub_tile_internal_pins and get_total_num_sub_tile_internal_classes. */
  method SubTileInternalCount(kind: Kind, st: SubTile) returns (n: int)
    ensures n == SubTileInternal(kind, st)
  {
    n := 0;
    for i := 0 to |st.sites|
      invariant n == SitesSize(kind, st.sites, i)
    {
      n := n + BlockSize(kind, st.sites[i]);
    }
    n := n * Total(st.capacity);
  }

  /** The internal numbers of the sub-tiles before position k. */
  function InternalBefore(kind: Kind, sts: seq<SubTile>, k: nat): int
    requires k <= |sts|
  {
    if k == 0 then 0 else InternalBefore(kind, sts, k - 1) + SubTileInternal(kind, sts[k - 1])
  }

  /** The tile numbers of the sub-tiles before position k. */
  function OnTileBefore(kind: Kind, sts: seq<SubTile>, k: nat): int
    requires k <= |sts|
  {
    if k == 0 then 0 else OnTileBefore(kind, sts, k - 1) + SubTileOnTileCount(kind, sts[k - 1])
  }

  /** get_total_num_tile_internal_pins and get_total_num_tile_internal_classes. */
  method TileInternalCount(kind: Kind, t: TileType) returns (n: int)
    ensures n == InternalBefore(kind, t.subTiles, |t.subTiles|)
  {
    n := 0;
    for k := 0 to |t.subTiles|
      invariant n == InternalBefore(kind, t.subTiles, k)
    {
      var c := SubTileInternalCount(kind, t.subTiles[k]);
      n := n + c;
    }
  }

  lemma {:induction false} InternalBeforeMonotone(kind: Kind, t: TileType, i: nat, j: nat)
    requires WellFormed(t) && i <= j <= |t.subTiles|
    ensures InternalBefore(kind, t.subTiles, i) <= InternalBefore(kind, t.subTiles, j)
    decreases j - i
  {
    if i < j {
      InternalBeforeMonotone(kind, t, i, j - 1);
      assert SubTileWellFormed(t.subTiles[j - 1]);
    }
  }

  /** get_tile_ipin_opin_max_ptc and get_tile_class_max_ptc: one past the largest
      number in use, counting the internal numbers only in the flat view. */
  function MaxPtc(kind: Kind, t: TileType, isFlat: bool): int
  {
    if isFlat then OnTileCount(kind, t) + InternalBefore(kind, t.subTiles, |t.subTiles|)
    else OnTileCount(kind, t)
  }

  /** Outside the flat view the numbers in use are exactly the tile's own; in the
      flat view the internal numbers follow them. */
  lemma MaxPtcBounds(kind: Kind, t: TileType, num: int)
    requires WellFormed(t)
    ensures 0 <= num < MaxPtc(kind, t, false) <==> 0 <= num && IsOnTile(kind, t, num)
    ensures MaxPtc(kind, t, false) <= MaxPtc(kind, t, true)
  {
    InternalBeforeMonotone(kind, t, 0, |t.subTiles|);
  }

  /** The first internal number of sub-tile k. */
  function SubTileOffset(kind: Kind, t: TileType, k: nat): int
    requires k <= |t.subTiles|
  {
    OnTileCount(kind, t) + InternalBefore(kind, t.subTiles, k)
  }

  /** get_sub_tile_physical_pin_num_offset and get_sub_tile_physical_class_num_offset:
      the tile's numbers, then the internal numbers of the sub-tiles met before the
      one asked for. */
  method SubTileOffsetOf(kind: Kind, t: TileType, k: nat) returns (offset: int)
    requires k < |t.subTiles|
    ensures offset == SubTileOffset(kind, t, k)
  {
    offset := OnTileCount(kind, t);
    var j := 0;
    while j < |t.subTiles|
      invariant 0 <= j <= k
      invariant offset == OnTileCount(kind, t) + InternalBefore(kind, t.subTiles, j)
    {
      if j == k {
        break;
      }
      var c := SubTileInternalCount(kind, t.subTiles[j]);
      offset := offset + c;
      j := j + 1;
    }
  }

  /** The internal numbers of one capacity instance of a sub-tile. */
  function PerInstance(kind: Kind, st: SubTile): int
    requires Total(st.capacity) != 0
  {
    SubTileInternal(kind, st) / Total(st.capacity)
  }

  lemma PerInstanceIsSitesSize(kind: Kind, st: SubTile)
    requires Total(st.capacity) >= 1
    ensures PerInstance(kind, st) == SitesSize(kind, st.sites, |st.sites|)
  {
    DivModOf(SitesSize(kind, st.sites, |st.sites|), Total(st.capacity), 0);
  }

  /** The first internal number of capacity instance cap of sub-tile k. The pin
      offset multiplies; the class offset adds one instance per step of a loop from
      0 to cap, so a negative cap adds nothing. */
  function InstOffset(kind: Kind, t: TileType, k: nat, cap: int): int
    requires k < |t.subTiles| && Total(t.subTiles[k].capacity) != 0
  {
    var per := PerInstance(kind, t.subTiles[k]);
    match kind
    case Pins => SubTileOffset(kind, t, k) + cap * per
    case Classes => SubTileOffset(kind, t, k) + (if cap > 0 then cap * per else 0)
  }

  /** get_sub_tile_inst_physical_pin_num_offset and
      get_sub_tile_inst_physical_class_num_offset. */
  method InstOffsetOf(kind: Kind, t: TileType, k: nat, cap: int) returns (offset: int)
    requires k < |t.subTiles| && Total(t.subTiles[k].capacity) != 0
    ensures offset == InstOffset(kind, t, k, cap)
  {
    var st := t.subTiles[k];
    offset := SubTileOffsetOf(kind, t, k);
    var internal := SubTileInternalCount(kind, st);
    var perInst := internal / Total(st.capacity);
    if kind == Pins {
      offset := offset + cap * perInst;
    } else {
      ghost var base := offset;
      var c := 0;
      while c < cap
        invariant 0 <= c && (c == 0 || c <= cap)
        invariant offset == base + c * perInst
      {
        offset := offset + perInst;
        c := c + 1;
      }
    }
  }

  /** The position of the first occurrence of the block among the sites, or their
      number when it is absent. */
  function FirstSite(sites: seq<LogicalBlock>, b: LogicalBlock): (i: nat)
    ensures i <= |sites| && (i < |sites| ==> sites[i] == b)
    ensures forall j :: 0 <= j < i ==> sites[j] != b
    ensures i == |sites| <==> b !in sites
  {
    if sites == [] then 0
    else
      var pre := FirstSite(sites[..|sites| - 1], b);
      if pre < |sites| - 1 then pre
      else if sites[|sites| - 1] == b then |sites| - 1
      else |sites|
  }

  /** The first internal number of block b in capacity instance cap of sub-tile k. */
  function BlockOffset(kind: Kind, t: TileType, k: nat, b: LogicalBlock, cap: int): int
    requires k < |t.subTiles| && Total(t.subTiles[k].capacity) != 0
  {
    var sites := t.subTiles[k].sites;
    InstOffset(kind, t, k, cap) + SitesSize(kind, sites, FirstSite(sites, b))
  }

  /** get_logical_block_physical_pin_num_offset and
      get_logical_block_physical_class_num_offset: the instance's offset, then the
      numbers of the blocks listed before this one. */
  method BlockOffsetOf(kind: Kind, t: TileType, k: nat, b: LogicalBlock, cap: int) returns (offset: int)
    requires k < |t.subTiles| && Total(t.subTiles[k].capacity) != 0
    ensures offset == BlockOffset(kind, t, k, b, cap)
  {
    var sites := t.subTiles[k].sites;
    offset := InstOffsetOf(kind, t, k, cap);
    ghost var base := offset;
    var i := 0;
    while i < |sites|
      invariant 0 <= i <= FirstSite(sites, b)
      invariant offset == base + SitesSize(kind, sites, i)
    {
      if sites[i] == b {
        break;
      }
      offset := offset + BlockSize(kind, sites[i]);
      i := i + 1;
    }
  }

  /** get_pb_pin_physical_num (the logical number being the pin's number in its
      cluster) and get_class_physical_num_from_class_logical_num. */
  function PhysicalNum(kind: Kind, t: TileType, k: nat, b: LogicalBlock, cap: int, logical: int): int
    requires k < |t.subTiles| && Total(t.subTiles[k].capacity) != 0
  {
    BlockOffset(kind, t, k, b, cap) + logical
  }

  /** The numbers sub-tile st owns on the side of the number being decoded: its
      tile numbers for a number on the tile, its internal numbers otherwise. */
  function CountOf(kind: Kind, onTile: bool, st: SubTile): int
  {
    if onTile then SubTileOnTileCount(kind, st) else SubTileInternal(kind, st)
  }

  /** Where sub-tile k's numbers start on that side. */
  function StartOf(kind: Kind, t: TileType, onTile: bool, k: nat): int
    requires k <= |t.subTiles|
  {
    if onTile then OnTileBefore(kind, t.subTiles, k) else SubTileOffset(kind, t, k)
  }

  lemma StartStep(kind: Kind, t: TileType, onTile: bool, k: nat)
    requires k < |t.subTiles|
    ensures StartOf(kind, t, onTile, k + 1) == StartOf(kind, t, onTile, k) + CountOf(kind, onTile, t.subTiles[k])
  {
  }

  lemma {:induction false} StartMonotone(kind: Kind, t: TileType, onTile: bool, i: nat, j: nat)
    requires WellFormed(t) && i <= j <= |t.subTiles|
    ensures StartOf(kind, t, onTile, i) <= StartOf(kind, t, onTile, j)
    decreases j - i
  {
    if i < j {
      StartMonotone(kind, t, onTile, i, j - 1);
      assert SubTileWellFormed(t.subTiles[j - 1]);
      StartStep(kind, t, onTile, j - 1);
    }
  }

  /** A sub-tile owning some numbers owns at least one per capacity instance. */
  lemma PerCountPositive(kind: Kind, onTile: bool, st: SubTile)
    requires SubTileWellFormed(st) && CountOf(kind, onTile, st) > 0
    ensures CountOf(kind, onTile, st) / Total(st.capacity) > 0
  {
    if !onTile {
      DivModOf(SitesSize(kind, st.sites, |st.sites|), Total(st.capacity), 0);
    }
  }

  /** The decoding of number num, from sub-tile k on: the first sub-tile whose
      numbers hold num, with the capacity instance num falls in. */
  function SubTileOfFrom(kind: Kind, t: TileType, num: nat, k: nat): (r: Option<(nat, int)>)
    requires WellFormed(t) && k <= |t.subTiles|
    requires num >= StartOf(kind, t, IsOnTile(kind, t, num), k)
    ensures r.Some? ==> k <= r.value.0 < |t.subTiles|
    decreases |t.subTiles| - k
  {
    if k == |t.subTiles| then None
    else
      var onTile := IsOnTile(kind, t, num);
      var st := t.subTiles[k];
      var start := StartOf(kind, t, onTile, k);
      var count := CountOf(kind, onTile, st);
      StartStep(kind, t, onTile, k);
      if num < start + count then
        assert SubTileWellFormed(st);
        PerCountPositive(kind, onTile, st);
        Some((k, (num - start) / (count / Total(st.capacity))))
      else SubTileOfFrom(kind, t, num, k + 1)
  }

  /** get_sub_tile_from_pin_physical_num and get_sub_tile_from_class_physical_num,
      as values: the sub-tile holding the number and the capacity instance within
      it, or None past the last sub-tile. */
  function SubTileOf(kind: Kind, t: TileType, num: nat): (r: Option<(nat, int)>)
    requires WellFormed(t)
    ensures r.Some? ==> r.value.0 < |t.subTiles|
  {
    SubTileOfFrom(kind, t, num, 0)
  }

  /** get_sub_tile_from_pin_physical_num and get_sub_tile_from_class_physical_num:
      walk the sub-tiles with a running count of the numbers passed. */
  method SubTileFromNum(kind: Kind, t: TileType, num: nat) returns (r: Option<(nat, int)>)
    requires WellFormed(t)
    ensures r == SubTileOf(kind, t, num)
  {
    var onTile := num < OnTileCount(kind, t);
    var totalCounts := if onTile then 0 else OnTileCount(kind, t);
    var offset := totalCounts;
    var k := 0;
    while k < |t.subTiles|
      invariant 0 <= k <= |t.subTiles|
      invariant totalCounts == offset == StartOf(kind, t, onTile, k) <= num
      invariant SubTileOfFrom(kind, t, num, k) == SubTileOf(kind, t, num)
    {
      var st := t.subTiles[k];
      var count;
      if onTile {
        count := SubTileOnTileCount(kind, st);
      } else {
        count := SubTileInternalCount(kind, st);
      }
      totalCounts := totalCounts + count;
      StartStep(kind, t, onTile, k);
      if num < totalCounts {
        assert SubTileWellFormed(st);
        PerCountPositive(kind, onTile, st);
        var perInst := count / Total(st.capacity);
        return Some((k, (num - offset) / perInst));
      }
      offset := totalCounts;
      k := k + 1;
    }
    return None;
  }

  /** Why a number cannot be decoded into a block and a logical number: it is one
      of the tile's own numbers, it lies past every sub-tile, or no hosted block of
      its instance holds it. */
  datatype NumError = OnTileNumber | NoSubTileForNumber | NoBlockForNumber

  /** The position of the first of the first n sites whose numbers, counted from
      the start of the instance, reach past d. */
  function SiteContaining(kind: Kind, sites: seq<LogicalBlock>, d: int, n: nat): (r: Option<nat>)
    requires n <= |sites|
    ensures r.Some? ==> r.value < n && d < SiteEnd(kind, sites, r.value)
                        && forall j :: 0 <= j < r.value ==> SiteEnd(kind, sites, j) <= d
    ensures r.None? ==> forall j :: 0 <= j < n ==> SiteEnd(kind, sites, j) <= d
  {
    if n == 0 then None
    else
      var pre := SiteContaining(kind, sites, d, n - 1);
      if pre.Some? then pre
      else if d < SitesSize(kind, sites, n) then Some(n - 1)
      else None
  }

  /** get_logical_block_from_pin_physical_num and
      get_logical_block_from_class_physical_num, as values: the hosted block whose
      numbers, in the decoded instance, hold the number. */
  function BlockOf(kind: Kind, t: TileType, num: nat): Result<LogicalBlock, NumError>
    requires WellFormed(t)
  {
    if IsOnTile(kind, t, num) then Err(OnTileNumber)
    else
      match SubTileOf(kind, t, num)
      case None => Err(NoSubTileForNumber)
      case Some((k, cap)) =>
        assert SubTileWellFormed(t.subTiles[k]);
        var sites := t.subTiles[k].sites;
        match SiteContaining(kind, sites, num - InstOffset(kind, t, k, cap), |sites|)
        case None => Err(NoBlockForNumber)
        case Some(i) => Ok(sites[i])
  }

  /** get_logical_block_from_pin_physical_num and
      get_logical_block_from_class_physical_num: decode the sub-tile and instance,
      then walk the hosted blocks from the instance's offset. */
  method BlockFromNum(kind: Kind, t: TileType, num: nat) returns (r: Result<LogicalBlock, NumError>)
    requires WellFormed(t)
    ensures r == BlockOf(kind, t, num)
  {
    if num < OnTileCount(kind, t) {
      return Err(OnTileNumber);
    }
    var hit := SubTileFromNum(kind, t, num);
    if hit.None? {
      return Err(NoSubTileForNumber);
    }
    var k, cap := hit.value.0, hit.value.1;
    assert SubTileWellFormed(t.subTiles[k]);
    var sites := t.subTiles[k].sites;
    var offset := InstOffsetOf(kind, t, k, cap);
    ghost var start := offset;
    for i := 0 to |sites|
      invariant offset == start + SitesSize(kind, sites, i)
      invariant SiteContaining(kind, sites, num - start, i).None?
    {
      if num < offset + BlockSize(kind, sites[i]) {
        SiteContainingNext(kind, sites, num - start, i);
        return Ok(sites[i]);
      }
      offset := offset + BlockSize(kind, sites[i]);
    }
    return Err(NoBlockForNumber);
  }

  /** get_pin_logical_num_from_pin_physical_num and
      get_class_logical_num_from_class_physical_num, as values: the number less the
      first number of its block. The pin version rejects a tile number before
      decoding; the class version meets that check only in the block lookup. */
  function LogicalNum(kind: Kind, t: TileType, num: nat): Result<int, NumError>
    requires WellFormed(t)
  {
    if kind == Pins && IsOnTile(kind, t, num) then Err(OnTileNumber)
    else
      match SubTileOf(kind, t, num)
      case None => Err(NoSubTileForNumber)
      case Some((k, cap)) =>
        assert SubTileWellFormed(t.subTiles[k]);
        match BlockOf(kind, t, num)
        case Err(e) => Err(e)
        case Ok(b) => Ok(num - BlockOffset(kind, t, k, b, cap))
  }

  /** get_pin_logical_num_from_pin_physical_num and
      get_class_logical_num_from_class_physical_num. */
  method LogicalNumFromNum(kind: Kind, t: TileType, num: nat) returns (r: Result<int, NumError>)
    requires WellFormed(t)
    ensures r == LogicalNum(kind, t, num)
  {
    if kind == Pins && num < OnTileCount(kind, t) {
      return Err(OnTileNumber);
    }
    var hit := SubTileFromNum(kind, t, num);
    if hit.None? {
      return Err(NoSubTileForNumber);
    }
    var k, cap := hit.value.0, hit.value.1;
    assert SubTileWellFormed(t.subTiles[k]);
    var block := BlockFromNum(kind, t, num);
    if block.Err? {
      return Err(block.error);
    }
    var start := BlockOffsetOf(kind, t, k, block.value, cap);
    return Ok(num - start);
  }

  /** A number inside sub-tile k's numbers is decoded by sub-tile k. */
  lemma {:induction false} SubTileOfAt(kind: Kind, t: TileType, num: nat, k: nat, j: nat)
    requires WellFormed(t) && j <= k < |t.subTiles|
    requires StartOf(kind, t, IsOnTile(kind, t, num), j) <= num
    requires StartOf(kind, t, IsOnTile(kind, t, num), k) <= num < StartOf(kind, t, IsOnTile(kind, t, num), k + 1)
    ensures var onTile := IsOnTile(kind, t, num);
            var st := t.subTiles[k];
            SubTileOfFrom(kind, t, num, j)
              == Some((k, (num - StartOf(kind, t, onTile, k)) / (CountOf(kind, onTile, st) / Total(st.capacity))))
    decreases k - j
  {
    var onTile := IsOnTile(kind, t, num);
    StartStep(kind, t, onTile, j);
    if j < k {
      StartMonotone(kind, t, onTile, j + 1, k);
      SubTileOfAt(kind, t, num, k, j + 1);
    }
  }

  lemma {:induction false} SubTileOfNone(kind: Kind, t: TileType, num: nat, j: nat)
    requires WellFormed(t) && j <= |t.subTiles|
    requires StartOf(kind, t, IsOnTile(kind, t, num), j) <= num
    requires StartOf(kind, t, IsOnTile(kind, t, num), |t.subTiles|) <= num
    ensures SubTileOfFrom(kind, t, num, j).None?
    decreases |t.subTiles| - j
  {
    if j < |t.subTiles| {
      var onTile := IsOnTile(kind, t, num);
      StartStep(kind, t, onTile, j);
      StartMonotone(kind, t, onTile, j + 1, |t.subTiles|);
      SubTileOfNone(kind, t, num, j + 1);
    }
  }

  /** A number between the start of the first sub-tile and the end of sub-tile n-1
      is inside one of them. */
  lemma {:induction false} NumInSomeSubTile(kind: Kind, t: TileType, onTile: bool, num: int, n: nat) returns (k: nat)
    requires n <= |t.subTiles|
    requires StartOf(kind, t, onTile, 0) <= num < StartOf(kind, t, onTile, n)
    ensures k < n && StartOf(kind, t, onTile, k) <= num < StartOf(kind, t, onTile, k + 1)
  {
    if num >= StartOf(kind, t, onTile, n - 1) {
      k := n - 1;
    } else {
      k := NumInSomeSubTile(kind, t, onTile, num, n - 1);
    }
  }

  /** An offset between the start and the end of site i's numbers is found at i. */
  lemma SiteContainingAt(kind: Kind, sites: seq<LogicalBlock>, d: int, i: nat)
    requires i < |sites| && SitesSize(kind, sites, i) <= d < SiteEnd(kind, sites, i)
    ensures SiteContaining(kind, sites, d, |sites|) == Some(i)
  {
    forall j | 0 <= j < i
      ensures SiteEnd(kind, sites, j) <= d
    {
      SitesSizeMonotone(kind, sites, j + 1, i);
    }
    SiteContainingNext(kind, sites, d, i);
  }

  /** The scan stops at the first site whose numbers reach past the offset. */
  lemma SiteContainingNext(kind: Kind, sites: seq<LogicalBlock>, d: int, i: nat)
    requires i < |sites| && SiteContaining(kind, sites, d, i).None? && d < SiteEnd(kind, sites, i)
    ensures SiteContaining(kind, sites, d, |sites|) == Some(i)
  {
  }

  /** An offset below the numbers of the first n sites is inside one of them. */
  lemma {:induction false} SiteInSome(kind: Kind, sites: seq<LogicalBlock>, d: int, n: nat) returns (i: nat)
    requires n <= |sites| && 0 <= d < SitesSize(kind, sites, n)
    ensures i < n && SitesSize(kind, sites, i) <= d < SiteEnd(kind, sites, i)
  {
    if d >= SitesSize(kind, sites, n - 1) {
      i := n - 1;
    } else {
      i := SiteInSome(kind, sites, d, n - 1);
    }
  }

  /** An internal number below the flat maximum decodes into a sub-tile k and an
      instance cap within its capacity, and lies within that instance's numbers. */
  lemma DecodeSubTile(kind: Kind, t: TileType, num: nat) returns (k: nat, cap: int)
    requires WellFormed(t) && OnTileCount(kind, t) <= num < MaxPtc(kind, t, true)
    ensures k < |t.subTiles| && SubTileOf(kind, t, num) == Some((k, cap))
    ensures 0 <= cap < Total(t.subTiles[k].capacity)
    ensures 0 <= num - InstOffset(kind, t, k, cap) < SitesSize(kind, t.subTiles[k].sites, |t.subTiles[k].sites|)
  {
    k := NumInSomeSubTile(kind, t, false, num, |t.subTiles|);
    SubTileOfAt(kind, t, num, k, 0);
    var st := t.subTiles[k];
    assert SubTileWellFormed(st);
    var total := Total(st.capacity);
    var size := SitesSize(kind, st.sites, |st.sites|);
    StartStep(kind, t, false, k);
    PerInstanceIsSitesSize(kind, st);
    var d := num - StartOf(kind, t, false, k);
    assert 0 <= d < size * total;
    cap := InstanceSplit(d, size, total);
    assert InstOffset(kind, t, k, cap) == StartOf(kind, t, false, k) + cap * size;
  }

  /** A position below size * total falls in instance d / size, within that instance. */
  lemma InstanceSplit(d: int, size: nat, total: int) returns (cap: int)
    requires 0 <= d < size * total
    ensures cap == d / size && 0 <= cap < total && 0 <= d - cap * size < size
  {
    assert size != 0;
    SplitBelow(d, size, total);
    cap := d / size;
    assert cap * size == size * cap;
  }

  /** An internal number below the flat maximum decodes into a sub-tile k, an
      instance cap within its capacity, and a hosted block at position i whose
      numbers in that instance hold it. */
  lemma DecodeInternal(kind: Kind, t: TileType, num: nat) returns (k: nat, cap: int, i: nat)
    requires WellFormed(t) && OnTileCount(kind, t) <= num < MaxPtc(kind, t, true)
    ensures k < |t.subTiles| && SubTileOf(kind, t, num) == Some((k, cap))
    ensures 0 <= cap < Total(t.subTiles[k].capacity)
    ensures i < |t.subTiles[k].sites| && BlockOf(kind, t, num) == Ok(t.subTiles[k].sites[i])
    ensures var sites := t.subTiles[k].sites;
            SitesSize(kind, sites, i) <= num - InstOffset(kind, t, k, cap) < SiteEnd(kind, sites, i)
  {
    k, cap := DecodeSubTile(kind, t, num);
    var sites := t.subTiles[k].sites;
    var r := num - InstOffset(kind, t, k, cap);
    i := SiteInSome(kind, sites, r, |sites|);
    SiteContainingAt(kind, sites, r, i);
  }

  /** No hosted block is listed twice in a sub-tile. */
  predicate DistinctSites(t: TileType)
  {
    forall k :: 0 <= k < |t.subTiles| ==> Distinct(t.subTiles[k].sites)
  }

  /** Numbering a logical pin or class of a hosted block in a capacity instance, then
      decoding the number, gives back the sub-tile, the instance, the block and the
      logical number; the number lies between the tile's own numbers and the flat
      maximum. */
  lemma LogicalPhysicalLogical(kind: Kind, t: TileType, k: nat, b: LogicalBlock, cap: int, logical: int)
    requires WellFormed(t) && k < |t.subTiles|
    requires 0 <= cap < Total(t.subTiles[k].capacity)
    requires b in t.subTiles[k].sites && 0 <= logical < BlockSize(kind, b)
    ensures var num := PhysicalNum(kind, t, k, b, cap, logical);
            && OnTileCount(kind, t) <= num < MaxPtc(kind, t, true)
            && SubTileOf(kind, t, num as nat) == Some((k, cap))
            && BlockOf(kind, t, num as nat) == Ok(b)
            && LogicalNum(kind, t, num as nat) == Ok(logical)
  {
    var st := t.subTiles[k];
    assert SubTileWellFormed(st);
    var sites := st.sites;
    var total := Total(st.capacity);
    var size := SitesSize(kind, sites, |sites|);
    var i := FirstSite(sites, b);
    SitesSizeMonotone(kind, sites, i + 1, |sites|);
    var r := SitesSize(kind, sites, i) + logical;
    PerInstanceIsSitesSize(kind, st);
    JoinBelow(cap, size, total, r);
    var num := PhysicalNum(kind, t, k, b, cap, logical);
    assert num == StartOf(kind, t, false, k) + size * cap + r;
    StartStep(kind, t, false, k);
    InternalBeforeMonotone(kind, t, k + 1, |t.subTiles|);
    InternalBeforeMonotone(kind, t, 0, k);
    SubTileOfAt(kind, t, num as nat, k, 0);
    assert num - StartOf(kind, t, false, k) == cap * size + r by {
      assert cap * size == size * cap;
    }
    DivModOf(cap, size, r);
    assert SubTileOf(kind, t, num as nat) == Some((k, cap));
    assert num - InstOffset(kind, t, k, cap) == r;
    SiteContainingAt(kind, sites, r, i);
    DecodedAt(kind, t, num as nat, k, cap, i);
  }

  /** A number past the tile's own numbers, in instance cap of sub-tile k and inside
      the numbers of the hosted block at position i, decodes to that block and to its
      offset from that block's first number. */
  lemma DecodedAt(kind: Kind, t: TileType, num: nat, k: nat, cap: int, i: nat)
    requires WellFormed(t) && k < |t.subTiles| && i < |t.subTiles[k].sites|
    requires OnTileCount(kind, t) <= num && SubTileOf(kind, t, num) == Some((k, cap))
    requires Total(t.subTiles[k].capacity) != 0
    requires SiteContaining(kind, t.subTiles[k].sites, num - InstOffset(kind, t, k, cap), |t.subTiles[k].sites|) == Some(i)
    ensures BlockOf(kind, t, num) == Ok(t.subTiles[k].sites[i])
    ensures LogicalNum(kind, t, num) == Ok(num - BlockOffset(kind, t, k, t.subTiles[k].sites[i], cap))
  {
  }

  /** Every number between the tile's own numbers and the flat maximum decodes
      into a sub-tile, an instance within its capacity, a block it hosts and a
      logical number within that block, and numbering these again gives the number
      back. */
  lemma PhysicalLogicalPhysical(kind: Kind, t: TileType, num: nat)
    requires WellFormed(t) && DistinctSites(t)
    requires OnTileCount(kind, t) <= num < MaxPtc(kind, t, true)
    ensures SubTileOf(kind, t, num).Some? && BlockOf(kind, t, num).Ok? && LogicalNum(kind, t, num).Ok?
    ensures var k := SubTileOf(kind, t, num).value.0;
            var cap := SubTileOf(kind, t, num).value.1;
            var b := BlockOf(kind, t, num).value;
            var logical := LogicalNum(kind, t, num).value;
            && 0 <= cap < Total(t.subTiles[k].capacity)
            && b in t.subTiles[k].sites
            && 0 <= logical < BlockSize(kind, b)
            && PhysicalNum(kind, t, k, b, cap, logical) == num
  {
    var k, cap, i := DecodeInternal(kind, t, num);
    var sites := t.subTiles[k].sites;
    assert Distinct(sites);
    assert FirstSite(sites, sites[i]) == i;
  }

  /** A number decodes into a logical number exactly when it lies between the
      tile's own numbers and the flat maximum. */
  lemma LogicalNumOkIff(kind: Kind, t: TileType, num: nat)
    requires WellFormed(t)
    ensures LogicalNum(kind, t, num).Ok? <==> OnTileCount(kind, t) <= num < MaxPtc(kind, t, true)
  {
    InternalBeforeMonotone(kind, t, 0, |t.subTiles|);
    if OnTileCount(kind, t) <= num < MaxPtc(kind, t, true) {
      var k, cap, i := DecodeInternal(kind, t, num);
    } else if num >= MaxPtc(kind, t, true) {
      SubTileOfNone(kind, t, num, 0);
    }
  }

  lemma {:induction false} OnTileBeforeIsPhyPinsBefore(sts: seq<SubTile>, k: nat)
    requires k <= |sts|
    ensures OnTileBefore(Pins, sts, k) == PhyPinsBefore(sts, k)
  {
    if k > 0 {
      OnTileBeforeIsPhyPinsBefore(sts, k - 1);
    }
  }

  /** For a pin on the tile, the sub-tile decoding agrees with the capacity location
      of the pin: both fail together, and the decoded instance is the capacity
      location measured from the low end of the sub-tile's range. */
  lemma OnTilePinsAgree(t: TileType, pin: nat)
    requires WellFormed(t) && pin < t.numPins
    ensures SubTileOf(Pins, t, pin).None? <==> CapacityLocation(t, pin).Err?
    ensures SubTileOf(Pins, t, pin).Some? ==>
              var k := SubTileOf(Pins, t, pin).value.0;
              CapacityLocation(t, pin).value.0 == SubTileOf(Pins, t, pin).value.1 + t.subTiles[k].capacity.low
  {
    var sts := t.subTiles;
    OnTileBeforeIsPhyPinsBefore(sts, |sts|);
    if pin < PhyPinsBefore(sts, |sts|) {
      var k := PinInSomeSubTile(sts, pin, |sts|);
      CapacityLocationAt(t, pin, k, 0);
      OnTileBeforeIsPhyPinsBefore(sts, k);
      OnTileBeforeIsPhyPinsBefore(sts, k + 1);
      SubTileOfAt(Pins, t, pin, k, 0);
    } else {
      CapacityLocationNone(t, pin, 0);
      SubTileOfNone(Pins, t, pin, 0);
    }
  }

  /** The internal pin numbers of block b in instance cap of sub-tile k, in the order
      of its pin map. */
  function BlockPinNums(t: TileType, k: nat, cap: int, b: LogicalBlock): (r: seq<int>)
    requires k < |t.subTiles| && Total(t.subTiles[k].capacity) != 0
    ensures |r| == BlockSize(Pins, b)
  {
    seq(|b.pbPins|, p requires 0 <= p < |b.pbPins| => PhysicalNum(Pins, t, k, b, cap, b.pbPins[p]))
  }

  /** The internal pin numbers of the first n hosted blocks of an instance. */
  function SitesPinNums(t: TileType, k: nat, cap: int, n: nat): (r: seq<int>)
    requires k < |t.subTiles| && Total(t.subTiles[k].capacity) != 0 && n <= |t.subTiles[k].sites|
    ensures |r| == SitesSize(Pins, t.subTiles[k].sites, n)
  {
    if n == 0 then []
    else SitesPinNums(t, k, cap, n - 1) + BlockPinNums(t, k, cap, t.subTiles[k].sites[n - 1])
  }

  /** The internal pin numbers of the first c instances of sub-tile k. */
  function InstPinNums(t: TileType, k: nat, c: nat): (r: seq<int>)
    requires k < |t.subTiles| && Total(t.subTiles[k].capacity) != 0
    ensures |r| == c * SitesSize(Pins, t.subTiles[k].sites, |t.subTiles[k].sites|)
  {
    if c == 0 then []
    else InstPinNums(t, k, c - 1) + SitesPinNums(t, k, c - 1, |t.subTiles[k].sites|)
  }

  /** The internal pin numbers of the sub-tiles before position j, in the order
      get_tile_internal_pins_num lists them. */
  function TilePinNums(t: TileType, j: nat): (r: seq<int>)
    requires WellFormed(t) && j <= |t.subTiles|
    ensures |r| == InternalBefore(Pins, t.subTiles, j)
  {
    if j == 0 then []
    else
      var st := t.subTiles[j - 1];
      assert SubTileWellFormed(st);
      TilePinNums(t, j - 1) + InstPinNums(t, j - 1, Total(st.capacity))
  }

  /** get_tile_internal_pins_num: fill a vector of the tile's internal pin count with
      the physical number of every pin of every hosted block of every instance of
      every sub-tile, in that order. */
  method TileInternalPinsNum(t: TileType) returns (nums: array<int>)
    requires WellFormed(t)
    ensures nums[..] == TilePinNums(t, |t.subTiles|)
  {
    var sts := t.subTiles;
    var total := TileInternalCount(Pins, t);
    InternalBeforeMonotone(Pins, t, 0, |sts|);
    nums := new int[total];
    var pinNum := 0;
    for k := 0 to |sts|
      invariant 0 <= pinNum == InternalBefore(Pins, sts, k) <= nums.Length
      invariant nums[..pinNum] == TilePinNums(t, k)
    {
      InternalBeforeMonotone(Pins, t, k + 1, |sts|);
      pinNum := FillSubTile(t, k, nums, pinNum);
    }
    assert nums[..] == nums[..pinNum];
  }

  /** The loop of get_tile_internal_pins_num over the capacity instances of sub-tile
      k, writing from position from. */
  method FillSubTile(t: TileType, k: nat, nums: array<int>, from: nat) returns (next: nat)
    requires WellFormed(t) && k < |t.subTiles|
    requires from + SubTileInternal(Pins, t.subTiles[k]) <= nums.Length
    modifies nums
    ensures next == from + SubTileInternal(Pins, t.subTiles[k])
    ensures nums[..next] == old(nums[..from]) + InstPinNums(t, k, Total(t.subTiles[k].capacity))
  {
    var st := t.subTiles[k];
    assert SubTileWellFormed(st);
    ghost var size := SitesSize(Pins, st.sites, |st.sites|);
    ghost var before := nums[..from];
    next := from;
    for cap := 0 to Total(st.capacity)
      invariant next == from + cap * size
      invariant nums[..next] == before + InstPinNums(t, k, cap)
    {
      MulBelow(cap, Total(st.capacity), size);
      next := FillInstance(t, k, cap, nums, next);
      AppendAssoc(before, InstPinNums(t, k, cap), SitesPinNums(t, k, cap, |st.sites|));
    }
  }

  /** The loop of get_tile_internal_pins_num over the blocks hosted by instance cap
      of sub-tile k: the numbers of all their pins, written from position from. */
  method FillInstance(t: TileType, k: nat, cap: int, nums: array<int>, from: nat) returns (next: nat)
    requires k < |t.subTiles| && Total(t.subTiles[k].capacity) != 0
    requires from + SitesSize(Pins, t.subTiles[k].sites, |t.subTiles[k].sites|) <= nums.Length
    modifies nums
    ensures next == from + SitesSize(Pins, t.subTiles[k].sites, |t.subTiles[k].sites|)
    ensures nums[..next] == old(nums[..from]) + SitesPinNums(t, k, cap, |t.subTiles[k].sites|)
  {
    var st := t.subTiles[k];
    ghost var start := nums[..from];
    next := from;
    for s := 0 to |st.sites|
      invariant next == from + SitesSize(Pins, st.sites, s) <= nums.Length
      invariant nums[..next] == start + SitesPinNums(t, k, cap, s)
    {
      SitesSizeMonotone(Pins, st.sites, s + 1, |st.sites|);
      next := FillBlock(t, k, cap, st.sites[s], nums, next);
      AppendAssoc(start, SitesPinNums(t, k, cap, s), BlockPinNums(t, k, cap, st.sites[s]));
    }
  }

  /** The innermost loop of get_tile_internal_pins_num: the internal number of every
      pin of one hosted block, in the order of its pin map. */
  method FillBlock(t: TileType, k: nat, cap: int, b: LogicalBlock, nums: array<int>, from: nat) returns (next: nat)
    requires k < |t.subTiles| && Total(t.subTiles[k].capacity) != 0
    requires from + |b.pbPins| <= nums.Length
    modifies nums
    ensures next == from + |b.pbPins|
    ensures nums[..next] == old(nums[..from]) + BlockPinNums(t, k, cap, b)
  {
    ghost var prefix := nums[..from];
    ghost var all := BlockPinNums(t, k, cap, b);
    next := from;
    for p := 0 to |b.pbPins|
      invariant next == from + p
      invariant nums[..from] == prefix
      invariant forall i :: 0 <= i < p ==> nums[from + i] == all[i]
    {
      var offset := BlockOffsetOf(Pins, t, k, b, cap);
      nums[next] := b.pbPins[p] + offset;
      next := next + 1;
    }
    assert nums[..next] == prefix + all by {
      forall i | 0 <= i < next ensures nums[..next][i] == (prefix + all)[i] {
        if i < from {
          assert nums[..next][i] == nums[..from][i];
        } else {
          assert nums[..next][i] == nums[from + (i - from)];
        }
      }
    }
  }

  /** With c below n, the numbers of c + 1 instances fit in those of n. */
  lemma MulBelow(c: int, n: int, size: nat)
    requires 0 <= c < n
    ensures c * size + size == (c + 1) * size <= size * n
  {
    assert (c + 1) * size <= n * size;
  }

  /** The n numbers from `from` on, in increasing order. */
  function Consecutive(from: int, n: nat): (r: seq<int>)
    ensures |r| == n
  {
    seq(n, i => from + i)
  }

  lemma ConsecutiveAppend(from: int, a: nat, b: nat)
    ensures Consecutive(from, a) + Consecutive(from + a, b) == Consecutive(from, a + b)
  {
  }

  /** The block numbers the entries of its pin map by their position in it. */
  predicate InMapOrder(b: LogicalBlock)
  {
    forall p :: 0 <= p < |b.pbPins| ==> b.pbPins[p] == p
  }

  /** Every hosted block numbers its pin map by position. */
  predicate PinsInMapOrder(t: TileType)
  {
    forall k, s :: 0 <= k < |t.subTiles| && 0 <= s < |t.subTiles[k].sites| ==> InMapOrder(t.subTiles[k].sites[s])
  }

  lemma BlockPinNumsConsecutive(t: TileType, k: nat, cap: int, s: nat)
    requires k < |t.subTiles| && Total(t.subTiles[k].capacity) != 0 && s < |t.subTiles[k].sites|
    requires FirstSite(t.subTiles[k].sites, t.subTiles[k].sites[s]) == s
    requires InMapOrder(t.subTiles[k].sites[s])
    ensures var sites := t.subTiles[k].sites;
            BlockPinNums(t, k, cap, sites[s])
              == Consecutive(InstOffset(Pins, t, k, cap) + SitesSize(Pins, sites, s), |sites[s].pbPins|)
  {
    var sites := t.subTiles[k].sites;
    var b := sites[s];
    var base := InstOffset(Pins, t, k, cap) + SitesSize(Pins, sites, s);
    assert BlockOffset(Pins, t, k, b, cap) == base;
    var r := BlockPinNums(t, k, cap, b);
    forall p | 0 <= p < |b.pbPins|
      ensures r[p] == Consecutive(base, |b.pbPins|)[p]
    {
      assert r[p] == PhysicalNum(Pins, t, k, b, cap, b.pbPins[p]);
    }
  }

  lemma {:induction false} SitesPinNumsConsecutive(t: TileType, k: nat, cap: int, n: nat)
    requires WellFormed(t) && DistinctSites(t) && PinsInMapOrder(t)
    requires k < |t.subTiles| && n <= |t.subTiles[k].sites|
    ensures SitesPinNums(t, k, cap, n)
              == Consecutive(InstOffset(Pins, t, k, cap), SitesSize(Pins, t.subTiles[k].sites, n))
  {
    if n > 0 {
      var sites := t.subTiles[k].sites;
      SitesPinNumsConsecutive(t, k, cap, n - 1);
      assert FirstSite(sites, sites[n - 1]) == n - 1 by {
        assert Distinct(sites);
      }
      assert SubTileWellFormed(t.subTiles[k]);
      BlockPinNumsConsecutive(t, k, cap, n - 1);
      ConsecutiveAppend(InstOffset(Pins, t, k, cap), SitesSize(Pins, sites, n - 1), |sites[n - 1].pbPins|);
    }
  }

  lemma {:induction false} InstPinNumsConsecutive(t: TileType, k: nat, c: nat)
    requires WellFormed(t) && DistinctSites(t) && PinsInMapOrder(t) && k < |t.subTiles|
    ensures InstPinNums(t, k, c)
              == Consecutive(SubTileOffset(Pins, t, k), c * SitesSize(Pins, t.subTiles[k].sites, |t.subTiles[k].sites|))
  {
    if c > 0 {
      var st := t.subTiles[k];
      assert SubTileWellFormed(st);
      var size := SitesSize(Pins, st.sites, |st.sites|);
      PerInstanceIsSitesSize(Pins, st);
      InstPinNumsConsecutive(t, k, c - 1);
      SitesPinNumsConsecutive(t, k, c - 1, |st.sites|);
      assert (c - 1) * size + size == c * size;
      ConsecutiveAppend(SubTileOffset(Pins, t, k), (c - 1) * size, size);
    }
  }

  lemma {:induction false} TilePinNumsConsecutive(t: TileType, j: nat)
    requires WellFormed(t) && DistinctSites(t) && PinsInMapOrder(t) && j <= |t.subTiles|
    ensures InternalBefore(Pins, t.subTiles, j) >= 0
    ensures TilePinNums(t, j) == Consecutive(t.numPins, InternalBefore(Pins, t.subTiles, j) as nat)
  {
    if j > 0 {
      var st := t.subTiles[j - 1];
      assert SubTileWellFormed(st);
      TilePinNumsConsecutive(t, j - 1);
      InstPinNumsConsecutive(t, j - 1, Total(st.capacity));
      var size := SitesSize(Pins, st.sites, |st.sites|);
      assert Total(st.capacity) * size == SubTileInternal(Pins, st);
      ConsecutiveAppend(t.numPins, InternalBefore(Pins, t.subTiles, j - 1) as nat, Total(st.capacity) * size);
    }
  }

  /** When every block numbers its pin map by position and no sub-tile lists a
      block twice, get_tile_internal_pins_num lists every internal pin number once,
      in increasing order, from the tile's pin count up to the flat maximum. */
  lemma InternalPinsAreConsecutive(t: TileType)
    requires WellFormed(t) && DistinctSites(t) && PinsInMapOrder(t)
    ensures MaxPtc(Pins, t, true) >= t.numPins
    ensures TilePinNums(t, |t.subTiles|) == Consecutive(t.numPins, (MaxPtc(Pins, t, true) - t.numPins) as nat)
  {
    TilePinNumsConsecutive(t, |t.subTiles|);
  }
}
