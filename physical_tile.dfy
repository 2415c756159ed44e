/**
 * Physical tile types as the pin-numbering code sees them: a tile holds a list
 * of sub-tiles, each present in several capacity instances, each able to host
 * some logical block types. This module covers the tile-level pin numbers: the
 * conversion between a tile pin and a (capacity location, pin in instance) pair,
 * looking a pin up by port name, and finding the sub-tile that hosts a block.
 */
module PhysicalTile {
  import opened Common

  /** The value the architecture library uses for "none". */
  const Open: int := -1

  /** An inclusive range [low, high] of capacity locations or class numbers. */
  datatype IndexRange = IndexRange(low: int, high: int)

  /** The number of values in the range. */
  function Total(r: IndexRange): int
  {
    r.high - r.low + 1
  }

  predicate InRange(r: IndexRange, x: int)
  {
    r.low <= x <= r.high
  }

  datatype Port = Port(name: string, numPins: nat)

  /** A logical block type: its index identifies it; pbPins lists, in map order, the
      in-cluster pin number of each entry of its pin map, and numClasses is the size
      of its class list. */
  datatype LogicalBlock = LogicalBlock(index: nat, pbPins: seq<int>, numClasses: nat)

  /** A sub-tile: its index, the capacity locations it covers, the range of tile
      classes it owns, its number of pins on the tile, its ports (of one instance)
      and the logical block types it can host. */
  datatype SubTile = SubTile(index: nat, capacity: IndexRange, classRange: IndexRange,
                             numPhyPins: nat, ports: seq<Port>, sites: seq<LogicalBlock>)

  /** A physical tile type: its number of pins on the tile, its number of tile
      classes, and its sub-tiles. */
  datatype TileType = TileType(numPins: nat, numClasses: nat, subTiles: seq<SubTile>)

  /** Every capacity instance of a sub-tile has the same number of tile pins and of
      tile classes, and each sub-tile has at least one instance. */
  predicate SubTileWellFormed(st: SubTile)
  {
    && Total(st.capacity) >= 1
    && st.numPhyPins % Total(st.capacity) == 0
    && Total(st.classRange) >= 0
    && Total(st.classRange) % Total(st.capacity) == 0
  }

  predicate WellFormed(t: TileType)
  {
    forall k :: 0 <= k < |t.subTiles| ==> SubTileWellFormed(t.subTiles[k])
  }

  /** No capacity location belongs to two sub-tiles. */
  predicate DisjointCapacities(t: TileType)
  {
    forall k1, k2 :: 0 <= k1 < k2 < |t.subTiles| ==>
      t.subTiles[k1].capacity.high < t.subTiles[k2].capacity.low
      || t.subTiles[k2].capacity.high < t.subTiles[k1].capacity.low
  }

  /** The tile pins of one capacity instance of a sub-tile. */
  function PinsPerInstance(st: SubTile): int
    requires Total(st.capacity) >= 1
  {
    st.numPhyPins / Total(st.capacity)
  }

  /** The tile pins of the sub-tiles before position k. */
  function PhyPinsBefore(sts: seq<SubTile>, k: nat): nat
    requires k <= |sts|
  {
    if k == 0 then 0 else PhyPinsBefore(sts, k - 1) + sts[k - 1].numPhyPins
  }

  lemma {:induction false} PhyPinsBeforeMonotone(sts: seq<SubTile>, j: nat, k: nat)
    requires j <= k <= |sts|
    ensures PhyPinsBefore(sts, j) <= PhyPinsBefore(sts, k)
    decreases k - j
  {
    if j < k {
      PhyPinsBeforeMonotone(sts, j, k - 1);
    }
  }

  /** The number q*d + r with 0 <= r < d divides back into q and r. */
  lemma DivModOf(q: int, d: int, r: int)
    requires d > 0 && 0 <= r < d
    ensures (q * d + r) / d == q && (q * d + r) % d == r
  {
    var n := q * d + r;
    var q', r' := n / d, n % d;
    assert (q - q') * d == r' - r;
    if q' < q {
      MulAtLeast(q - q', d);
    } else if q' > q {
      MulAtLeast(q' - q, d);
    }
  }

  lemma MulAtLeast(a: int, d: int)
    requires a >= 1 && d > 0
    ensures a * d >= d
  {
  }

  /** Every instance of a sub-tile with tile pins has at least one. */
  lemma PerInstancePositive(st: SubTile)
    requires SubTileWellFormed(st) && st.numPhyPins > 0
    ensures PinsPerInstance(st) > 0
    ensures st.numPhyPins == PinsPerInstance(st) * Total(st.capacity)
  {
  }

  /** A number below per * total splits into an instance below total and a
      remainder below per. */
  lemma SplitBelow(d: int, per: int, total: int)
    requires per > 0 && 0 <= d < per * total
    ensures 0 <= d / per < total && d == per * (d / per) + d % per
  {
  }

  /** An instance below total and a remainder below per make a number below
      per * total. */
  lemma JoinBelow(q: int, per: int, total: int, r: int)
    requires per > 0 && 0 <= q < total && 0 <= r < per
    ensures 0 <= per * q + r < per * total
  {
    assert per * (q + 1) <= per * total;
  }

  datatype PinError = NoSubTileForPin | NoSubTileForLocation | NoSubTileForBlock | PinIndexOutOfPort

  /** get_capacity_location_from_physical_pin, from sub-tile k on: the first sub-tile
      whose block of tile pins holds the pin gives the capacity location and the pin
      within the instance. */
  function CapacityLocationFrom(t: TileType, pin: nat, k: nat): Result<(int, int), PinError>
    requires WellFormed(t) && k <= |t.subTiles| && pin >= PhyPinsBefore(t.subTiles, k)
    decreases |t.subTiles| - k
  {
    if k == |t.subTiles| then Err(NoSubTileForPin)
    else
      var st := t.subTiles[k];
      var subTilePin := pin - PhyPinsBefore(t.subTiles, k);
      if subTilePin < st.numPhyPins then
        PerInstancePositive(st);
        var perInst := PinsPerInstance(st);
        Ok((subTilePin / perInst + st.capacity.low, subTilePin % perInst))
      else CapacityLocationFrom(t, pin, k + 1)
  }

  function CapacityLocation(t: TileType, pin: nat): Result<(int, int), PinError>
    requires WellFormed(t)
  {
    CapacityLocationFrom(t, pin, 0)
  }

  /** get_capacity_location_from_physical_pin: walk the sub-tiles, removing the pins
      of each one passed. */
  method CapacityLocationFromPin(t: TileType, pin: nat) returns (r: Result<(int, int), PinError>)
    requires WellFormed(t)
    ensures r == CapacityLocation(t, pin)
  {
    var pinsToRemove := 0;
    for k := 0 to |t.subTiles|
      invariant pinsToRemove == PhyPinsBefore(t.subTiles, k) <= pin
      invariant CapacityLocationFrom(t, pin, k) == CapacityLocation(t, pin)
    {
      var st := t.subTiles[k];
      var subTilePin := pin - pinsToRemove;
      if subTilePin < st.numPhyPins {
        PerInstancePositive(st);
        var perInst := st.numPhyPins / Total(st.capacity);
        return Ok((subTilePin / perInst + st.capacity.low, subTilePin % perInst));
      }
      pinsToRemove := pinsToRemove + st.numPhyPins;
    }
    return Err(NoSubTileForPin);
  }

  /** get_physical_pin_from_capacity_location, from sub-tile k on: the first
      sub-tile whose capacity range holds the location gives the tile pin. */
  function PinFromLocationFrom(t: TileType, relPin: int, loc: int, k: nat): Result<int, PinError>
    requires WellFormed(t) && k <= |t.subTiles|
    decreases |t.subTiles| - k
  {
    if k == |t.subTiles| then Err(NoSubTileForLocation)
    else
      var st := t.subTiles[k];
      if InRange(st.capacity, loc) then
        Ok(PhyPinsBefore(t.subTiles, k) + PinsPerInstance(st) * (loc - st.capacity.low) + relPin)
      else PinFromLocationFrom(t, relPin, loc, k + 1)
  }

  function PinFromLocation(t: TileType, relPin: int, loc: int): Result<int, PinError>
    requires WellFormed(t)
  {
    PinFromLocationFrom(t, relPin, loc, 0)
  }

  /** get_physical_pin_from_capacity_location: walk the sub-tiles, adding the pins of
      each one passed. */
  method PinFromCapacityLocation(t: TileType, relPin: int, loc: int) returns (r: Result<int, PinError>)
    requires WellFormed(t)
    ensures r == PinFromLocation(t, relPin, loc)
  {
    var pinsToAdd := 0;
    for k := 0 to |t.subTiles|
      invariant pinsToAdd == PhyPinsBefore(t.subTiles, k)
      invariant PinFromLocationFrom(t, relPin, loc, k) == PinFromLocation(t, relPin, loc)
    {
      var st := t.subTiles[k];
      var relCapacity := loc - st.capacity.low;
      var numInstPins := st.numPhyPins / Total(st.capacity);
      if st.capacity.low <= loc <= st.capacity.high {
        return Ok(pinsToAdd + numInstPins * relCapacity + relPin);
      }
      pinsToAdd := pinsToAdd + st.numPhyPins;
    }
    return Err(NoSubTileForLocation);
  }

  /** A pin inside sub-tile k's block of tile pins is decoded by sub-tile k. */
  lemma {:induction false} CapacityLocationAt(t: TileType, pin: nat, k: nat, j: nat)
    requires WellFormed(t) && j <= k < |t.subTiles| && PhyPinsBefore(t.subTiles, j) <= pin
    requires PhyPinsBefore(t.subTiles, k) <= pin < PhyPinsBefore(t.subTiles, k + 1)
    ensures var st := t.subTiles[k];
            var d := pin - PhyPinsBefore(t.subTiles, k);
            CapacityLocationFrom(t, pin, j) == Ok((d / PinsPerInstance(st) + st.capacity.low, d % PinsPerInstance(st)))
    decreases k - j
  {
    if j < k {
      PhyPinsBeforeMonotone(t.subTiles, j + 1, k);
      assert pin - PhyPinsBefore(t.subTiles, j) >= t.subTiles[j].numPhyPins;
      CapacityLocationAt(t, pin, k, j + 1);
    } else {
      assert pin - PhyPinsBefore(t.subTiles, k) < t.subTiles[k].numPhyPins;
    }
  }

  /** A location in sub-tile k's capacity range is encoded by sub-tile k when no
      other sub-tile covers it. */
  lemma {:induction false} PinFromLocationAt(t: TileType, relPin: int, loc: int, k: nat, j: nat)
    requires WellFormed(t) && DisjointCapacities(t) && j <= k < |t.subTiles|
    requires InRange(t.subTiles[k].capacity, loc)
    ensures var st := t.subTiles[k];
            PinFromLocationFrom(t, relPin, loc, j)
              == Ok(PhyPinsBefore(t.subTiles, k) + PinsPerInstance(st) * (loc - st.capacity.low) + relPin)
    decreases k - j
  {
    if j < k {
      PinFromLocationAt(t, relPin, loc, k, j + 1);
    }
  }

  /** A pin below the tile's total is inside exactly one sub-tile's block of pins. */
  lemma {:induction false} PinInSomeSubTile(sts: seq<SubTile>, pin: nat, n: nat) returns (k: nat)
    requires n <= |sts| && pin < PhyPinsBefore(sts, n)
    ensures k < n && PhyPinsBefore(sts, k) <= pin < PhyPinsBefore(sts, k + 1)
  {
    if pin >= PhyPinsBefore(sts, n - 1) {
      k := n - 1;
    } else {
      k := PinInSomeSubTile(sts, pin, n - 1);
    }
  }

  /** The capacity location of a pin is found exactly when the pin is below the
      total of the sub-tiles' tile pins. */
  lemma CapacityLocationFails(t: TileType, pin: nat)
    requires WellFormed(t)
    ensures CapacityLocation(t, pin).Err? <==> pin >= PhyPinsBefore(t.subTiles, |t.subTiles|)
  {
    if pin < PhyPinsBefore(t.subTiles, |t.subTiles|) {
      var k := PinInSomeSubTile(t.subTiles, pin, |t.subTiles|);
      CapacityLocationAt(t, pin, k, 0);
    } else {
      CapacityLocationNone(t, pin, 0);
    }
  }

  lemma {:induction false} CapacityLocationNone(t: TileType, pin: nat, j: nat)
    requires WellFormed(t) && j <= |t.subTiles| && PhyPinsBefore(t.subTiles, j) <= pin
    requires pin >= PhyPinsBefore(t.subTiles, |t.subTiles|)
    ensures CapacityLocationFrom(t, pin, j).Err?
    decreases |t.subTiles| - j
  {
    if j < |t.subTiles| {
      PhyPinsBeforeMonotone(t.subTiles, j + 1, |t.subTiles|);
      CapacityLocationNone(t, pin, j + 1);
    }
  }

  /** The tile pin of a location is found exactly when some sub-tile's capacity
      range holds the location. */
  lemma {:induction false} PinFromLocationFails(t: TileType, relPin: int, loc: int, j: nat)
    requires WellFormed(t) && j <= |t.subTiles|
    ensures PinFromLocationFrom(t, relPin, loc, j).Err? <==>
              forall k :: j <= k < |t.subTiles| ==> !InRange(t.subTiles[k].capacity, loc)
    decreases |t.subTiles| - j
  {
    if j < |t.subTiles| {
      PinFromLocationFails(t, relPin, loc, j + 1);
    }
  }

  /** Decoding a tile pin into a capacity location and a pin within the instance,
      then encoding them again, gives the pin back. */
  lemma PinLocationPin(t: TileType, pin: nat)
    requires WellFormed(t) && DisjointCapacities(t) && pin < PhyPinsBefore(t.subTiles, |t.subTiles|)
    ensures CapacityLocation(t, pin).Ok?
    ensures PinFromLocation(t, CapacityLocation(t, pin).value.1, CapacityLocation(t, pin).value.0) == Ok(pin)
  {
    var k := PinInSomeSubTile(t.subTiles, pin, |t.subTiles|);
    CapacityLocationAt(t, pin, k, 0);
    var st := t.subTiles[k];
    var d := pin - PhyPinsBefore(t.subTiles, k);
    PerInstancePositive(st);
    var per := PinsPerInstance(st);
    SplitBelow(d, per, Total(st.capacity));
    PinFromLocationAt(t, d % per, d / per + st.capacity.low, k, 0);
  }

  /** Encoding a capacity location and a pin within the instance into a tile pin,
      then decoding it, gives them back. */
  lemma LocationPinLocation(t: TileType, relPin: int, loc: int, k: nat)
    requires WellFormed(t) && DisjointCapacities(t) && k < |t.subTiles|
    requires InRange(t.subTiles[k].capacity, loc) && 0 <= relPin < PinsPerInstance(t.subTiles[k])
    ensures PinFromLocation(t, relPin, loc).Ok? && PinFromLocation(t, relPin, loc).value >= 0
    ensures CapacityLocation(t, PinFromLocation(t, relPin, loc).value as nat) == Ok((loc, relPin))
  {
    var st := t.subTiles[k];
    var per := PinsPerInstance(st);
    var q := loc - st.capacity.low;
    var base := PhyPinsBefore(t.subTiles, k);
    PinFromLocationAt(t, relPin, loc, k, 0);
    assert st.numPhyPins == per * Total(st.capacity);
    EncodeDecode(base, per, Total(st.capacity), q, relPin);
    CapacityLocationAt(t, base + per * q + relPin, k, 0);
  }

  /** A number made of an instance q below total and a remainder r below per, laid
      after base, falls in the block [base, base + per * total) and splits back into
      q and r. */
  lemma EncodeDecode(base: int, per: int, total: int, q: int, r: int)
    requires per > 0 && 0 <= q < total && 0 <= r < per
    ensures base <= base + per * q + r < base + per * total
    ensures (per * q + r) / per == q && (per * q + r) % per == r
  {
    JoinBelow(q, per, total, r);
    DivModOf(q, per, r);
    assert q * per == per * q;
  }

  /** The position of the first port with the name. */
  function PortIndex(ports: seq<Port>, name: string): (r: Option<nat>)
    ensures r.Some? ==> r.value < |ports| && ports[r.value].name == name
                        && forall p :: 0 <= p < r.value ==> ports[p].name != name
    ensures r.None? ==> forall p :: 0 <= p < |ports| ==> ports[p].name != name
  {
    if ports == [] then None
    else
      var pre := PortIndex(ports[..|ports| - 1], name);
      if pre.Some? then Some(pre.value)
      else if ports[|ports| - 1].name == name then Some(|ports| - 1)
      else None
  }

  /** The position of the first sub-tile with a port of the name. */
  function PortSubTile(sts: seq<SubTile>, name: string): (r: Option<nat>)
    ensures r.Some? ==> r.value < |sts| && PortIndex(sts[r.value].ports, name).Some?
                        && forall k :: 0 <= k < r.value ==> PortIndex(sts[k].ports, name).None?
    ensures r.None? ==> forall k :: 0 <= k < |sts| ==> PortIndex(sts[k].ports, name).None?
  {
    if sts == [] then None
    else
      var pre := PortSubTile(sts[..|sts| - 1], name);
      if pre.Some? then Some(pre.value)
      else if PortIndex(sts[|sts| - 1].ports, name).Some? then Some(|sts| - 1)
      else None
  }

  /** The pins of the ports before position p. */
  function PortPinsBefore(ports: seq<Port>, p: nat): nat
    requires p <= |ports|
  {
    if p == 0 then 0 else PortPinsBefore(ports, p - 1) + ports[p - 1].numPins
  }

  lemma {:induction false} PortPinsBeforeMonotone(ports: seq<Port>, p: nat, q: nat)
    requires p <= q <= |ports|
    ensures PortPinsBefore(ports, p) <= PortPinsBefore(ports, q)
    decreases q - p
  {
    if p < q {
      PortPinsBeforeMonotone(ports, p, q - 1);
    }
  }

  /** find_pin, as a value: Open when no port has the name; otherwise the pin of the
      first such port, in the first capacity instance of its sub-tile, and an error
      when the index is not below the port's width. */
  function FindPinOf(t: TileType, name: string, idx: int): Result<int, PinError>
  {
    match PortSubTile(t.subTiles, name)
    case None => Ok(Open)
    case Some(k) =>
      var ports := t.subTiles[k].ports;
      var p := PortIndex(ports, name).value;
      if idx < ports[p].numPins then Ok(PhyPinsBefore(t.subTiles, k) + PortPinsBefore(ports, p) + idx)
      else Err(PinIndexOutOfPort)
  }

  /** find_pin: scan the sub-tiles and their ports for the name, counting the pins
      of the ports and sub-tiles passed. */
  method FindPin(t: TileType, name: string, idx: int) returns (r: Result<int, PinError>)
    ensures r == FindPinOf(t, name, idx)
  {
    var portBaseIpin := 0;
    var numPins := Open;
    var pinOffset := 0;
    var portFound := false;
    var k := 0;
    while k < |t.subTiles|
      invariant 0 <= k <= |t.subTiles| && numPins == Open
      invariant pinOffset == PhyPinsBefore(t.subTiles, k)
      invariant forall j :: 0 <= j < k ==> PortIndex(t.subTiles[j].ports, name).None?
    {
      portFound, portBaseIpin, numPins := ScanPorts(t.subTiles[k].ports, name);
      if portFound {
        break;
      }
      pinOffset := pinOffset + t.subTiles[k].numPhyPins;
      k := k + 1;
    }
    if portFound {
      PortSubTileAt(t.subTiles, name, k);
      if !(idx < numPins) {
        return Err(PinIndexOutOfPort);
      }
      return Ok(portBaseIpin + idx + pinOffset);
    }
    assert PortSubTile(t.subTiles, name).None?;
    return Ok(Open);
  }

  /** The first sub-tile with a port of the name is the one after all those without. */
  lemma PortSubTileAt(sts: seq<SubTile>, name: string, k: nat)
    requires k < |sts| && PortIndex(sts[k].ports, name).Some?
    requires forall j :: 0 <= j < k ==> PortIndex(sts[j].ports, name).None?
    ensures PortSubTile(sts, name) == Some(k)
  {
  }

  /** The inner loop of find_pin over one sub-tile's ports: whether a port has the
      name, and then the pins of the ports before the first such port and its width. */
  method ScanPorts(ports: seq<Port>, name: string) returns (found: bool, base: nat, numPins: int)
    ensures found <==> PortIndex(ports, name).Some?
    ensures found ==> base == PortPinsBefore(ports, PortIndex(ports, name).value)
                      && numPins == ports[PortIndex(ports, name).value].numPins
    ensures !found ==> numPins == Open
  {
    found, base, numPins := false, 0, Open;
    var p := 0;
    while p < |ports|
      invariant 0 <= p <= |ports|
      invariant base == PortPinsBefore(ports, p)
      invariant forall q :: 0 <= q < p ==> ports[q].name != name
    {
      if ports[p].name == name {
        assert PortIndex(ports, name) == Some(p);
        return true, base, ports[p].numPins;
      }
      base := base + ports[p].numPins;
      p := p + 1;
    }
  }

  /** With a non-negative index, find_pin answers Open exactly when no port has the
      name. */
  lemma FindPinOpen(t: TileType, name: string, idx: int)
    requires idx >= 0
    ensures FindPinOf(t, name, idx) == Ok(Open) <==>
              forall k, p :: 0 <= k < |t.subTiles| && 0 <= p < |t.subTiles[k].ports| ==> t.subTiles[k].ports[p].name != name
  {
    if PortSubTile(t.subTiles, name).Some? {
      var k := PortSubTile(t.subTiles, name).value;
      var p := PortIndex(t.subTiles[k].ports, name).value;
      assert t.subTiles[k].ports[p].name == name;
    } else {
      forall k, p | 0 <= k < |t.subTiles| && 0 <= p < |t.subTiles[k].ports|
        ensures t.subTiles[k].ports[p].name != name
      {
        assert PortIndex(t.subTiles[k].ports, name).None?;
      }
    }
  }

  /** The ports of one capacity instance account for all of its tile pins. */
  predicate PortsCoverInstance(st: SubTile)
  {
    st.numPhyPins == Total(st.capacity) * PortPinsBefore(st.ports, |st.ports|)
  }

  /** The pin find_pin returns lies in the first capacity instance of the port's
      sub-tile, at the port's place within the instance. */
  lemma FindPinInFirstInstance(t: TileType, name: string, idx: int)
    requires WellFormed(t) && idx >= 0
    requires forall k :: 0 <= k < |t.subTiles| ==> PortsCoverInstance(t.subTiles[k])
    requires FindPinOf(t, name, idx).Ok? && PortSubTile(t.subTiles, name).Some?
    ensures var k := PortSubTile(t.subTiles, name).value;
            var ports := t.subTiles[k].ports;
            var pin := FindPinOf(t, name, idx).value;
            && pin >= 0
            && CapacityLocation(t, pin as nat)
                 == Ok((t.subTiles[k].capacity.low, PortPinsBefore(ports, PortIndex(ports, name).value) + idx))
  {
    var k := PortSubTile(t.subTiles, name).value;
    var st := t.subTiles[k];
    var p := PortIndex(st.ports, name).value;
    var d := PortPinsBefore(st.ports, p) + idx;
    var per := PortPinsBefore(st.ports, |st.ports|);
    PortPinsBeforeMonotone(st.ports, p + 1, |st.ports|);
    assert 0 <= d < per;
    assert st.numPhyPins == Total(st.capacity) * per;
    MulAtLeast(Total(st.capacity), per);
    PerInstancePositive(st);
    assert PinsPerInstance(st) == per by {
      DivModOf(per, Total(st.capacity), 0);
    }
    DivModOf(0, per, d);
    CapacityLocationAt(t, PhyPinsBefore(t.subTiles, k) + d, k, 0);
  }

  /** The position of the last sub-tile that can host the block. */
  function LastHosting(sts: seq<SubTile>, b: LogicalBlock): (r: Option<nat>)
    ensures r.Some? ==> r.value < |sts| && b in sts[r.value].sites
                        && forall k :: r.value < k < |sts| ==> b !in sts[k].sites
    ensures r.None? ==> forall k :: 0 <= k < |sts| ==> b !in sts[k].sites
  {
    if sts == [] then None
    else if b in sts[|sts| - 1].sites then Some(|sts| - 1)
    else LastHosting(sts[..|sts| - 1], b)
  }

  /** get_logical_block_physical_sub_tile_index without a capacity location: the
      index of the last sub-tile whose list of hosted blocks holds the block, since
      the scan does not stop at the first match; an error when none does. */
  method BlockSubTileIndex(t: TileType, b: LogicalBlock) returns (r: Result<nat, PinError>)
    ensures LastHosting(t.subTiles, b).Some? ==> r == Ok(t.subTiles[LastHosting(t.subTiles, b).value].index)
    ensures LastHosting(t.subTiles, b).None? ==> r == Err(NoSubTileForBlock)
  {
    var subTileIndex: int := Open;
    for k := 0 to |t.subTiles|
      invariant LastHosting(t.subTiles[..k], b).Some? ==> subTileIndex == t.subTiles[LastHosting(t.subTiles[..k], b).value].index
      invariant LastHosting(t.subTiles[..k], b).None? ==> subTileIndex == Open
    {
      assert t.subTiles[..k + 1][..k] == t.subTiles[..k];
      if b in t.subTiles[k].sites {
        subTileIndex := t.subTiles[k].index;
      }
    }
    assert t.subTiles[..|t.subTiles|] == t.subTiles;
    if subTileIndex == Open {
      return Err(NoSubTileForBlock);
    }
    return Ok(subTileIndex);
  }

  /** The position of the first sub-tile that can host the block at the location. */
  function FirstHostingAt(sts: seq<SubTile>, b: LogicalBlock, loc: int): (r: Option<nat>)
    ensures r.Some? ==> r.value < |sts| && b in sts[r.value].sites && InRange(sts[r.value].capacity, loc)
                        && forall k :: 0 <= k < r.value ==> !(b in sts[k].sites && InRange(sts[k].capacity, loc))
    ensures r.None? ==> forall k :: 0 <= k < |sts| ==> !(b in sts[k].sites && InRange(sts[k].capacity, loc))
  {
    if sts == [] then None
    else
      var pre := FirstHostingAt(sts[..|sts| - 1], b, loc);
      if pre.Some? then Some(pre.value)
      else if b in sts[|sts| - 1].sites && InRange(sts[|sts| - 1].capacity, loc) then Some(|sts| - 1)
      else None
  }

  /** get_logical_block_physical_sub_tile_index with a capacity location: the index
      of the first sub-tile that can host the block and covers the location; an
      error when none does. */
  method BlockSubTileIndexAt(t: TileType, b: LogicalBlock, loc: int) returns (r: Result<nat, PinError>)
    ensures FirstHostingAt(t.subTiles, b, loc).Some? ==> r == Ok(t.subTiles[FirstHostingAt(t.subTiles, b, loc).value].index)
    ensures FirstHostingAt(t.subTiles, b, loc).None? ==> r == Err(NoSubTileForBlock)
  {
    var subTileIndex: int := Open;
    ghost var found := 0;
    for k := 0 to |t.subTiles|
      invariant subTileIndex == Open
      invariant forall j :: 0 <= j < k ==> !(b in t.subTiles[j].sites && InRange(t.subTiles[j].capacity, loc))
    {
      var st := t.subTiles[k];
      if b in st.sites && st.capacity.low <= loc <= st.capacity.high {
        subTileIndex := st.index;
        found := k;
        break;
      }
    }
    if subTileIndex == Open {
      return Err(NoSubTileForBlock);
    }
    assert FirstHostingAt(t.subTiles, b, loc) == Some(found);
    return Ok(subTileIndex);
  }
}
