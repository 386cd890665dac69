/**
 * The data-centre pack's tabs: the rack elevation (location chain, unit map
 * and the slot list of a rack), the racks of a row, and the room overview
 * (rows in the room's orientation, racks in each row's own orientation).
 *
 * The graph queries are not modelled: their result rows are the inputs, in
 * the order the store returns them. A node lookup that finds nothing is a
 * `None` node.
 */
module DataCenterViews {
  import opened Values
  import opened StableSort

  type NodeId = string

  /** A node as a view sees it: element id and property bag. */
  datatype Node = Node(id: NodeId, props: PropertyBag)

  datatype ViewError =
    | NodeNotFound(kind: string, id: NodeId)  // "<kind> node not found: <id>"
    | NoHeight                                // "No height defined for this rack"
    | HeightNotInteger                        // `int(height)` raised

  // =====================================================================
  // Rack elevation tab: property list

  datatype PropertyRow = PropertyRow(key: string, value: Value, valueType: string)

  /**
   * One row per property of the rack, each with the Python type name of its
   * value. The order of the rows is the order of the bag, which a `map` does
   * not have: any order is allowed.
   */
  method PropertyRows(bag: PropertyBag) returns (rows: seq<PropertyRow>)
    ensures |rows| == |bag|
    ensures forall k :: k in bag ==> PropertyRow(k, bag[k], TypeName(bag[k])) in rows
    ensures forall r :: r in rows ==> r.key in bag && r.value == bag[r.key] && r.valueType == TypeName(r.value)
    ensures forall i, j :: 0 <= i < j < |rows| ==> rows[i].key != rows[j].key
  {
    rows := [];
    var remaining := bag.Keys;
    while remaining != {}
      invariant remaining <= bag.Keys
      invariant |rows| + |remaining| == |bag.Keys|
      invariant forall k :: k in bag.Keys - remaining ==> PropertyRow(k, bag[k], TypeName(bag[k])) in rows
      invariant forall r :: r in rows ==> r.key in bag.Keys - remaining && r.value == bag[r.key] && r.valueType == TypeName(r.value)
      invariant forall i, j :: 0 <= i < j < |rows| ==> rows[i].key != rows[j].key
      decreases |remaining|
    {
      var k :| k in remaining;
      rows := rows + [PropertyRow(k, bag[k], TypeName(bag[k]))];
      remaining := remaining - {k};
    }
    assert |bag| == |bag.Keys|;
  }

  // =====================================================================
  // Rack elevation tab: location chain

  /** A row of the LOCATED_IN path query; the label is missing when the rack has no container. */
  datatype LocationRow = LocationRow(nodeLabel: Option<string>, id: Value, name: Value, depth: Value)

  datatype Location = Location(nodeLabel: string, id: Value, name: Value, depth: Value)

  predicate HasLabel(row: LocationRow) {
    row.nodeLabel.Some? && row.nodeLabel.value != ""
  }

  function LocationOf(row: LocationRow): Location
    requires HasLabel(row)
  {
    Location(row.nodeLabel.value, row.id, row.name, row.depth)
  }

  /** The labelled rows, in query (depth-ascending) order: never more than the query gave, never an empty label. */
  function LocationChain(rows: seq<LocationRow>): (r: seq<Location>)
    ensures |r| <= |rows|
    ensures forall l :: l in r ==> l.nodeLabel != ""
  {
    if rows == [] then []
    else
      var last := rows[|rows| - 1];
      LocationChain(rows[..|rows| - 1]) + (if HasLabel(last) then [LocationOf(last)] else [])
  }

  method BuildLocationChain(rows: seq<LocationRow>) returns (chain: seq<Location>)
    ensures chain == LocationChain(rows)
  {
    chain := [];
    for i := 0 to |rows|
      invariant chain == LocationChain(rows[..i])
    {
      if HasLabel(rows[i]) {
        chain := chain + [LocationOf(rows[i])];
      }
      assert rows[..i + 1][..i] == rows[..i];
    }
    assert rows[..|rows|] == rows;
  }

  /** The chain of a concatenation is the concatenation of the chains: input order is kept. */
  lemma {:induction false} LocationChainAppend(a: seq<LocationRow>, b: seq<LocationRow>)
    ensures LocationChain(a + b) == LocationChain(a) + LocationChain(b)
  {
    if b == [] {
      assert a + b == a;
    } else {
      LocationChainAppend(a, b[..|b| - 1]);
      assert (a + b)[..|a + b| - 1] == a + b[..|b| - 1];
    }
  }

  /** The chain holds exactly the rows that have a label. */
  lemma {:induction false} LocationChainKeepsLabelled(rows: seq<LocationRow>)
    ensures |LocationChain(rows)| <= |rows|
    ensures forall i :: 0 <= i < |rows| && HasLabel(rows[i]) ==> LocationOf(rows[i]) in LocationChain(rows)
    ensures forall l :: l in LocationChain(rows) ==>
              l.nodeLabel != "" && exists i :: 0 <= i < |rows| && HasLabel(rows[i]) && LocationOf(rows[i]) == l
  {
    if rows != [] {
      var init := rows[..|rows| - 1];
      LocationChainKeepsLabelled(init);
      forall l | l in LocationChain(rows)
        ensures l.nodeLabel != "" && exists i :: 0 <= i < |rows| && HasLabel(rows[i]) && LocationOf(rows[i]) == l
      {
        if l in LocationChain(init) {
          var i :| 0 <= i < |init| && HasLabel(init[i]) && LocationOf(init[i]) == l;
          assert rows[i] == init[i];
        }
      }
      forall i | 0 <= i < |rows| && HasLabel(rows[i])
        ensures LocationOf(rows[i]) in LocationChain(rows)
      {
        if i < |rows| - 1 {
          assert rows[i] == init[i];
        }
      }
    }
  }

  // =====================================================================
  // Rack elevation tab: unit map and slot list

  /** A row of the unit query: a Rack_Unit and the device located in it, if any. */
  datatype UnitRow = UnitRow(unitNumber: Value, status: Value, deviceId: Option<string>, deviceName: Value, deviceLabel: Value)

  datatype DeviceRef = DeviceRef(targetLabel: Value, targetId: string, targetName: Value)

  datatype Slot = Slot(number: Value, status: Value, device: Option<DeviceRef>)

  /** Python dict keys: `True` and `1` (and `False` and `0`) are the same key. */
  function DictKey(v: Value): Value {
    if v.Bool? then Int(if v.b then 1 else 0) else v
  }

  /** The unit map entry of a row: a device only when the device id is truthy. */
  function SlotOf(row: UnitRow): (s: Slot)
    ensures s.number == row.unitNumber && s.status == row.status
    ensures s.device.Some? <==> row.deviceId.Some? && row.deviceId.value != ""
    ensures s.device.Some? ==> s.device.value.targetId == row.deviceId.value
  {
    Slot(row.unitNumber, row.status,
      if row.deviceId.Some? && row.deviceId.value != ""
      then Some(DeviceRef(row.deviceLabel, row.deviceId.value, row.deviceName))
      else None)
  }

  /**
   * The unit map after the rows in order: a row without a unit number is
   * skipped, a later row overwrites. No key is None, and no key is a boolean
   * (`True` is filed under 1).
   */
  function UnitMap(rows: seq<UnitRow>): (r: map<Value, Slot>)
    ensures forall k :: k in r ==> k != Null && !k.Bool?
  {
    if rows == [] then map[]
    else
      var m := UnitMap(rows[..|rows| - 1]);
      var row := rows[|rows| - 1];
      if row.unitNumber == Null then m else m[DictKey(row.unitNumber) := SlotOf(row)]
  }

  method BuildUnitMap(rows: seq<UnitRow>) returns (units: map<Value, Slot>)
    ensures units == UnitMap(rows)
  {
    units := map[];
    for i := 0 to |rows|
      invariant units == UnitMap(rows[..i])
    {
      var row := rows[i];
      if row.unitNumber != Null {
        units := units[DictKey(row.unitNumber) := SlotOf(row)];
      }
      assert rows[..i + 1][..i] == rows[..i];
    }
    assert rows[..|rows|] == rows;
  }

  /** Every unit map entry is filed under its own unit number. */
  lemma {:induction false} UnitMapNumbers(rows: seq<UnitRow>)
    ensures forall k :: k in UnitMap(rows) ==> DictKey(UnitMap(rows)[k].number) == k && k != Null
  {
    if rows != [] {
      UnitMapNumbers(rows[..|rows| - 1]);
    }
  }

  /** A unit number is in the map iff some row with a unit number carries it. */
  lemma {:induction false} UnitMapKeys(rows: seq<UnitRow>, k: Value)
    ensures k in UnitMap(rows) <==> exists i :: 0 <= i < |rows| && rows[i].unitNumber != Null && DictKey(rows[i].unitNumber) == k
  {
    if rows != [] {
      var init := rows[..|rows| - 1];
      UnitMapKeys(init, k);
      if exists i :: 0 <= i < |init| && init[i].unitNumber != Null && DictKey(init[i].unitNumber) == k {
        var i :| 0 <= i < |init| && init[i].unitNumber != Null && DictKey(init[i].unitNumber) == k;
        assert rows[i] == init[i];
      }
      if exists i :: 0 <= i < |rows| && rows[i].unitNumber != Null && DictKey(rows[i].unitNumber) == k {
        var i :| 0 <= i < |rows| && rows[i].unitNumber != Null && DictKey(rows[i].unitNumber) == k;
        if i < |rows| - 1 {
          assert init[i] == rows[i];
        }
      }
    }
  }

  /** The entry for a unit number comes from the last row that carries it. */
  lemma {:induction false} UnitMapLastRowWins(rows: seq<UnitRow>, i: nat)
    requires i < |rows| && rows[i].unitNumber != Null
    requires forall j :: i < j < |rows| ==> rows[j].unitNumber == Null || DictKey(rows[j].unitNumber) != DictKey(rows[i].unitNumber)
    ensures DictKey(rows[i].unitNumber) in UnitMap(rows)
    ensures UnitMap(rows)[DictKey(rows[i].unitNumber)] == SlotOf(rows[i])
  {
    if i < |rows| - 1 {
      var init := rows[..|rows| - 1];
      assert init[i] == rows[i];
      UnitMapLastRowWins(init, i);
    }
  }

  /** The slot for unit number `n`: an empty slot unless the map has that unit; a device only from the map. */
  function SlotAt(units: map<Value, Slot>, n: int): (r: Slot)
    ensures Int(n) !in units ==> r == Slot(Int(n), Str("empty"), None)
    ensures r.device.Some? ==> Int(n) in units && r == units[Int(n)]
  {
    if Int(n) in units then units[Int(n)] else Slot(Int(n), Str("empty"), None)
  }

  /** Python's `range(height, 0, -1)` mapped through `SlotAt`. */
  function RackUnits(height: int, units: map<Value, Slot>): (slots: seq<Slot>)
    ensures |slots| == if height > 0 then height else 0
  {
    seq(if height > 0 then height else 0, i requires 0 <= i => SlotAt(units, height - i))
  }

  method BuildRackUnits(height: int, units: map<Value, Slot>) returns (slots: seq<Slot>)
    ensures slots == RackUnits(height, units)
  {
    slots := [];
    var n := height;
    while n > 0
      invariant n <= height
      invariant n > 0 ==> |slots| == height - n
      invariant n <= 0 ==> |slots| == (if height > 0 then height else 0)
      invariant forall i :: 0 <= i < |slots| ==> slots[i] == SlotAt(units, height - i)
    {
      slots := slots + [SlotAt(units, n)];
      n := n - 1;
    }
  }

  /**
   * The slots of a rack built from unit rows: exactly `height` of them,
   * numbered from `height` down to 1; a number no row carries is an empty
   * slot, any other number holds the entry of the last row that carries it.
   */
  lemma RackUnitsLayout(height: int, rows: seq<UnitRow>)
    ensures |RackUnits(height, UnitMap(rows))| == if height > 0 then height else 0
    ensures forall i :: 0 <= i < |RackUnits(height, UnitMap(rows))| ==>
              DictKey(RackUnits(height, UnitMap(rows))[i].number) == Int(height - i)
    ensures forall i :: 0 <= i < |RackUnits(height, UnitMap(rows))| && Int(height - i) !in UnitMap(rows) ==>
              RackUnits(height, UnitMap(rows))[i] == Slot(Int(height - i), Str("empty"), None)
    ensures forall i :: 0 <= i < |RackUnits(height, UnitMap(rows))| && Int(height - i) in UnitMap(rows) ==>
              RackUnits(height, UnitMap(rows))[i] == UnitMap(rows)[Int(height - i)]
  {
    var units := UnitMap(rows);
    UnitMapNumbers(rows);
    forall i | 0 <= i < |RackUnits(height, units)|
      ensures DictKey(RackUnits(height, units)[i].number) == Int(height - i)
      ensures Int(height - i) !in units ==> RackUnits(height, units)[i] == Slot(Int(height - i), Str("empty"), None)
      ensures Int(height - i) in units ==> RackUnits(height, units)[i] == units[Int(height - i)]
    {
      assert RackUnits(height, units)[i] == SlotAt(units, height - i);
    }
  }

  // =====================================================================
  // Rack elevation tab: the height check and the whole tab

  /** Python's `int(int_or_text)`, after the `if not height` check; text goes through `PythonInt`. */
  function ParseHeight(v: Value): (r: Result<int, ViewError>)
    ensures r == Err(NoHeight) <==> !Truthy(v)
    ensures v.Int? && v.i != 0 ==> r == Ok(v.i)
  {
    if !Truthy(v) then Err(NoHeight)
    else match v
      case Int(i) => Ok(i)
      case Bool(_) => Ok(1)
      case Float(t) => Ok(FloatToInt(t))
      case Str(s) => (match PythonInt(s) case Some(n) => Ok(n) case None => Err(HeightNotInteger))
      case _ => Err(HeightNotInteger)
  }

  /**
   * The text "0" is a truthy string, so it passes the missing-height check
   * and converts to 0: the rack gets no slots and no error. A negative height
   * likewise gives no slots and no error.
   */
  lemma ZeroHeightTextGivesNoSlots(rows: seq<UnitRow>)
    ensures ParseHeight(Str("0")) == Ok(0)
    ensures RackUnits(0, UnitMap(rows)) == []
  {
    assert Strip("0") == "0";
    assert AllDigits("0");
    assert DigitsValue("0") == DigitsValue("") * 10 + DigitOf('0');
  }

  /** A height stored as the decimal text of an integer converts to that integer. */
  lemma ParseHeightText(n: int)
    ensures ParseHeight(Str(IntText(n))) == Ok(n)
  {
    var t := IntText(n);
    PythonIntRoundTrip(n);
    assert |Strip(t)| > 0;
    assert Truthy(Str(t));
  }

  /** `int()` accepts underscore grouping: the height text "4_2" is 42 units. */
  lemma ParseHeightGrouped(a: string, b: string)
    requires AllDigits(a) && AllDigits(b)
    ensures AllDigits(a + b)
    ensures ParseHeight(Str(a + "_" + b)) == Ok(DigitsValue(a + b) as int)
  {
    PythonIntGrouped(a, b);
  }

  datatype RackContext = RackContext(
    node: Option<Node>,
    properties: seq<PropertyRow>,
    locationChain: seq<Location>,
    rackUnits: seq<Slot>,
    error: Option<ViewError>)

  /**
   * The rack elevation tab. A missing rack is reported with everything else
   * empty; otherwise the property list and the location chain are always
   * filled, and a missing, zero or unconvertible height leaves the slot list
   * empty and sets the error.
   */
  method RackElevationTab(rack: Option<Node>, elementId: NodeId, locations: seq<LocationRow>, units: seq<UnitRow>)
    returns (ctx: RackContext)
    ensures rack.None? ==> ctx == RackContext(None, [], [], [], Some(NodeNotFound("Rack", elementId)))
    ensures rack.Some? ==> ctx.node == rack && ctx.locationChain == LocationChain(locations)
    ensures rack.Some? ==> |ctx.properties| == |rack.value.props|
    ensures rack.Some? ==> forall k :: k in rack.value.props ==>
              PropertyRow(k, rack.value.props[k], TypeName(rack.value.props[k])) in ctx.properties
    ensures rack.Some? ==>
              match ParseHeight(Get(rack.value.props, "height", Int(0)))
              case Err(e) => ctx.rackUnits == [] && ctx.error == Some(e)
              case Ok(h) => ctx.rackUnits == RackUnits(h, UnitMap(units)) && ctx.error == None
  {
    if rack.None? {
      return RackContext(None, [], [], [], Some(NodeNotFound("Rack", elementId)));
    }
    var node := rack.value;
    var properties := PropertyRows(node.props);
    var chain := BuildLocationChain(locations);
    ctx := RackContext(rack, properties, chain, [], None);
    var height := ParseHeight(Get(node.props, "height", Int(0)));
    if height.Err? {
      ctx := ctx.(error := Some(height.error));
      return;
    }
    var unitMap := BuildUnitMap(units);
    var slots := BuildRackUnits(height.value, unitMap);
    ctx := ctx.(rackUnits := slots);
  }

  // =====================================================================
  // Row racks tab

  /** A row of the racks-in-row query. */
  datatype RackRow = RackRow(id: string, nodeLabel: Value, name: Value, height: Value)

  datatype RackSummary = RackSummary(id: string, nodeLabel: Value, name: Value, height: Value)

  /** A rack's name, or else the first 12 characters of its id followed by "...": never blank. */
  function DisplayName(id: string, name: Value): (r: Value)
    ensures Truthy(r)
    ensures Truthy(name) ==> r == name
  {
    if Truthy(name) then name else Str(id[..if |id| < 12 then |id| else 12] + "...")
  }

  function Summary(row: RackRow): RackSummary {
    RackSummary(row.id, row.nodeLabel, DisplayName(row.id, row.name), Or(row.height, Int(0)))
  }

  /** A rack in the row tab is never shown without a name, and a fallback name starts with the id. */
  lemma DisplayNameNeverBlank(id: string, name: Value)
    ensures Truthy(DisplayName(id, name))
    ensures !Truthy(name) ==> DisplayName(id, name).Str? && |DisplayName(id, name).s| <= 15
    ensures !Truthy(name) && |id| >= 12 ==> DisplayName(id, name).s[..12] == id[..12]
    ensures !Truthy(name) && |id| < 12 ==> DisplayName(id, name).s == id + "..."
  {
  }

  datatype RowRacksContext = RowRacksContext(node: Option<Node>, racks: seq<RackSummary>, error: Option<ViewError>)

  method RowRacksTab(row: Option<Node>, elementId: NodeId, racks: seq<RackRow>) returns (ctx: RowRacksContext)
    ensures row.None? ==> ctx == RowRacksContext(None, [], Some(NodeNotFound("Row", elementId)))
    ensures row.Some? ==> ctx.node == row && ctx.error == None && |ctx.racks| == |racks|
    ensures row.Some? ==> forall i :: 0 <= i < |racks| ==> ctx.racks[i] == Summary(racks[i])
  {
    if row.None? {
      return RowRacksContext(None, [], Some(NodeNotFound("Row", elementId)));
    }
    var rowRacks: seq<RackSummary> := [];
    for i := 0 to |racks|
      invariant |rowRacks| == i
      invariant forall k :: 0 <= k < i ==> rowRacks[k] == Summary(racks[k])
    {
      rowRacks := rowRacks + [Summary(racks[i])];
    }
    ctx := RowRacksContext(row, rowRacks, None);
  }

  // =====================================================================
  // Room racks tab

  datatype Orientation = LeftToRight | RightToLeft | TopToBottom | BottomToTop | Unrecognised

  function OrientationOf(v: Value): Orientation {
    if v == Str("LeftToRight") then LeftToRight
    else if v == Str("RightToLeft") then RightToLeft
    else if v == Str("TopToBottom") then TopToBottom
    else if v == Str("BottomToTop") then BottomToTop
    else Unrecognised
  }

  /** A row of the racks-in-row query of the room tab. */
  datatype RackRecord = RackRecord(id: string, nodeLabel: Value, name: string, height: int, rackNumber: int)

  /** A row of the rows-in-room query; `orientation` defaults to "LeftToRight" in the query. */
  datatype RowRecord = RowRecord(id: string, nodeLabel: Value, name: Value, description: Value, rowNumber: int, orientation: Value)

  /** A row of the room together with the result of its racks query. */
  datatype RowQuery = RowQuery(row: RowRecord, racks: seq<RackRecord>)

  datatype RowView = RowView(
    id: string, nodeLabel: Value, name: Value, description: Value,
    rowNumber: int, orientation: Value, racks: seq<RackRecord>)

  function NumberKey(r: RackRecord): Key {
    Num(r.rackNumber)
  }

  function NameKey(r: RackRecord): Key {
    Text(r.name)
  }

  function RowNumberKey(v: RowView): Key {
    Num(v.rowNumber)
  }

  /** The sort key of racks in a row: the rack number, or the name when the orientation is not recognised. */
  function RackKey(o: Orientation): RackRecord -> Key {
    if o == Unrecognised then NameKey else NumberKey
  }

  function RackDirection(o: Orientation): Direction {
    if o == RightToLeft || o == BottomToTop then Descending else Ascending
  }

  /** The racks of a row in the order the row's orientation asks for: the same racks, rearranged. */
  function OrderRacks(racks: seq<RackRecord>, o: Orientation): (r: seq<RackRecord>)
    ensures multiset(r) == multiset(racks)
  {
    SortPermutation(racks, RackKey(o), RackDirection(o));
    Sort(racks, RackKey(o), RackDirection(o))
  }

  /** The rows of a room in the room's orientation, sorted by row number; an unrecognised one keeps query order. */
  function OrderRows(rows: seq<RowView>, o: Orientation): (r: seq<RowView>)
    ensures multiset(r) == multiset(rows)
    ensures o != Unrecognised ==> Sorted(r, RowNumberKey, RackDirection(o))
  {
    if o == Unrecognised then rows
    else
      SortPermutation(rows, RowNumberKey, RackDirection(o));
      SortSorted(rows, RowNumberKey, RackDirection(o));
      Sort(rows, RowNumberKey, RackDirection(o))
  }

  function ViewOf(q: RowQuery): RowView {
    RowView(q.row.id, q.row.nodeLabel, q.row.name, q.row.description, q.row.rowNumber, q.row.orientation,
            OrderRacks(q.racks, OrientationOf(q.row.orientation)))
  }

  /** The room's rows, one per queried row, each with its racks ordered. */
  function RoomRows(queries: seq<RowQuery>, roomOrientation: Value): (r: seq<RowView>)
    ensures |r| == |queries|
  {
    OrderRows(seq(|queries|, i requires 0 <= i < |queries| => ViewOf(queries[i])), OrientationOf(roomOrientation))
  }

  datatype RoomContext = RoomContext(node: Option<Node>, roomOrientation: Option<Value>, rows: seq<RowView>, error: Option<ViewError>)

  /** Appending one more rack and sorting again, by the row's orientation, extends the ordering by that rack. */
  lemma RackStep(racks: seq<RackRecord>, j: nat, o: Orientation)
    requires j < |racks|
    ensures Sort(racks[..j + 1], RackKey(o), RackDirection(o)) ==
            Sort(Sort(racks[..j], RackKey(o), RackDirection(o)) + [racks[j]], RackKey(o), RackDirection(o))
  {
    var key, dir := RackKey(o), RackDirection(o);
    SortAfterAppend(racks[..j], racks[j], key, dir);
    assert racks[..j + 1] == racks[..j] + [racks[j]];
  }

  /**
   * The racks of one row: each rack is appended and the list is sorted again
   * by the row's orientation.
   */
  method OrderRowRacks(racks: seq<RackRecord>, orientation: Orientation) returns (rowRacks: seq<RackRecord>)
    ensures rowRacks == OrderRacks(racks, orientation)
  {
    rowRacks := [];
    for j := 0 to |racks|
      invariant rowRacks == Sort(racks[..j], RackKey(orientation), RackDirection(orientation))
    {
      RackStep(racks, j, orientation);
      rowRacks := rowRacks + [racks[j]];
      if orientation == LeftToRight || orientation == TopToBottom {
        rowRacks := Sort(rowRacks, NumberKey, Ascending);
      } else if orientation == RightToLeft || orientation == BottomToTop {
        rowRacks := Sort(rowRacks, NumberKey, Descending);
      } else {
        rowRacks := Sort(rowRacks, NameKey, Ascending);
      }
    }
    assert racks[..|racks|] == racks;
  }

  /**
   * The room tab. Racks are appended one at a time and the row's list is
   * sorted again after each append; rows are appended and sorted once.
   */
  method RoomRacksTab(room: Option<Node>, elementId: NodeId, queries: seq<RowQuery>) returns (ctx: RoomContext)
    ensures room.None? ==> ctx == RoomContext(None, None, [], Some(NodeNotFound("Room", elementId)))
    ensures room.Some? ==>
              var o := Get(room.value.props, "orientation", Str("LeftToRight"));
              ctx == RoomContext(room, Some(o), RoomRows(queries, o), None)
  {
    if room.None? {
      return RoomContext(None, None, [], Some(NodeNotFound("Room", elementId)));
    }
    var roomOrientation := Get(room.value.props, "orientation", Str("LeftToRight"));
    var roomRows: seq<RowView> := [];
    for i := 0 to |queries|
      invariant roomRows == seq(i, k requires 0 <= k < i => ViewOf(queries[k]))
    {
      var q := queries[i];
      var rowRacks := OrderRowRacks(q.racks, OrientationOf(q.row.orientation));
      roomRows := roomRows + [RowView(q.row.id, q.row.nodeLabel, q.row.name, q.row.description,
                                      q.row.rowNumber, q.row.orientation, rowRacks)];
    }
    var o := OrientationOf(roomOrientation);
    if o == TopToBottom || o == LeftToRight {
      roomRows := Sort(roomRows, RowNumberKey, Ascending);
    } else if o == BottomToTop || o == RightToLeft {
      roomRows := Sort(roomRows, RowNumberKey, Descending);
    }
    ctx := RoomContext(room, Some(roomOrientation), roomRows, None);
  }

  // =====================================================================
  // Orientation properties

  lemma RacksByNumber(s: seq<RackRecord>, dir: Direction)
    requires Sorted(s, NumberKey, dir)
    ensures dir == Ascending ==> forall i, j :: 0 <= i < j < |s| ==> s[i].rackNumber <= s[j].rackNumber
    ensures dir == Descending ==> forall i, j :: 0 <= i < j < |s| ==> s[i].rackNumber >= s[j].rackNumber
  {
    forall i, j | 0 <= i < j < |s|
      ensures dir == Ascending ==> s[i].rackNumber <= s[j].rackNumber
      ensures dir == Descending ==> s[i].rackNumber >= s[j].rackNumber
    {
      assert !Precedes(NumberKey(s[j]), NumberKey(s[i]), dir);
    }
  }

  lemma RacksByName(s: seq<RackRecord>)
    requires Sorted(s, NameKey, Ascending)
    ensures forall i, j :: 0 <= i < j < |s| ==> !TextLess(s[j].name, s[i].name)
  {
    forall i, j | 0 <= i < j < |s|
      ensures !TextLess(s[j].name, s[i].name)
    {
      assert !Precedes(NameKey(s[j]), NameKey(s[i]), Ascending);
    }
  }

  /**
   * Left-to-right and top-to-bottom rows list racks by ascending rack
   * number, right-to-left and bottom-to-top rows by descending number, any
   * other orientation by name; the racks are those of the query, and racks
   * with equal keys keep query order.
   */
  lemma OrderRacksOrdering(racks: seq<RackRecord>, o: Orientation)
    ensures multiset(OrderRacks(racks, o)) == multiset(racks)
    ensures forall k :: WithKey(OrderRacks(racks, o), RackKey(o), k) == WithKey(racks, RackKey(o), k)
    ensures (o == LeftToRight || o == TopToBottom) ==>
              forall i, j :: 0 <= i < j < |racks| ==> OrderRacks(racks, o)[i].rackNumber <= OrderRacks(racks, o)[j].rackNumber
    ensures (o == RightToLeft || o == BottomToTop) ==>
              forall i, j :: 0 <= i < j < |racks| ==> OrderRacks(racks, o)[i].rackNumber >= OrderRacks(racks, o)[j].rackNumber
    ensures o == Unrecognised ==>
              forall i, j :: 0 <= i < j < |racks| ==> !TextLess(OrderRacks(racks, o)[j].name, OrderRacks(racks, o)[i].name)
  {
    var key, dir := RackKey(o), RackDirection(o);
    SortPermutation(racks, key, dir);
    SortSorted(racks, key, dir);
    forall k {
      SortStable(racks, key, dir, k);
    }
    if o == Unrecognised {
      RacksByName(Sort(racks, NameKey, Ascending));
    } else {
      RacksByNumber(Sort(racks, NumberKey, dir), dir);
    }
  }

  lemma RowsByNumber(s: seq<RowView>, dir: Direction)
    requires Sorted(s, RowNumberKey, dir)
    ensures dir == Ascending ==> forall i, j :: 0 <= i < j < |s| ==> s[i].rowNumber <= s[j].rowNumber
    ensures dir == Descending ==> forall i, j :: 0 <= i < j < |s| ==> s[i].rowNumber >= s[j].rowNumber
  {
    forall i, j | 0 <= i < j < |s|
      ensures dir == Ascending ==> s[i].rowNumber <= s[j].rowNumber
      ensures dir == Descending ==> s[i].rowNumber >= s[j].rowNumber
    {
      assert !Precedes(RowNumberKey(s[j]), RowNumberKey(s[i]), dir);
    }
  }

  /**
   * Rows sorted by a recognised orientation are ascending by row number for
   * TopToBottom and LeftToRight, descending for BottomToTop and RightToLeft,
   * and rows with equal numbers keep their order; an unrecognised
   * orientation keeps the given order.
   */
  lemma OrderRowsOrdering(rows: seq<RowView>, o: Orientation)
    ensures o == Unrecognised ==> OrderRows(rows, o) == rows
    ensures (o == TopToBottom || o == LeftToRight) ==>
              forall i, j :: 0 <= i < j < |rows| ==> OrderRows(rows, o)[i].rowNumber <= OrderRows(rows, o)[j].rowNumber
    ensures (o == BottomToTop || o == RightToLeft) ==>
              forall i, j :: 0 <= i < j < |rows| ==> OrderRows(rows, o)[i].rowNumber >= OrderRows(rows, o)[j].rowNumber
    ensures o != Unrecognised ==>
              forall k :: WithKey(OrderRows(rows, o), RowNumberKey, k) == WithKey(rows, RowNumberKey, k)
  {
    if o != Unrecognised {
      var dir := RackDirection(o);
      SortSorted(rows, RowNumberKey, dir);
      RowsByNumber(Sort(rows, RowNumberKey, dir), dir);
      forall k {
        SortStable(rows, RowNumberKey, dir, k);
      }
    }
  }

  /**
   * The rows of a room are ascending by row number for TopToBottom and
   * LeftToRight, descending for BottomToTop and RightToLeft, with rows of
   * equal number in query order, and in query order for any other
   * orientation.
   */
  lemma RoomRowsOrdering(queries: seq<RowQuery>, roomOrientation: Value)
    ensures |RoomRows(queries, roomOrientation)| == |queries|
    ensures OrientationOf(roomOrientation) == Unrecognised ==>
              forall i :: 0 <= i < |queries| ==> RoomRows(queries, roomOrientation)[i] == ViewOf(queries[i])
    ensures (OrientationOf(roomOrientation) == TopToBottom || OrientationOf(roomOrientation) == LeftToRight) ==>
              forall i, j :: 0 <= i < j < |queries| ==>
                RoomRows(queries, roomOrientation)[i].rowNumber <= RoomRows(queries, roomOrientation)[j].rowNumber
    ensures (OrientationOf(roomOrientation) == BottomToTop || OrientationOf(roomOrientation) == RightToLeft) ==>
              forall i, j :: 0 <= i < j < |queries| ==>
                RoomRows(queries, roomOrientation)[i].rowNumber >= RoomRows(queries, roomOrientation)[j].rowNumber
    ensures OrientationOf(roomOrientation) != Unrecognised ==>
              forall k :: WithKey(RoomRows(queries, roomOrientation), RowNumberKey, k) ==
                          WithKey(seq(|queries|, i requires 0 <= i < |queries| => ViewOf(queries[i])), RowNumberKey, k)
  {
    var views := seq(|queries|, i requires 0 <= i < |queries| => ViewOf(queries[i]));
    assert RoomRows(queries, roomOrientation) == OrderRows(views, OrientationOf(roomOrientation));
    OrderRowsOrdering(views, OrientationOf(roomOrientation));
  }

  /**
   * Every row of the room overview is one of the queried rows, with its
   * racks ordered by that row's own orientation, whatever the room's is.
   */
  lemma RoomRowsKeepRowOrientation(queries: seq<RowQuery>, roomOrientation: Value)
    ensures multiset(RoomRows(queries, roomOrientation)) == multiset(seq(|queries|, i requires 0 <= i < |queries| => ViewOf(queries[i])))
    ensures forall v :: v in RoomRows(queries, roomOrientation) ==>
              exists q :: q in queries && v == ViewOf(q) && v.racks == OrderRacks(q.racks, OrientationOf(v.orientation))
  {
    var views := seq(|queries|, i requires 0 <= i < |queries| => ViewOf(queries[i]));
    var o := OrientationOf(roomOrientation);
    if o != Unrecognised {
      SortPermutation(views, RowNumberKey, RackDirection(o));
    }
    forall v | v in RoomRows(queries, roomOrientation)
      ensures exists q :: q in queries && v == ViewOf(q) && v.racks == OrderRacks(q.racks, OrientationOf(v.orientation))
    {
      assert v in multiset(views);
      var i :| 0 <= i < |views| && views[i] == v;
      assert queries[i] in queries;
    }
  }
}
