/** What the gateway reads back from its tables after a push: the accepted configuration, and nothing
    else, so that what is polled is what was pushed. */
module Loading {
  import opened Results
  import opened Domain
  import opened Sequences
  import opened SqlStore
  import Accepting
  import Addressing
  import Configured
  import Decoding
  import Holding
  import Normalizing
  import Planning
  import Polling
  import Refinement
  import Text

  /** A stored address says whether it is enabled. */
  function Marked(addresses: seq<Address>): (marked: seq<Address>)
    ensures |marked| == |addresses| && forall i | 0 <= i < |marked| :: marked[i] == addresses[i].(enabledSet := true)
  {
    seq(|addresses|, i requires 0 <= i < |addresses| => addresses[i].(enabledSet := true))
  }

  /** The same device set, with its addresses in whatever order they were read. */
  ghost predicate SameSet(accepted: DeviceSet, v: DeviceSet) {
    && v.deviceSetId == accepted.deviceSetId && v.brandId == accepted.brandId
    && v.devTypeId == accepted.devTypeId && v.devType == accepted.devType && v.devModel == accepted.devModel
    && v.addressMode == accepted.addressMode && v.byteOrder == accepted.byteOrder && v.wordOrder == accepted.wordOrder
    && v.maxBlockSize == accepted.maxBlockSize
    && multiset(v.addresses) == multiset(Marked(accepted.addresses))
    && v.addressIdList == Normalizing.AddressIds(v.addresses)
  }

  // ----- the addresses of a device set -----

  lemma {:induction false} RowsReadBack(deviceSetId: int, addresses: seq<Address>, n: nat)
    requires n <= |addresses| && forall i | 0 <= i < |addresses| :: addresses[i].deviceSetId == deviceSetId
    ensures FlatTo(AddressIfOf(deviceSetId), AddressRows(deviceSetId, addresses), n) == Marked(addresses)[..n]
  {
    if n == 0 {
    } else {
      RowsReadBack(deviceSetId, addresses, n - 1);
      assert AddressFrom(AddressRowOf(deviceSetId, addresses[n - 1])) == Marked(addresses)[n - 1];
      assert Marked(addresses)[..n] == Marked(addresses)[..n - 1] + [Marked(addresses)[n - 1]];
    }
  }

  lemma OtherRowDoesNotCount(deviceSetId: int, r: AddressRow)
    requires r.deviceSetId != deviceSetId
    ensures AddressIfOf(deviceSetId)(r) == []
  {
  }

  lemma OtherRowsDoNotCount(deviceSetId: int, other: int, addresses: seq<Address>)
    requires other != deviceSetId
    ensures Flat(AddressIfOf(deviceSetId), AddressRows(other, addresses)) == []
  {
    var rows := AddressRows(other, addresses);
    forall i | 0 <= i < |rows|
      ensures AddressIfOf(deviceSetId)(rows[i]) == []
    {
      OtherRowDoesNotCount(deviceSetId, rows[i]);
    }
    FlatNone(AddressIfOf(deviceSetId), rows, |rows|);
    FlatToAll(AddressIfOf(deviceSetId), rows);
  }

  /** Every address of the set carries the set's id. */
  ghost predicate OwnsAddresses(v: DeviceSet) {
    forall i | 0 <= i < |v.addresses| :: v.addresses[i].deviceSetId == v.deviceSetId
  }

  lemma OneSetReadBack(deviceSetId: int, v: DeviceSet)
    requires OwnsAddresses(v)
    ensures Flat(AddressIfOf(deviceSetId), AddressRows(v.deviceSetId, v.addresses)) ==
            if v.deviceSetId == deviceSetId then Marked(v.addresses) else []
  {
    if v.deviceSetId == deviceSetId {
      FlatToAll(AddressIfOf(deviceSetId), AddressRows(deviceSetId, v.addresses));
      RowsReadBack(deviceSetId, v.addresses, |v.addresses|);
    } else {
      OtherRowsDoNotCount(deviceSetId, v.deviceSetId, v.addresses);
    }
  }

  function RowsOfSet(): DeviceSet -> seq<AddressRow> {
    (v: DeviceSet) => AddressRows(v.deviceSetId, v.addresses)
  }

  lemma {:induction false} AllRowsAreFlat(sets: seq<DeviceSet>, n: nat)
    requires n <= |sets|
    ensures AllAddressRows(sets, n) == FlatTo(RowsOfSet(), sets, n)
  {
    if n == 0 {
    } else {
      AllRowsAreFlat(sets, n - 1);
    }
  }

  function MarkedIfOwn(deviceSetId: int): DeviceSet -> seq<Address> {
    (v: DeviceSet) => if v.deviceSetId == deviceSetId then Marked(v.addresses) else []
  }

  /** Position k is the only one with its id. */
  ghost predicate OnlySet(sets: seq<DeviceSet>, k: nat) {
    k < |sets| && forall i | 0 <= i < |sets| && i != k :: sets[i].deviceSetId != sets[k].deviceSetId
  }

  lemma SetsReadBack(sets: seq<DeviceSet>, k: nat)
    requires OnlySet(sets, k) && forall i | 0 <= i < |sets| :: OwnsAddresses(sets[i])
    ensures Flat(AddressIfOf(sets[k].deviceSetId), AllAddressRows(sets, |sets|)) == Marked(sets[k].addresses)
  {
    var f, h := AddressIfOf(sets[k].deviceSetId), MarkedIfOwn(sets[k].deviceSetId);
    forall i | 0 <= i < |sets|
      ensures h(sets[i]) == Flat(f, RowsOfSet()(sets[i]))
    {
      OneSetReadBack(sets[k].deviceSetId, sets[i]);
    }
    AllRowsAreFlat(sets, |sets|);
    FlatTwice(f, RowsOfSet(), h, sets, |sets|);
    FlatOnly(h, sets, k, |sets|);
  }

  // ----- the accepted snapshot -----

  /** The tables hold what the gate made of the snapshot. */
  ghost predicate Stored(sent: Snapshot, t: Tables) {
    TheGate()(sent) == Some(t)
  }

  lemma StoredIsAccepted(sent: Snapshot, t: Tables)
    requires Stored(sent, t)
    ensures Normalizing.Normalize(sent).Ok? && t == TablesOf(Normalizing.Normalize(sent).value) && KeysHold(t)
  {
  }

  /** What was accepted for a snapshot that is stored. */
  ghost function Accepted(sent: Snapshot, t: Tables): Snapshot
    requires Stored(sent, t)
  {
    Normalizing.Normalize(sent).value
  }

  lemma AcceptedSets(sent: Snapshot, t: Tables)
    requires Stored(sent, t)
    ensures
      var s := Accepted(sent, t);
      && (forall i | 0 <= i < |s.deviceSets| :: Normalizing.CanonicalDeviceSet(Normalizing.BrandIds(s.brands), s.deviceSets[i]))
      && (forall i | 0 <= i < |s.deviceSets| :: OwnsAddresses(s.deviceSets[i]))
  {
    StoredIsAccepted(sent, t);
    Normalizing.AcceptedSnapshotIsCanonical(sent);
    var s := Accepted(sent, t);
    forall i | 0 <= i < |s.deviceSets|
      ensures Normalizing.CanonicalDeviceSet(Normalizing.BrandIds(s.brands), s.deviceSets[i])
    {
      assert Normalizing.IsCanonicalDeviceSet(Normalizing.BrandIds(s.brands))(s.deviceSets[i]);
    }
  }

  lemma KeysAreDistinct(s: Snapshot, k: nat)
    requires KeysHold(TablesOf(s)) && k < |s.deviceSets|
    ensures OnlySet(s.deviceSets, k)
  {
    var rows := TablesOf(s).deviceSets;
    forall i | 0 <= i < |s.deviceSets| && i != k
      ensures s.deviceSets[i].deviceSetId != s.deviceSets[k].deviceSetId
    {
      assert SetKey()(rows[i]) != SetKey()(rows[k]);
    }
  }

  /** The row that a query for the set at position i finds is its own. */
  lemma RowOfSet(s: Snapshot, i: nat, k: nat)
    requires KeysHold(TablesOf(s)) && i < |s.deviceSets| && IsSetRow(TablesOf(s), k, s.deviceSets[i].deviceSetId)
    ensures k == i
  {
    OneRowPerKey(TablesOf(s).deviceSets, SetKey(), k, i);
  }

  lemma LoadedIsSame(s: Snapshot, i: nat, v: DeviceSet)
    requires KeysHold(TablesOf(s)) && i < |s.deviceSets| && forall j | 0 <= j < |s.deviceSets| :: OwnsAddresses(s.deviceSets[j])
    requires SetLoads(TablesOf(s), s.deviceSets[i].deviceSetId, v)
    ensures SameSet(s.deviceSets[i], v) && SortedBy(AddressBefore, v.addresses)
  {
    var t, id := TablesOf(s), s.deviceSets[i].deviceSetId;
    var k: nat :| IsSetRow(t, k, id) && v == SetFrom(t.deviceSets[k], v.addresses) && AreAddressesOf(t, id, v.addresses);
    RowOfSet(s, i, k);
    KeysAreDistinct(s, i);
    SetsReadBack(s.deviceSets, i);
  }

  /** A device set is read back as it was accepted, with its own addresses, all of them, by function
      code, register and id. */
  lemma StoredSetIsAccepted(sent: Snapshot, t: Tables, i: nat, v: DeviceSet)
    requires Stored(sent, t) && i < |Accepted(sent, t).deviceSets|
    requires SetLoads(t, Accepted(sent, t).deviceSets[i].deviceSetId, v)
    ensures SameSet(Accepted(sent, t).deviceSets[i], v) && SortedBy(AddressBefore, v.addresses)
  {
    StoredIsAccepted(sent, t);
    AcceptedSets(sent, t);
    LoadedIsSame(Accepted(sent, t), i, v);
  }

  lemma BrandIsThere(s: Snapshot, brandId: int)
    requires brandId in Normalizing.BrandIds(s.brands)
    ensures HasKey(s.brands, BrandKey(), brandId)
  {
  }

  /** And it is found. */
  lemma StoredSetIsThere(sent: Snapshot, t: Tables, i: nat)
    requires Stored(sent, t) && i < |Accepted(sent, t).deviceSets|
    ensures IsSetRow(t, i, Accepted(sent, t).deviceSets[i].deviceSetId)
  {
    StoredIsAccepted(sent, t);
    AcceptedSets(sent, t);
    var s := Accepted(sent, t);
    assert Normalizing.CanonicalDeviceSet(Normalizing.BrandIds(s.brands), s.deviceSets[i]);
    BrandIsThere(s, s.deviceSets[i].brandId);
  }

  // ----- brands, plants and connections -----

  lemma RowOfConnection(s: Snapshot, i: nat, k: nat)
    requires KeysHold(TablesOf(s)) && i < |s.connections| && k < |s.connections|
    requires TablesOf(s).connections[k].connectionId == s.connections[i].connectionId
    ensures k == i
  {
    OneRowPerKey(TablesOf(s).connections, ConnectionKey(), k, i);
  }

  lemma RowReadsBack(ids: set<int>, c: Connection)
    requires Normalizing.CanonicalConnection(ids, c)
    ensures ConnectionFrom(ConnectionRowOf(c)) == c
  {
    Normalizing.CanonicalConnectionIsFixed(ids, c);
  }

  lemma AcceptedConnection(sent: Snapshot, t: Tables, i: nat)
    requires Stored(sent, t) && i < |Accepted(sent, t).connections|
    ensures
      var s := Accepted(sent, t);
      Normalizing.CanonicalConnection(Normalizing.DeviceSetIds(s.deviceSets), s.connections[i])
  {
    StoredIsAccepted(sent, t);
    Normalizing.AcceptedSnapshotIsCanonical(sent);
    var s := Accepted(sent, t);
    assert Normalizing.IsCanonicalConnection(Normalizing.DeviceSetIds(s.deviceSets))(s.connections[i]);
  }

  /** A connection is read back as it was accepted. */
  lemma StoredConnectionIsAccepted(sent: Snapshot, t: Tables, i: nat, c: Connection)
    requires Stored(sent, t) && i < |Accepted(sent, t).connections|
    requires ConnectionLoads(t, Accepted(sent, t).connections[i].connectionId, c)
    ensures c == Accepted(sent, t).connections[i]
  {
    StoredIsAccepted(sent, t);
    AcceptedConnection(sent, t, i);
    var s := Accepted(sent, t);
    LoadedConnectionIsSame(s, i, c);
  }

  lemma LoadedConnectionIsSame(s: Snapshot, i: nat, c: Connection)
    requires KeysHold(TablesOf(s)) && i < |s.connections|
    requires Normalizing.CanonicalConnection(Normalizing.DeviceSetIds(s.deviceSets), s.connections[i])
    requires ConnectionLoads(TablesOf(s), s.connections[i].connectionId, c)
    ensures c == s.connections[i]
  {
    var t := TablesOf(s);
    var k: nat :| IsConnectionRow(t, k, s.connections[i].connectionId) && c == ConnectionFrom(t.connections[k]);
    RowOfConnection(s, i, k);
    RowReadsBack(Normalizing.DeviceSetIds(s.deviceSets), s.connections[i]);
  }

  /** And it is found, with the device set it names. */
  lemma StoredConnectionIsThere(sent: Snapshot, t: Tables, i: nat)
    requires Stored(sent, t) && i < |Accepted(sent, t).connections|
    ensures IsConnectionRow(t, i, Accepted(sent, t).connections[i].connectionId)
  {
    StoredIsAccepted(sent, t);
    AcceptedConnection(sent, t, i);
    var s := Accepted(sent, t);
    var k :| 0 <= k < |s.deviceSets| && s.deviceSets[k].deviceSetId == s.connections[i].deviceSetId;
    StoredSetIsThere(sent, t, k);
  }

  /** The last of the first n plants with a code. */
  predicate LastPlant(plants: seq<Plant>, i: nat, n: nat)
    requires i < n <= |plants|
  {
    forall k | i < k < n :: plants[k].code != plants[i].code
  }

  lemma {:induction false} PlantsReadBack(plants: seq<Plant>, n: nat)
    requires n <= |plants|
    ensures forall i | 0 <= i < n && LastPlant(plants, i, n) ::
              plants[i].code in PlantTable(plants, n) && PlantTable(plants, n)[plants[i].code] == plants[i].name
    ensures forall code | code in PlantTable(plants, n) :: exists i | 0 <= i < n :: plants[i].code == code
  {
    if n == 0 {
    } else {
      PlantsReadBack(plants, n - 1);
      forall i | 0 <= i < n && LastPlant(plants, i, n)
        ensures plants[i].code in PlantTable(plants, n) && PlantTable(plants, n)[plants[i].code] == plants[i].name
      {
        assert i < n - 1 ==> LastPlant(plants, i, n - 1);
      }
    }
  }

  /** Brands are read back as accepted. A plant is found under its code, with the last name given for
      it, and no other plant is found. */
  lemma StoredBrandsAndPlants(sent: Snapshot, t: Tables)
    requires Stored(sent, t)
    ensures
      var s := Accepted(sent, t);
      && t.brands == s.brands
      && (forall i | 0 <= i < |s.plants| && LastPlant(s.plants, i, |s.plants|) :: PlantIn(t, s.plants[i].code) == Some(s.plants[i]))
      && (forall code | PlantIn(t, code).Some? :: exists i | 0 <= i < |s.plants| :: s.plants[i].code == code)
  {
    StoredIsAccepted(sent, t);
    PlantsAreFound(t, Accepted(sent, t).plants);
  }

  lemma PlantsAreFound(t: Tables, plants: seq<Plant>)
    requires t.plants == PlantTable(plants, |plants|)
    ensures forall i | 0 <= i < |plants| && LastPlant(plants, i, |plants|) :: PlantIn(t, plants[i].code) == Some(plants[i])
    ensures forall code | PlantIn(t, code).Some? :: exists i | 0 <= i < |plants| :: plants[i].code == code
  {
    PlantsReadBack(plants, |plants|);
  }

  // ----- polling what is stored -----

  lemma MarkedIsCanonical(mode: Addressing.AddressMode, deviceSetId: int, a: Address)
    requires Normalizing.CanonicalAddress(mode, deviceSetId, a)
    ensures Normalizing.CanonicalAddress(mode, deviceSetId, a.(enabledSet := true))
  {
  }

  lemma SameSetIsCanonical(brandIds: set<int>, accepted: DeviceSet, v: DeviceSet)
    requires Normalizing.CanonicalDeviceSet(brandIds, accepted) && SameSet(accepted, v)
    ensures Normalizing.CanonicalDeviceSet(brandIds, v)
  {
    var mode, marked := Addressing.ParseMode(v.addressMode).value, Marked(accepted.addresses);
    SameMembers(v.addresses, marked);
    forall i | 0 <= i < |v.addresses|
      ensures Normalizing.CanonicalAddress(mode, v.deviceSetId, v.addresses[i])
    {
      assert v.addresses[i] in marked;
      var k :| 0 <= k < |marked| && marked[k] == v.addresses[i];
      MarkedIsCanonical(mode, v.deviceSetId, accepted.addresses[k]);
    }
  }

  /** The registers that a device set is polled for, before they are resolved. */
  function RegistersOf(v: DeviceSet): seq<RegisterDefinition> {
    Polling.ProfileOf(v).registers
  }

  lemma DefinitionsPermute(a: seq<Address>, b: seq<Address>)
    requires multiset(a) == multiset(b)
    ensures multiset(Polling.Definitions(a)) == multiset(Polling.Definitions(b))
  {
    MapPermutes(Polling.Definition, a, b, Polling.Definitions(a), Polling.Definitions(b));
  }

  lemma MarkedDefinitions(addresses: seq<Address>)
    ensures Polling.Definitions(Marked(addresses)) == Polling.Definitions(addresses)
  {
  }

  lemma SameRegisters(accepted: DeviceSet, v: DeviceSet)
    requires SameSet(accepted, v)
    ensures Polling.ProfileOf(v).(registers := []) == Polling.ProfileOf(accepted).(registers := [])
    ensures multiset(RegistersOf(v)) == multiset(RegistersOf(accepted))
  {
    DefinitionsPermute(v.addresses, Marked(accepted.addresses));
    MarkedDefinitions(accepted.addresses);
  }

  /** Profiles that differ in the order of their registers have the same plans. */
  lemma PlansDoNotDependOnOrder(p: RegisterProfile, q: RegisterProfile, blocks: seq<Planning.Block>)
    requires p.(registers := []) == q.(registers := []) && multiset(p.registers) == multiset(q.registers)
    requires Planning.Entries(p).Ok? && Planning.Entries(q).Ok?
    ensures Planning.Plan(p, blocks) <==> Planning.Plan(q, blocks)
  {
    var mode := Addressing.ParseMode(p.addressMode);
    Planning.CollectIsFlat(mode, p.defaultFunctionCode, p.registers);
    Planning.CollectIsFlat(mode, p.defaultFunctionCode, q.registers);
    FlatPermute(Planning.EntryIfEnabled(mode, p.defaultFunctionCode), p.registers, q.registers);
    assert multiset(Planning.Entries(p).value) == multiset(Planning.Entries(q).value);
  }

  /** What is polled is what was accepted: the device set read back from the tables is canonical, can be
      planned, is read in the accepted orders, and has exactly the plans of the accepted one. */
  lemma StoredSetIsPolledAsAccepted(sent: Snapshot, t: Tables, i: nat, v: DeviceSet, blocks: seq<Planning.Block>)
    requires Stored(sent, t) && i < |Accepted(sent, t).deviceSets|
    requires SetLoads(t, Accepted(sent, t).deviceSets[i].deviceSetId, v)
    ensures
      var accepted := Accepted(sent, t).deviceSets[i];
      && Normalizing.CanonicalDeviceSet(Normalizing.BrandIds(Accepted(sent, t).brands), v)
      && Planning.Entries(Polling.ProfileOf(v)).Ok?
      && Polling.OrdersOf(Polling.ProfileOf(v)) == Polling.OrdersOf(Polling.ProfileOf(accepted))
      && (Planning.Plan(Polling.ProfileOf(v), blocks) <==> Planning.Plan(Polling.ProfileOf(accepted), blocks))
  {
    StoredSetIsAccepted(sent, t, i, v);
    AcceptedSets(sent, t);
    SamePolls(Normalizing.BrandIds(Accepted(sent, t).brands), Accepted(sent, t).deviceSets[i], v, blocks);
  }

  lemma SamePolls(brandIds: set<int>, accepted: DeviceSet, v: DeviceSet, blocks: seq<Planning.Block>)
    requires Normalizing.CanonicalDeviceSet(brandIds, accepted) && SameSet(accepted, v)
    ensures Normalizing.CanonicalDeviceSet(brandIds, v)
    ensures Planning.Entries(Polling.ProfileOf(v)).Ok?
    ensures Polling.OrdersOf(Polling.ProfileOf(v)) == Polling.OrdersOf(Polling.ProfileOf(accepted))
    ensures Planning.Plan(Polling.ProfileOf(v), blocks) <==> Planning.Plan(Polling.ProfileOf(accepted), blocks)
  {
    SameSetIsCanonical(brandIds, accepted, v);
    Accepting.CanonicalIsPlannable(brandIds, accepted);
    Accepting.CanonicalIsPlannable(brandIds, v);
    SameRegisters(accepted, v);
    PlansDoNotDependOnOrder(Polling.ProfileOf(v), Polling.ProfileOf(accepted), blocks);
  }

  // ----- from the push to the sample -----

  /** The word order in force for an address, as it was sent. */
  function WordOrderSent(v: DeviceSet, a: Address): string {
    if Text.UpperTrim(a.wordOrder) != "" then Text.UpperTrim(a.wordOrder) else Text.UpperTrim(v.wordOrder)
  }

  lemma NothingSaid()
    ensures Text.UpperTrim("") == ""
  {
  }

  lemma StoredAddress(sent: Snapshot, t: Tables, i: nat, j: nat, v: DeviceSet)
    requires Stored(sent, t) && i < |Accepted(sent, t).deviceSets| && j < |Accepted(sent, t).deviceSets[i].addresses|
    requires SetLoads(t, Accepted(sent, t).deviceSets[i].deviceSetId, v)
    ensures Accepted(sent, t).deviceSets[i].addresses[j].(enabledSet := true) in v.addresses
  {
    StoredSetIsAccepted(sent, t, i, v);
    var marked := Marked(Accepted(sent, t).deviceSets[i].addresses);
    SameMembers(v.addresses, marked);
    assert marked[j] in marked;
  }

  /** What was pushed for a register and its device set, as far as reading it goes. */
  lemma OrdersAsPushed(raw: DeviceSet, v: DeviceSet, rawAddress: Address, a: Address)
    requires Configured.OrdersAsSent(raw, v) && a.wordOrder == Text.UpperTrim(rawAddress.wordOrder)
    ensures v.byteOrder == "LITTLE_ENDIAN" <==> Text.UpperTrim(raw.byteOrder) == "LITTLE_ENDIAN"
    ensures (if a.wordOrder == "" then v.wordOrder else a.wordOrder) == "LOW_HIGH" <==> WordOrderSent(raw, rawAddress) == "LOW_HIGH"
  {
    NothingSaid();
  }

  /** From the push to the sample: once a snapshot is in the tables, every poll of a device set read back
      from them reports every register that was pushed enabled and that the device can be read for, with
      the number the device holds in the orders that were pushed. A length that was left out is enough. */
  lemma PushedRegisterIsReported(
    sent: Snapshot, t: Tables, i: nat, j: nat, v: DeviceSet, ty: Decoding.DataType, n: int,
    functionCode: int, x: int, link: Polling.Link, memory: Refinement.Memory, blocks: seq<Planning.Block>)
    requires Stored(sent, t) && i < |Accepted(sent, t).deviceSets| == |sent.deviceSets|
    requires j < |Accepted(sent, t).deviceSets[i].addresses| == |sent.deviceSets[i].addresses|
    requires SetLoads(t, sent.deviceSets[i].deviceSetId, v)
    requires var raw := sent.deviceSets[i].addresses[j];
             && (raw.enabled || !raw.enabledSet) && Text.UpperTrim(raw.dataType) in Decoding.TypeNames(ty)
             && (raw.length == 0 || Decoding.Width(ty) <= raw.length)
    requires Decoding.Fits(ty, n) && Holding.Reportable(ty, n)
    requires var a := Accepted(sent, t).deviceSets[i].addresses[j];
             && Addressing.WrittenAs(v.addressMode, functionCode, x, Polling.Definition(a))
             && Addressing.LegalRequest(functionCode, x, a.length) && link(functionCode, x, a.length).Bytes?
    requires Holding.Sends(link, memory, Text.UpperTrim(sent.deviceSets[i].byteOrder) == "LITTLE_ENDIAN")
    requires Holding.HoldsAt(memory, functionCode, x, Decoding.WordsFor(ty, n),
                             WordOrderSent(sent.deviceSets[i], sent.deviceSets[i].addresses[j]) == "LOW_HIGH")
    requires Planning.Plan(Polling.ProfileOf(v), blocks)
    ensures Polling.Sample(functionCode, Accepted(sent, t).deviceSets[i].addresses[j].register, Decoding.Canonical(ty), Decoding.ValueFor(ty, n)) in
              Polling.Batched(link, Polling.OrdersOf(Polling.ProfileOf(v)), blocks).measurements
  {
    var raw, a := sent.deviceSets[i].addresses[j], Accepted(sent, t).deviceSets[i].addresses[j];
    SetAsPushed(sent, t, i, j);
    StoredAddress(sent, t, i, j, v);
    StoredSetIsAccepted(sent, t, i, v);
    StoredSetIsPolledAsAccepted(sent, t, i, v, blocks);
    OrdersAsPushed(sent.deviceSets[i], v, raw, a);
    Configured.LengthIsEnough(raw, a, ty);
    Holding.ConfiguredRegisterIsReported(
      Normalizing.BrandIds(Accepted(sent, t).brands), v, a.(enabledSet := true), ty, n, functionCode, x, link, memory, blocks);
  }

  lemma SetAsPushed(sent: Snapshot, t: Tables, i: nat, j: nat)
    requires Stored(sent, t) && i < |Accepted(sent, t).deviceSets| == |sent.deviceSets|
    requires j < |Accepted(sent, t).deviceSets[i].addresses| == |sent.deviceSets[i].addresses|
    ensures
      var v := Accepted(sent, t).deviceSets[i];
      && v.deviceSetId == sent.deviceSets[i].deviceSetId && Configured.OrdersAsSent(sent.deviceSets[i], v)
      && exists zeroBased :: Configured.AddressAsSent(zeroBased, v.deviceSetId, sent.deviceSets[i].addresses[j], v.addresses[j])
  {
    StoredIsAccepted(sent, t);
    Configured.AcceptedIsAsSent(sent);
    PartsAsSent(sent, Accepted(sent, t), i, j);
  }

  lemma PartsAsSent(sent: Snapshot, s: Snapshot, i: nat, j: nat)
    requires Configured.AsSent(sent, s) && i < |s.deviceSets| && j < |s.deviceSets[i].addresses| == |sent.deviceSets[i].addresses|
    ensures s.deviceSets[i].deviceSetId == sent.deviceSets[i].deviceSetId
    ensures Configured.OrdersAsSent(sent.deviceSets[i], s.deviceSets[i])
    ensures exists zeroBased ::
              Configured.AddressAsSent(zeroBased, s.deviceSets[i].deviceSetId, sent.deviceSets[i].addresses[j], s.deviceSets[i].addresses[j])
  {
    var v := s.deviceSets[i];
    assert Configured.DeviceSetAsSent(sent.deviceSets[i], v);
    assert Configured.AddressAsSent(Addressing.ParseMode(v.addressMode) == Ok(Addressing.ZeroBased), v.deviceSetId,
                                    sent.deviceSets[i].addresses[j], v.addresses[j]);
  }
}
