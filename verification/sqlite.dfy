/** internal/store/config_history.go: applying a pushed configuration to the SQL store in one
    transaction, with its outcome recorded. The SQL engine appears as a prediction of which
    statements fail; a constraint it would enforce is one of its reasons to fail. */
module SqlStore {
  import opened Results
  import opened Domain
  import opened Sequences
  import Normalizing
  import Outbox
  import Text

  /** The columns of each table, the first one its primary key. A brand has no others than its fields. */
  datatype SetRow = SetRow(
    deviceSetId: int, brandId: int, devTypeId: int, devType: string, devModel: string,
    addressMode: string, byteOrder: string, wordOrder: string, maxBlockSize: int)

  datatype AddressRow = AddressRow(
    addressId: int, deviceSetId: int, functionCode: int, register: int, description: string,
    canonicalKey: string, sourceTag: string, factor: real, dataType: string, length: int,
    wordOrder: string, sourceUnit: string, canonicalUnit: string, remark: string, enabled: bool)

  datatype ConnectionRow = ConnectionRow(
    connectionId: int, name: string, host: string, port: int, unitId: int, deviceSetId: int,
    devDn: string, deviceName: string, plantCode: string, plantName: string, enabled: bool)

  datatype Tables = Tables(
    brands: seq<Brand>, deviceSets: seq<SetRow>, addresses: seq<AddressRow>,
    connections: seq<ConnectionRow>, plants: map<string, string>)

  const EMPTY := Tables([], [], [], [], map[])

  // ----- what a snapshot becomes -----

  function RowOf(v: DeviceSet): SetRow {
    SetRow(v.deviceSetId, v.brandId, v.devTypeId, v.devType, v.devModel, v.addressMode, v.byteOrder, v.wordOrder, v.maxBlockSize)
  }

  function SetRows(sets: seq<DeviceSet>, n: nat): (rows: seq<SetRow>)
    requires n <= |sets|
    ensures |rows| == n && forall i | 0 <= i < n :: rows[i] == RowOf(sets[i])
  {
    seq(n, i requires 0 <= i < n => RowOf(sets[i]))
  }

  function AddressRowOf(deviceSetId: int, a: Address): AddressRow {
    AddressRow(a.addressId, deviceSetId, a.functionCode, a.register, a.description, a.canonicalKey, a.sourceTag, a.factor,
               a.dataType, a.length, a.wordOrder, a.sourceUnit, a.canonicalUnit, a.remark, a.enabled)
  }

  function AddressRows(deviceSetId: int, addresses: seq<Address>): (rows: seq<AddressRow>)
    ensures |rows| == |addresses| && forall i | 0 <= i < |rows| :: rows[i] == AddressRowOf(deviceSetId, addresses[i])
  {
    seq(|addresses|, i requires 0 <= i < |addresses| => AddressRowOf(deviceSetId, addresses[i]))
  }

  function AllAddressRows(sets: seq<DeviceSet>, n: nat): seq<AddressRow>
    requires n <= |sets|
  {
    if n == 0 then []
    else AllAddressRows(sets, n - 1) + AddressRows(sets[n - 1].deviceSetId, sets[n - 1].addresses)
  }

  /** A plant code listed twice keeps its last name. */
  function PlantTable(plants: seq<Plant>, n: nat): map<string, string>
    requires n <= |plants|
  {
    if n == 0 then map[] else PlantTable(plants, n - 1)[plants[n - 1].code := plants[n - 1].name]
  }

  function ConnectionRowOf(c: Connection): ConnectionRow {
    ConnectionRow(c.connectionId, c.name, c.host, c.port, c.unitId, c.deviceSetId, c.devDn, c.deviceName, c.plantCode, c.plantName, c.enabled)
  }

  function ConnectionRows(connections: seq<Connection>): (rows: seq<ConnectionRow>)
    ensures |rows| == |connections| && forall i | 0 <= i < |rows| :: rows[i] == ConnectionRowOf(connections[i])
  {
    seq(|connections|, i requires 0 <= i < |connections| => ConnectionRowOf(connections[i]))
  }

  function TablesOf(s: Snapshot): Tables {
    Tables(s.brands, SetRows(s.deviceSets, |s.deviceSets|), AllAddressRows(s.deviceSets, |s.deviceSets|),
           ConnectionRows(s.connections), PlantTable(s.plants, |s.plants|))
  }

  // ----- primary keys -----

  /** No two rows have one key. */
  predicate Keyed<T>(rows: seq<T>, key: T -> int) {
    forall i, j | 0 <= i < j < |rows| :: key(rows[i]) != key(rows[j])
  }

  predicate HasKey<T>(rows: seq<T>, key: T -> int, k: int) {
    exists i | 0 <= i < |rows| :: key(rows[i]) == k
  }

  function BrandKey(): Brand -> int {
    (b: Brand) => b.brandId
  }

  function SetKey(): SetRow -> int {
    (r: SetRow) => r.deviceSetId
  }

  function AddressKey(): AddressRow -> int {
    (r: AddressRow) => r.addressId
  }

  function ConnectionKey(): ConnectionRow -> int {
    (r: ConnectionRow) => r.connectionId
  }

  predicate KeysHold(t: Tables) {
    && Keyed(t.brands, BrandKey()) && Keyed(t.deviceSets, SetKey())
    && Keyed(t.addresses, AddressKey()) && Keyed(t.connections, ConnectionKey())
  }

  lemma OneRowPerKey<T>(rows: seq<T>, key: T -> int, i: nat, j: nat)
    requires Keyed(rows, key) && i < |rows| && j < |rows| && key(rows[i]) == key(rows[j])
    ensures i == j
  {
  }

  lemma KeyedPush<T>(rows: seq<T>, x: T, key: T -> int)
    ensures Keyed(rows + [x], key) <==> Keyed(rows, key) && !HasKey(rows, key, key(x))
  {
    var more := rows + [x];
    assert forall i | 0 <= i < |rows| :: more[i] == rows[i];
    assert more[|rows|] == x;
  }

  lemma KeyedPrefix<T>(rows: seq<T>, more: seq<T>, key: T -> int)
    requires Keyed(more, key) && |rows| <= |more| && forall i | 0 <= i < |rows| :: more[i] == rows[i]
    ensures Keyed(rows, key)
  {
  }

  /** What a gate turns a snapshot into: the tables to store, or nothing if it is refused. */
  type Gate = Snapshot -> Option<Tables>

  /** The gate of the gateway: normalise, then store, if the keys allow it. */
  function TheGate(): Gate {
    (s: Snapshot) =>
      match Normalizing.Normalize(s)
      case Ok(normalized) => if KeysHold(TablesOf(normalized)) then Some(TablesOf(normalized)) else None
      case Err(_) => None
  }

  /** How many statements inserting the first n device sets takes. */
  function SetStatements(sets: seq<DeviceSet>, n: nat): nat
    requires n <= |sets|
  {
    if n == 0 then 0 else SetStatements(sets, n - 1) + 1 + |sets[n - 1].addresses|
  }

  /** BEGIN, five DELETEs, the inserts, and COMMIT. */
  function Statements(s: Snapshot): nat {
    7 + |s.brands| + SetStatements(s.deviceSets, |s.deviceSets|) + |s.plants| + |s.connections|
  }

  // ----- the inserts -----

  /* A transaction stops at its first failing statement. One that would repeat a primary key fails;
     what else the engine may refuse comes down to a budget: how many more statements succeed. */

  method InsertRows<T>(table: seq<T>, rows: seq<T>, key: T -> int, budget: nat) returns (ok: bool, table': seq<T>)
    requires Keyed(table, key)
    ensures ok == (|rows| <= budget && Keyed(table + rows, key))
    ensures ok ==> table' == table + rows
  {
    table' := table;
    assert table + rows[..0] == table;
    for i := 0 to |rows|
      invariant i <= budget
      invariant table' == table + rows[..i] && Keyed(table', key)
    {
      assert table + rows[..i + 1] == table' + [rows[i]];
      KeyedPush(table', rows[i], key);
      if i == budget || HasKey(table', key, key(rows[i])) {
        if Keyed(table + rows, key) {
          KeyedPrefix(table' + [rows[i]], table + rows, key);
        }
        return false, table';
      }
      table' := table' + [rows[i]];
    }
    assert rows[..|rows|] == rows;
    ok := true;
  }

  function WithSets(t: Tables, sets: seq<DeviceSet>, n: nat): Tables
    requires n <= |sets|
  {
    t.(deviceSets := t.deviceSets + SetRows(sets, n), addresses := t.addresses + AllAddressRows(sets, n))
  }

  lemma WithOneMoreSet(t: Tables, sets: seq<DeviceSet>, n: nat)
    requires n < |sets|
    ensures
      var before, v := WithSets(t, sets, n), sets[n];
      WithSets(t, sets, n + 1) ==
      before.(deviceSets := before.deviceSets + [RowOf(v)],
              addresses := before.addresses + AddressRows(v.deviceSetId, v.addresses))
  {
    assert SetRows(sets, n + 1) == SetRows(sets, n) + [RowOf(sets[n])];
  }

  predicate SetKeysHold(t: Tables) {
    Keyed(t.deviceSets, SetKey()) && Keyed(t.addresses, AddressKey())
  }

  lemma {:induction false} AddressRowsGrow(sets: seq<DeviceSet>, m: nat, n: nat)
    requires m <= n <= |sets|
    ensures AllAddressRows(sets, m) <= AllAddressRows(sets, n)
  {
    if m == n {
    } else {
      AddressRowsGrow(sets, m, n - 1);
    }
  }

  /** Keys that do not hold early on do not hold in the end. */
  lemma SetKeysOfPrefix(t: Tables, sets: seq<DeviceSet>, n: nat)
    requires n <= |sets| && SetKeysHold(WithSets(t, sets, |sets|))
    ensures SetKeysHold(WithSets(t, sets, n))
  {
    AddressRowsGrow(sets, n, |sets|);
    var early, late := WithSets(t, sets, n), WithSets(t, sets, |sets|);
    KeyedPrefix(early.deviceSets, late.deviceSets, SetKey());
    KeyedPrefix(early.addresses, late.addresses, AddressKey());
  }

  /** One device set: its row, and then its addresses. */
  method InsertDeviceSet(t: Tables, v: DeviceSet, budget: nat) returns (ok: bool, t': Tables)
    requires SetKeysHold(t)
    ensures
      var after := t.(deviceSets := t.deviceSets + [RowOf(v)], addresses := t.addresses + AddressRows(v.deviceSetId, v.addresses));
      && ok == (1 + |v.addresses| <= budget && SetKeysHold(after))
      && (ok ==> t' == after)
  {
    t' := t;
    KeyedPush(t.deviceSets, RowOf(v), SetKey());
    if budget == 0 || HasKey(t.deviceSets, SetKey(), v.deviceSetId) {
      return false, t';
    }
    var inserted, addresses := InsertRows(t.addresses, AddressRows(v.deviceSetId, v.addresses), AddressKey(), budget - 1);
    t' := t.(deviceSets := t.deviceSets + [RowOf(v)], addresses := addresses);
    ok := inserted;
  }

  method InsertDeviceSets(t: Tables, sets: seq<DeviceSet>, budget: nat) returns (ok: bool, t': Tables)
    requires SetKeysHold(t)
    ensures ok == (SetStatements(sets, |sets|) <= budget && SetKeysHold(WithSets(t, sets, |sets|)))
    ensures ok ==> t' == WithSets(t, sets, |sets|)
  {
    t' := t;
    var left: int := budget;
    for i := 0 to |sets|
      invariant left == budget - SetStatements(sets, i) && left >= 0
      invariant t' == WithSets(t, sets, i) && SetKeysHold(t')
    {
      WithOneMoreSet(t, sets, i);
      StatementsGrow(sets, i + 1, |sets|);
      var inserted;
      inserted, t' := InsertDeviceSet(t', sets[i], left);
      if !inserted {
        if SetKeysHold(WithSets(t, sets, |sets|)) {
          SetKeysOfPrefix(t, sets, i + 1);
        }
        return false, t';
      }
      left := left - 1 - |sets[i].addresses|;
    }
    ok := true;
  }

  lemma {:induction false} StatementsGrow(sets: seq<DeviceSet>, m: nat, n: nat)
    requires m <= n <= |sets|
    ensures SetStatements(sets, m) <= SetStatements(sets, n)
  {
    if m == n {
    } else {
      StatementsGrow(sets, m, n - 1);
    }
  }

  method InsertPlants(t: Tables, plants: seq<Plant>, budget: nat) returns (ok: bool, t': Tables)
    requires t.plants == map[]
    ensures ok == (|plants| <= budget)
    ensures ok ==> t' == t.(plants := PlantTable(plants, |plants|))
  {
    t' := t;
    for i := 0 to |plants|
      invariant i <= budget
      invariant t' == t.(plants := PlantTable(plants, i))
    {
      if i == budget {
        return false, t';
      }
      t' := t'.(plants := t'.plants[plants[i].code := plants[i].name]);
    }
    ok := true;
  }

  /** The order in which the transaction clears the tables. */
  function ClearTable(t: Tables, i: nat): Tables {
    match i
    case 0 => t.(addresses := [])
    case 1 => t.(connections := [])
    case 2 => t.(deviceSets := [])
    case 3 => t.(brands := [])
    case _ => t.(plants := map[])
  }

  function Cleared(t: Tables, n: nat): Tables {
    if n == 0 then t else ClearTable(Cleared(t, n - 1), n - 1)
  }

  lemma ClearedIsEmpty(t: Tables)
    ensures Cleared(t, 5) == EMPTY
  {
    assert Cleared(t, 1) == t.(addresses := []);
    assert Cleared(t, 2) == t.(addresses := [], connections := []);
    assert Cleared(t, 3) == t.(addresses := [], connections := [], deviceSets := []);
    assert Cleared(t, 4) == t.(addresses := [], connections := [], deviceSets := [], brands := []);
  }

  method ClearAll(t: Tables, budget: nat) returns (ok: bool, t': Tables)
    ensures ok == (5 <= budget)
    ensures ok ==> t' == EMPTY
  {
    t' := t;
    for i := 0 to 5
      invariant i <= budget
      invariant t' == Cleared(t, i)
    {
      if i == budget {
        return false, t';
      }
      t' := ClearTable(t', i);
    }
    ClearedIsEmpty(t);
    ok := true;
  }

  // ----- reading the tables -----

  function AddressFrom(r: AddressRow): Address {
    Address(r.addressId, r.deviceSetId, r.functionCode, r.register, r.description, r.canonicalKey, r.sourceTag, r.factor,
            r.dataType, r.length, r.wordOrder, r.sourceUnit, r.canonicalUnit, r.remark, r.enabled, true)
  }

  /** The address that a row holds, if it belongs to the device set. */
  function AddressIfOf(deviceSetId: int): AddressRow -> seq<Address> {
    (r: AddressRow) => if r.deviceSetId == deviceSetId then [AddressFrom(r)] else []
  }

  /** ORDER BY address_fc, address_register, address_id. */
  predicate AddressBefore(a: Address, b: Address) {
    || a.functionCode < b.functionCode
    || (a.functionCode == b.functionCode
        && (a.register < b.register || (a.register == b.register && a.addressId < b.addressId)))
  }

  predicate NotAfter(a: Address, b: Address) {
    && a.functionCode <= b.functionCode
    && (a.functionCode == b.functionCode ==> a.register <= b.register)
    && (a.functionCode == b.functionCode && a.register == b.register ==> a.addressId <= b.addressId)
  }

  /** The addresses of a device set, in some order that the clause allows. */
  ghost predicate AreAddressesOf(t: Tables, deviceSetId: int, addresses: seq<Address>) {
    && SortedBy(AddressBefore, addresses)
    && multiset(addresses) == multiset(Flat(AddressIfOf(deviceSetId), t.addresses))
  }

  function SetFrom(r: SetRow, addresses: seq<Address>): DeviceSet {
    DeviceSet(r.deviceSetId, r.brandId, r.devTypeId, r.devType, r.devModel, Normalizing.AddressIds(addresses),
              r.addressMode, r.byteOrder, r.wordOrder, r.maxBlockSize, addresses)
  }

  /** The rows that a query joins to the device set: its own and its brand's. */
  predicate IsSetRow(t: Tables, k: nat, deviceSetId: int) {
    k < |t.deviceSets| && t.deviceSets[k].deviceSetId == deviceSetId && HasKey(t.brands, BrandKey(), t.deviceSets[k].brandId)
  }

  ghost predicate SetLoads(t: Tables, deviceSetId: int, v: DeviceSet) {
    exists k: nat :: IsSetRow(t, k, deviceSetId) && v == SetFrom(t.deviceSets[k], v.addresses)
                     && AreAddressesOf(t, deviceSetId, v.addresses)
  }

  function PlantIn(t: Tables, code: string): Option<Plant> {
    if code in t.plants then Some(Plant(code, t.plants[code])) else None
  }

  /** The slave id is not stored; normalising sets it again. */
  function ConnectionFrom(r: ConnectionRow): Connection {
    Normalizing.NormalizeConnection(
      Connection(r.connectionId, r.name, r.host, r.port, r.unitId, 0, r.deviceSetId, r.devDn, r.deviceName, r.plantCode, r.plantName, r.enabled))
  }

  predicate HasSet(t: Tables, deviceSetId: int) {
    exists k | 0 <= k < |t.deviceSets| :: IsSetRow(t, k, deviceSetId)
  }

  predicate IsConnectionRow(t: Tables, k: nat, connectionId: int) {
    k < |t.connections| && t.connections[k].connectionId == connectionId && HasSet(t, t.connections[k].deviceSetId)
  }

  ghost predicate ConnectionLoads(t: Tables, connectionId: int, c: Connection) {
    exists k: nat :: IsConnectionRow(t, k, connectionId) && c == ConnectionFrom(t.connections[k])
  }

  // ----- the store -----

  datatype Stored = Stored(tables: Tables, history: seq<HistoryRow>)

  /** The store after an attempt, given whether the transaction committed and whether its outcome
      was recorded. */
  function Attempted(gate: Gate, s: Stored, version: int, snapshot: Snapshot, committed: bool, recorded: bool): Stored
    requires committed ==> gate(snapshot).Some?
  {
    Stored(if committed then gate(snapshot).value else s.tables,
           if recorded then s.history + [HistoryRow(version, committed, snapshot)] else s.history)
  }

  class SqliteStore {
    var tables: Tables
    var history: seq<HistoryRow>

    constructor ()
      ensures tables == EMPTY && history == []
    {
      tables, history := EMPTY, [];
    }

    function Contents(): Stored
      reads this
    {
      Stored(tables, history)
    }

    /** All or nothing: the tables become the normalised snapshot's if every statement succeeds,
        and otherwise stay as they were. */
    method ApplyConfigSnapshotTx(snapshot: Snapshot, budget: nat) returns (ok: bool)
      modifies this`tables
      ensures
        var r := Normalizing.Normalize(snapshot);
        ok <==> r.Ok? && Statements(r.value) <= budget && KeysHold(TablesOf(r.value))
      ensures if ok then TheGate()(snapshot) == Some(tables) else tables == old(tables)
    {
      var r := Normalizing.NormalizeConfigSnapshot(snapshot);
      if r.Err? {
        return false;
      }
      var t := tables;
      ok, t := Replace(t, r.value, budget);
      if ok {
        tables := t;
      }
    }

    /** The outcome is recorded after the transaction; if that fails, a committed configuration is
        reported as an error. */
    method ApplyConfigSnapshot(version: int, snapshot: Snapshot, budget: nat, schemaFails: bool, historyFails: bool)
      returns (ok: bool, ghost committed: bool)
      modifies this
      ensures
        var r := Normalizing.Normalize(snapshot);
        committed <==> !schemaFails && r.Ok? && Statements(r.value) <= budget && KeysHold(TablesOf(r.value))
      ensures Contents() == Attempted(TheGate(), old(Contents()), version, snapshot, committed, !schemaFails && !historyFails)
      ensures ok == (committed && !historyFails)
    {
      if schemaFails {
        return false, false;
      }
      var applied := ApplyConfigSnapshotTx(snapshot, budget);
      committed := applied;
      if historyFails {
        return false, committed;
      }
      history := history + [HistoryRow(version, applied, snapshot)];
      return applied, committed;
    }

    method Addresses(deviceSetId: int) returns (addresses: seq<Address>)
      ensures AreAddressesOf(tables, deviceSetId, addresses)
      ensures forall i, j | 0 <= i < j < |addresses| :: NotAfter(addresses[i], addresses[j])
    {
      var found := [];
      for i := 0 to |tables.addresses|
        invariant found == FlatTo(AddressIfOf(deviceSetId), tables.addresses, i)
      {
        found := found + AddressIfOf(deviceSetId)(tables.addresses[i]);
      }
      FlatToAll(AddressIfOf(deviceSetId), tables.addresses);
      addresses := Sort(AddressBefore, found);
    }

    /** There is at most one row to find when the keys hold. */
    method DeviceSet(deviceSetId: int) returns (v: Option<DeviceSet>)
      ensures v.Some? ==> SetLoads(tables, deviceSetId, v.value)
      ensures v.None? ==> forall k: nat :: !IsSetRow(tables, k, deviceSetId)
    {
      for k := 0 to |tables.deviceSets|
        invariant forall j | 0 <= j < k :: !IsSetRow(tables, j, deviceSetId)
      {
        if IsSetRow(tables, k, deviceSetId) {
          var addresses := Addresses(deviceSetId);
          return Some(SetFrom(tables.deviceSets[k], addresses));
        }
      }
      return None;
    }

    method Connection(connectionId: int) returns (c: Option<Connection>)
      ensures c.Some? ==> ConnectionLoads(tables, connectionId, c.value)
      ensures c.None? ==> forall k: nat :: !IsConnectionRow(tables, k, connectionId)
    {
      for k := 0 to |tables.connections|
        invariant forall j | 0 <= j < k :: !IsConnectionRow(tables, j, connectionId)
      {
        if IsConnectionRow(tables, k, connectionId) {
          return Some(ConnectionFrom(tables.connections[k]));
        }
      }
      return None;
    }

    method PlantByCode(code: string) returns (p: Option<Plant>)
      ensures p == PlantIn(tables, Text.UpperTrim(code))
    {
      var key := Text.UpperTrim(code);
      return PlantIn(tables, key);
    }

    /** SELECT MAX(version) over the applied rows, or 0. */
    function CurrentConfigVersion(): int
      reads this
    {
      Outbox.HighestApplied(history)
    }
  }

  // ----- the transaction, section by section -----

  /** The tables with the brands in, then the device sets, then the plants. */
  function WithBrands(s: Snapshot): Tables {
    EMPTY.(brands := s.brands)
  }

  function WithDeviceSets(s: Snapshot): Tables {
    WithBrands(s).(deviceSets := SetRows(s.deviceSets, |s.deviceSets|),
                   addresses := AllAddressRows(s.deviceSets, |s.deviceSets|))
  }

  function WithPlants(s: Snapshot): Tables {
    WithDeviceSets(s).(plants := PlantTable(s.plants, |s.plants|))
  }

  /** BEGIN and the deletes. */
  method BeginCleared(tables: Tables, budget: nat) returns (ok: bool, t: Tables, left: nat)
    ensures ok == (6 <= budget)
    ensures ok ==> t == EMPTY && left == budget - 6
  {
    t, left := tables, 0;
    if budget == 0 {
      return false, t, left;
    }
    ok, t := ClearAll(t, budget - 1);
    if ok {
      left := budget - 6;
    }
  }

  method PutBrands(t: Tables, s: Snapshot, budget: nat) returns (ok: bool, t': Tables, left: nat)
    requires t == EMPTY
    ensures ok == (|s.brands| <= budget && Keyed(s.brands, BrandKey()))
    ensures ok ==> t' == WithBrands(s) && left == budget - |s.brands|
  {
    var brands;
    t', left := t, 0;
    assert [] + s.brands == s.brands;
    ok, brands := InsertRows(t.brands, s.brands, BrandKey(), budget);
    if ok {
      t', left := t.(brands := brands), budget - |s.brands|;
    }
  }

  lemma FirstSets(s: Snapshot)
    ensures WithSets(WithBrands(s), s.deviceSets, |s.deviceSets|) == WithDeviceSets(s)
  {
  }

  method PutDeviceSets(t: Tables, s: Snapshot, budget: nat) returns (ok: bool, t': Tables, left: nat)
    requires t == WithBrands(s)
    ensures ok == (SetStatements(s.deviceSets, |s.deviceSets|) <= budget && SetKeysHold(WithDeviceSets(s)))
    ensures ok ==> t' == WithDeviceSets(s) && left == budget - SetStatements(s.deviceSets, |s.deviceSets|)
  {
    left := 0;
    FirstSets(s);
    ok, t' := InsertDeviceSets(t, s.deviceSets, budget);
    if ok {
      left := budget - SetStatements(s.deviceSets, |s.deviceSets|);
    }
  }

  method PutPlants(t: Tables, s: Snapshot, budget: nat) returns (ok: bool, t': Tables, left: nat)
    requires t == WithDeviceSets(s)
    ensures ok == (|s.plants| <= budget)
    ensures ok ==> t' == WithPlants(s) && left == budget - |s.plants|
  {
    left := 0;
    ok, t' := InsertPlants(t, s.plants, budget);
    if ok {
      left := budget - |s.plants|;
    }
  }

  /** The connections, and COMMIT. */
  method PutConnections(t: Tables, s: Snapshot, budget: nat) returns (ok: bool, t': Tables)
    requires t == WithPlants(s)
    ensures ok == (|s.connections| + 1 <= budget && Keyed(ConnectionRows(s.connections), ConnectionKey()))
    ensures ok ==> t' == TablesOf(s)
  {
    var connections;
    var rows := ConnectionRows(s.connections);
    assert [] + rows == rows;
    ok, connections := InsertRows(t.connections, rows, ConnectionKey(), budget);
    t' := t.(connections := connections);
    ok := ok && |s.connections| < budget;
  }

  lemma StatementsBySection(s: Snapshot)
    ensures Statements(s) ==
            6 + |s.brands| + SetStatements(s.deviceSets, |s.deviceSets|) + |s.plants| + (|s.connections| + 1)
  {
  }

  /** The statements of the transaction: BEGIN, the deletes, the inserts, COMMIT. */
  method Replace(tables: Tables, s: Snapshot, budget: nat) returns (ok: bool, t: Tables)
    ensures ok == (Statements(s) <= budget && KeysHold(TablesOf(s)))
    ensures ok ==> t == TablesOf(s)
  {
    StatementsBySection(s);
    var left;
    ok, t, left := BeginCleared(tables, budget);
    if !ok {
      return;
    }
    ok, t, left := PutBrands(t, s, left);
    if !ok {
      return;
    }
    ok, t, left := PutDeviceSets(t, s, left);
    if !ok {
      return;
    }
    ok, t, left := PutPlants(t, s, left);
    if !ok {
      return;
    }
    ok, t := PutConnections(t, s, left);
  }
}
