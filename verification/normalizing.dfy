/** internal/store/normalize.go: the gate every pushed configuration passes before it is stored. */
module Normalizing {
  import opened Results
  import opened Domain
  import opened Addressing
  import Decoding
  import Text

  datatype AddressFault =
    | BadFunctionCode
    | BadRegister
    | DescriptionOrTypeMissing
    | UnsupportedDataType
    | BadLength
    | BadWordOrder
    | Unresolvable(error: AddressError)

  datatype ConfigError =
    | BrandNameMissing
    | UnknownBrand(brandId: int)
    | TypeOrModelMissing
    | BadOrdersOrBlockSize
    | NoAddresses
    | BadAddress(fault: AddressFault)
    | PlantFieldsMissing
    | UnknownDeviceSet(deviceSetId: int)
    | BadConnection

  // ----- checking a list -----

  /** The first n elements through a check, or the first error. */
  function Each<T, U, E>(f: T -> Result<U, E>, s: seq<T>, n: nat): Result<seq<U>, E>
    requires n <= |s|
  {
    if n == 0 then Ok([])
    else
      var before :- Each(f, s, n - 1);
      var x :- f(s[n - 1]);
      Ok(before + [x])
  }

  function All<T, U, E>(f: T -> Result<U, E>, s: seq<T>): Result<seq<U>, E> {
    Each(f, s, |s|)
  }

  lemma {:induction false} EachMeaning<T, U, E>(f: T -> Result<U, E>, s: seq<T>, n: nat)
    requires n <= |s|
    ensures
      match Each(f, s, n)
      case Ok(r) => |r| == n && forall i | 0 <= i < n :: f(s[i]) == Ok(r[i])
      case Err(e) => exists k | 0 <= k < n :: f(s[k]) == Err(e) && forall i | 0 <= i < k :: f(s[i]).Ok?
  {
    if n == 0 {
    } else {
      EachMeaning(f, s, n - 1);
    }
  }

  lemma {:induction false} EachStops<T, U, E>(f: T -> Result<U, E>, s: seq<T>, n: nat)
    requires n <= |s| && Each(f, s, n).Err?
    ensures All(f, s) == Each(f, s, n)
    decreases |s| - n
  {
    if n == |s| {
    } else {
      EachStops(f, s, n + 1);
    }
  }

  /** A check leaves a list alone exactly when it leaves every element alone. */
  lemma AllFixed<T, E>(f: T -> Result<T, E>, s: seq<T>)
    ensures All(f, s) == Ok(s) <==> forall i | 0 <= i < |s| :: f(s[i]) == Ok(s[i])
  {
    EachMeaning(f, s, |s|);
    var r := All(f, s);
    if r.Ok? && forall i | 0 <= i < |s| :: f(s[i]) == Ok(s[i]) {
      assert r.value == s;
    }
  }

  // ----- addresses -----

  function NormalizeRegister(functionCode: int, register: int): (int, int) {
    if 30000 <= register < 40000 then (3, register - 30000)
    else if 40000 <= register < 50000 then (4, register - 40000)
    else (functionCode, register)
  }

  function NormalizeAddress(zeroBased: bool, a: Address): Address {
    var description := Text.TrimSpace(a.description);
    var dataType := Text.UpperTrim(a.dataType);
    var (functionCode, register) :=
      if zeroBased then NormalizeRegister(a.functionCode, a.register) else (a.functionCode, a.register);
    a.(description := description,
       dataType := dataType,
       sourceUnit := Text.TrimSpace(a.sourceUnit),
       canonicalUnit := Text.TrimSpace(a.canonicalUnit),
       remark := Text.TrimSpace(a.remark),
       functionCode := functionCode,
       register := register,
       factor := if a.factor == 0.0 then 1.0 else a.factor,
       canonicalKey := if Text.Blank(a.canonicalKey) then KeyOf(functionCode, register) else a.canonicalKey,
       sourceTag := if a.sourceTag == "" then description else a.sourceTag,
       length := if a.length == 0 then Decoding.RegisterCount(dataType) else a.length,
       wordOrder := Text.UpperTrim(a.wordOrder),
       enabled := a.enabled || !a.enabledSet)
  }

  function KeyOf(functionCode: int, register: int): string {
    Text.Decimal(functionCode) + ":" + Text.Decimal(register)
  }

  predicate IsByteOrder(s: string) {
    s == "BIG_ENDIAN" || s == "LITTLE_ENDIAN"
  }

  predicate IsWordOrder(s: string) {
    s == "HIGH_LOW" || s == "LOW_HIGH"
  }

  function DefinitionOf(a: Address): RegisterDefinition {
    RegisterDefinition(a.description, "", Decoding.Unknown(""), a.register, a.functionCode, a.length, "", true)
  }

  function AddressFaultOf(mode: Result<AddressMode, AddressError>, a: Address): Option<AddressFault> {
    if a.functionCode != 3 && a.functionCode != 4 then Some(BadFunctionCode)
    else if a.register < 0 || a.register > 65535 then Some(BadRegister)
    else if a.description == "" || a.dataType == "" then Some(DescriptionOrTypeMissing)
    else if Decoding.RegisterCount(a.dataType) == 0 then Some(UnsupportedDataType)
    else if a.length < 1 || a.length > 4 then Some(BadLength)
    else if a.wordOrder != "" && !IsWordOrder(a.wordOrder) then Some(BadWordOrder)
    else
      match ResolveParsed(mode, DefinitionOf(a))
      case Err(e) => Some(Unresolvable(e))
      case Ok(_) => None
  }

  /** validateAddress, then the owning device set. */
  function ValidAddress(mode: Result<AddressMode, AddressError>, deviceSetId: int, a: Address): Result<Address, ConfigError> {
    match AddressFaultOf(mode, a)
    case Some(fault) => Err(BadAddress(fault))
    case None => Ok(a.(deviceSetId := deviceSetId))
  }

  function CheckedAddress(zeroBased: bool, mode: Result<AddressMode, AddressError>, deviceSetId: int): Address -> Result<Address, ConfigError> {
    (a: Address) => ValidAddress(mode, deviceSetId, NormalizeAddress(zeroBased, a))
  }

  // ----- device sets -----

  function DevTypeIdOf(devType: string): int {
    var v := Text.ToLower(Text.TrimSpace(devType));
    if Text.Contains(v, "grid") || Text.Contains(v, "meter") then 17 else 1
  }

  function DevTypeName(id: int): string {
    if id == 17 then "Grid-Meter" else "Inverter"
  }

  function OrDefault(s: string, default: string): string {
    if s == "" then default else s
  }

  /** The canonical name of an address mode; an unknown one is trimmed and upper-cased. */
  function CanonicalModeName(addressMode: string): string {
    match ParseMode(OrDefault(addressMode, "ZERO_BASED"))
    case Ok(mode) => ModeName(mode)
    case Err(_) => Text.UpperTrim(addressMode)
  }

  function NormalizeDeviceSet(v: DeviceSet): DeviceSet {
    var typed := Text.TrimSpace(v.devType);
    var devType := if typed == "" && v.devTypeId > 0 then DevTypeName(v.devTypeId) else typed;
    v.(devType := devType,
       devModel := Text.TrimSpace(v.devModel),
       devTypeId := if v.devTypeId <= 0 then DevTypeIdOf(devType) else v.devTypeId,
       addressMode := CanonicalModeName(v.addressMode),
       byteOrder := Text.UpperTrim(OrDefault(v.byteOrder, "BIG_ENDIAN")),
       wordOrder := Text.UpperTrim(OrDefault(v.wordOrder, "HIGH_LOW")),
       maxBlockSize := if v.maxBlockSize < 1 then 30 else v.maxBlockSize)
  }

  function AddressIds(addresses: seq<Address>): (ids: seq<int>)
    ensures |ids| == |addresses| && forall i | 0 <= i < |ids| :: ids[i] == addresses[i].addressId
  {
    seq(|addresses|, i requires 0 <= i < |addresses| => addresses[i].addressId)
  }

  function DeviceSetFault(brandIds: set<int>, v: DeviceSet): Option<ConfigError> {
    if v.brandId !in brandIds then Some(UnknownBrand(v.brandId))
    else if Text.Blank(v.devType) || Text.Blank(v.devModel) then Some(TypeOrModelMissing)
    else if !IsByteOrder(v.byteOrder) || !IsWordOrder(v.wordOrder) || v.maxBlockSize < 1 || v.maxBlockSize > 125 then
      Some(BadOrdersOrBlockSize)
    else if v.addresses == [] then Some(NoAddresses)
    else None
  }

  function CheckedAddresses(v: DeviceSet): Result<seq<Address>, ConfigError> {
    All(CheckedAddress(v.addressMode == "ZERO_BASED", ParseMode(v.addressMode), v.deviceSetId), v.addresses)
  }

  /** The checks on a normalised device set, and its addresses. */
  function CheckedFields(brandIds: set<int>, v: DeviceSet): Result<DeviceSet, ConfigError> {
    match DeviceSetFault(brandIds, v)
    case Some(e) => Err(e)
    case None =>
      match CheckedAddresses(v)
      case Err(e) => Err(e)
      case Ok(addresses) => Ok(v.(addresses := addresses, addressIdList := AddressIds(addresses)))
  }

  function CheckedDeviceSet(brandIds: set<int>): DeviceSet -> Result<DeviceSet, ConfigError> {
    (v: DeviceSet) => CheckedFields(brandIds, NormalizeDeviceSet(v))
  }

  // ----- brands, plants, connections -----

  function CheckedBrand(): Brand -> Result<Brand, ConfigError> {
    (b: Brand) =>
      var b' := b.(name := Text.TrimSpace(b.name), description := Text.TrimSpace(b.description));
      if b'.name == "" then Err(BrandNameMissing) else Ok(b')
  }

  function CheckedPlant(): Plant -> Result<Plant, ConfigError> {
    (p: Plant) =>
      var p' := p.(code := Text.UpperTrim(p.code), name := Text.TrimSpace(p.name));
      if p'.code == "" || p'.name == "" then Err(PlantFieldsMissing) else Ok(p')
  }

  /** strings.Cut at the first dash. */
  function DashAt(s: string, from: nat): (i: nat)
    requires from <= |s|
    ensures from <= i <= |s|
    ensures i < |s| ==> s[i] == '-'
    ensures forall k | from <= k < i :: s[k] != '-'
    decreases |s| - from
  {
    if from == |s| || s[from] == '-' then from else DashAt(s, from + 1)
  }

  function PlantFromConnectionName(name: string): (plant: string)
    ensures plant != "" && Text.Trimmed(plant)
  {
    var value := Text.TrimSpace(name);
    var dash := DashAt(value, 0);
    if dash == |value| || Text.Blank(value[..dash]) then "DEFAULT" else Text.UpperTrim(value[..dash])
  }

  function OrElse(s: string, fallback: string): string {
    if Text.Blank(s) then fallback else s
  }

  function NormalizeConnection(v: Connection): Connection {
    var name := Text.TrimSpace(v.name);
    var unitId := if v.unitId > 0 then v.unitId else if v.slaveId > 0 then v.slaveId else 1;
    var plantCode := OrElse(v.plantCode, PlantFromConnectionName(name));
    v.(name := name,
       host := Text.TrimSpace(v.host),
       unitId := unitId,
       slaveId := unitId,
       devDn := OrElse(v.devDn, name),
       deviceName := OrElse(v.deviceName, name),
       plantCode := plantCode,
       plantName := OrElse(v.plantName, plantCode),
       enabled := v.enabled || v.connectionId == 0)
  }

  function CheckedConnection(deviceSetIds: set<int>): Connection -> Result<Connection, ConfigError> {
    (c: Connection) =>
      var v := NormalizeConnection(c);
      if c.deviceSetId !in deviceSetIds then Err(UnknownDeviceSet(c.deviceSetId))
      else if Text.Blank(v.name) || Text.Blank(v.host) || v.port < 1 || v.port > 65535 then Err(BadConnection)
      else Ok(v)
  }

  // ----- the whole snapshot -----

  function BrandIds(brands: seq<Brand>): set<int> {
    IdsTo((b: Brand) => b.brandId, brands, |brands|)
  }

  function DeviceSetIds(sets: seq<DeviceSet>): set<int> {
    IdsTo((v: DeviceSet) => v.deviceSetId, sets, |sets|)
  }

  function Normalize(s: Snapshot): Result<Snapshot, ConfigError> {
    var brands :- All(CheckedBrand(), s.brands);
    var deviceSets :- All(CheckedDeviceSet(BrandIds(s.brands)), s.deviceSets);
    var plants :- All(CheckedPlant(), s.plants);
    var connections :- All(CheckedConnection(DeviceSetIds(s.deviceSets)), s.connections);
    Ok(s.(brands := brands, deviceSets := deviceSets, plants := plants, connections := connections))
  }

  /** The loop each section goes through: stop at the first error, otherwise collect the checked
      elements and the ids seen. */
  method CheckAll<T, E>(check: T -> Result<T, E>, idOf: T -> int, s: seq<T>) returns (r: Result<seq<T>, E>, ids: set<int>)
    ensures r == All(check, s)
    ensures r.Ok? ==> ids == IdsTo(idOf, s, |s|)
  {
    var out := [];
    ids := {};
    for i := 0 to |s|
      invariant Each(check, s, i) == Ok(out)
      invariant ids == IdsTo(idOf, s, i)
    {
      var x := check(s[i]);
      if x.Err? {
        EachStops(check, s, i + 1);
        return Err(x.error), ids;
      }
      out := out + [x.value];
      ids := ids + {idOf(s[i])};
    }
    r := Ok(out);
  }

  function IdsTo<T>(idOf: T -> int, s: seq<T>, n: nat): set<int>
    requires n <= |s|
  {
    set k | 0 <= k < n :: idOf(s[k])
  }

  /** normalizeConfigSnapshot: the sections are checked in turn, and the first error rejects the
      whole snapshot. */
  method NormalizeConfigSnapshot(snap: Snapshot) returns (r: Result<Snapshot, ConfigError>)
    ensures r == Normalize(snap)
  {
    var brands, brandIds :- CheckAll(CheckedBrand(), (b: Brand) => b.brandId, snap.brands);
    var deviceSets, deviceSetIds :- CheckAll(CheckedDeviceSet(brandIds), (v: DeviceSet) => v.deviceSetId, snap.deviceSets);
    var plants, _ :- CheckAll(CheckedPlant(), (p: Plant) => 0, snap.plants);
    var connections, _ :- CheckAll(CheckedConnection(deviceSetIds), (c: Connection) => c.connectionId, snap.connections);
    return Ok(snap.(brands := brands, deviceSets := deviceSets, plants := plants, connections := connections));
  }

  // ----- canonical configurations -----

  predicate Upper(s: string) {
    Text.Trimmed(s) && Text.UpperCase(s)
  }

  predicate CanonicalMode(name: string) {
    ParseMode(name).Ok? && ModeName(ParseMode(name).value) == name
  }

  /** Nothing left to trim or fill in. */
  predicate TidyAddress(zeroBased: bool, a: Address) {
    && TidyTexts(a) && !Text.Blank(a.canonicalKey)
    && (zeroBased ==> !(30000 <= a.register < 50000))
    && a.factor != 0.0
    && (a.length == 0 ==> Decoding.RegisterCount(a.dataType) == 0)
    && (a.enabledSet || a.enabled)
  }

  predicate TidyTexts(a: Address) {
    && Text.Trimmed(a.description) && Upper(a.dataType) && Upper(a.wordOrder)
    && Text.Trimmed(a.sourceUnit) && Text.Trimmed(a.canonicalUnit) && Text.Trimmed(a.remark)
    && (a.sourceTag == "" ==> a.description == "")
  }

  /** An address that is described and reads a legal request under its mode. */
  predicate ReadableAddress(mode: AddressMode, a: Address) {
    && a.description != "" && Decoding.RegisterCount(a.dataType) > 0
    && a.functionCode in {3, 4} && 0 <= a.register <= 65535 && 1 <= a.length <= 4
    && LegalRequest(SelectedFunction(mode, DefinitionOf(a)), WireStart(mode, a.register), a.length)
    && (mode.FullNotation? ==> 30000 <= a.register < 50000)
    && (a.wordOrder == "" || IsWordOrder(a.wordOrder))
  }

  predicate CanonicalAddress(mode: AddressMode, deviceSetId: int, a: Address) {
    TidyAddress(mode == ZeroBased, a) && ReadableAddress(mode, a) && a.deviceSetId == deviceSetId
  }

  /** The fields of a device set other than its addresses. */
  predicate TidyDeviceSet(v: DeviceSet) {
    && Text.Trimmed(v.devType) && v.devType != "" && Text.Trimmed(v.devModel) && v.devModel != ""
    && v.devTypeId > 0
    && CanonicalMode(v.addressMode) && IsByteOrder(v.byteOrder) && IsWordOrder(v.wordOrder)
    && 1 <= v.maxBlockSize <= 125
  }

  predicate CanonicalDeviceSet(brandIds: set<int>, v: DeviceSet) {
    && v.brandId in brandIds && TidyDeviceSet(v)
    && v.addresses != [] && v.addressIdList == AddressIds(v.addresses)
    && forall i | 0 <= i < |v.addresses| ::
         CanonicalAddress(ParseMode(v.addressMode).value, v.deviceSetId, v.addresses[i])
  }

  predicate CanonicalBrand(b: Brand) {
    Text.Trimmed(b.name) && b.name != "" && Text.Trimmed(b.description)
  }

  predicate CanonicalPlant(p: Plant) {
    Upper(p.code) && p.code != "" && Text.Trimmed(p.name) && p.name != ""
  }

  predicate CanonicalConnection(deviceSetIds: set<int>, c: Connection) {
    && c.deviceSetId in deviceSetIds
    && Text.Trimmed(c.name) && c.name != "" && Text.Trimmed(c.host) && c.host != ""
    && 1 <= c.port <= 65535
    && c.unitId >= 1 && c.slaveId == c.unitId
    && !Text.Blank(c.devDn) && !Text.Blank(c.deviceName) && !Text.Blank(c.plantCode) && !Text.Blank(c.plantName)
    && (c.connectionId == 0 ==> c.enabled)
  }

  ghost predicate AllAre<T>(canonical: T -> bool, s: seq<T>) {
    forall i | 0 <= i < |s| :: canonical(s[i])
  }

  function IsCanonicalBrand(): Brand -> bool {
    (b: Brand) => CanonicalBrand(b)
  }

  function IsCanonicalDeviceSet(brandIds: set<int>): DeviceSet -> bool {
    (v: DeviceSet) => CanonicalDeviceSet(brandIds, v)
  }

  function IsCanonicalPlant(): Plant -> bool {
    (p: Plant) => CanonicalPlant(p)
  }

  function IsCanonicalConnection(ids: set<int>): Connection -> bool {
    (c: Connection) => CanonicalConnection(ids, c)
  }

  /** A snapshot in which every reference resolves and nothing is left to trim or fill in. */
  ghost predicate CanonicalSnapshot(s: Snapshot) {
    && AllAre(IsCanonicalBrand(), s.brands)
    && AllAre(IsCanonicalDeviceSet(BrandIds(s.brands)), s.deviceSets)
    && AllAre(IsCanonicalPlant(), s.plants)
    && AllAre(IsCanonicalConnection(DeviceSetIds(s.deviceSets)), s.connections)
  }

  // ----- normalisation is a stable closure -----

  /** The checks compare the mode's canonical name, which is the same as comparing the mode. */
  lemma ZeroBasedByName(v: DeviceSet)
    ensures
      var name := NormalizeDeviceSet(v).addressMode;
      && (ParseMode(name).Ok? ==> CanonicalMode(name))
      && (name == "ZERO_BASED" <==> ParseMode(name) == Ok(ZeroBased))
  {
    CanonicalNameIsStable(v.addressMode);
  }

  lemma CanonicalNameIsStable(raw: string)
    ensures
      var name := CanonicalModeName(raw);
      && (ParseMode(name).Ok? ==> CanonicalMode(name))
      && (name == "ZERO_BASED" <==> ParseMode(name) == Ok(ZeroBased))
  {
    ModeNameRoundTrip(ZeroBased);
    var parsed := ParseMode(OrDefault(raw, "ZERO_BASED"));
    if parsed.Ok? {
      ModeNameRoundTrip(parsed.value);
    } else {
      assert ParseMode(Text.UpperTrim(raw)).Err?;
    }
  }

  lemma KeyIsNotBlank(functionCode: int, register: int)
    ensures !Text.Blank(KeyOf(functionCode, register))
  {
    Text.VisibleIsNotBlank(KeyOf(functionCode, register));
  }

  lemma NormalizeAddressTidies(zeroBased: bool, a: Address)
    ensures TidyAddress(zeroBased, NormalizeAddress(zeroBased, a))
  {
    TextsTidied(zeroBased, a);
    KeyFilled(zeroBased, a);
  }

  lemma TextsTidied(zeroBased: bool, a: Address)
    ensures TidyTexts(NormalizeAddress(zeroBased, a))
  {
  }

  lemma KeyFilled(zeroBased: bool, a: Address)
    ensures !Text.Blank(NormalizeAddress(zeroBased, a).canonicalKey)
  {
    var a' := NormalizeAddress(zeroBased, a);
    KeyIsNotBlank(a'.functionCode, a'.register);
  }

  lemma TidyAddressIsFixed(zeroBased: bool, a: Address)
    requires TidyAddress(zeroBased, a)
    ensures NormalizeAddress(zeroBased, a) == a
  {
  }

  lemma BlankTypeHasNoCount()
    ensures Decoding.RegisterCount("") == 0
  {
    assert Text.UpperTrim("") == "";
  }

  /** Validation accepts exactly the readable addresses. */
  lemma ValidationIsExact(mode: AddressMode, a: Address)
    ensures AddressFaultOf(Ok(mode), a) == None <==> ReadableAddress(mode, a)
  {
    BlankTypeHasNoCount();
  }

  lemma ValidAddressIsCanonical(mode: AddressMode, deviceSetId: int, a: Address)
    requires TidyAddress(mode == ZeroBased, a)
    ensures
      var r := ValidAddress(Ok(mode), deviceSetId, a);
      r.Ok? ==> CanonicalAddress(mode, deviceSetId, r.value)
  {
    ValidationIsExact(mode, a);
  }

  lemma CheckedAddressIsCanonical(mode: AddressMode, deviceSetId: int, a: Address)
    ensures
      var r := CheckedAddress(mode == ZeroBased, Ok(mode), deviceSetId)(a);
      r.Ok? ==> CanonicalAddress(mode, deviceSetId, r.value)
  {
    NormalizeAddressTidies(mode == ZeroBased, a);
    ValidAddressIsCanonical(mode, deviceSetId, NormalizeAddress(mode == ZeroBased, a));
  }

  lemma CanonicalAddressIsFixed(mode: AddressMode, deviceSetId: int, a: Address)
    requires CanonicalAddress(mode, deviceSetId, a)
    ensures CheckedAddress(mode == ZeroBased, Ok(mode), deviceSetId)(a) == Ok(a)
  {
    TidyAddressIsFixed(mode == ZeroBased, a);
    ValidationIsExact(mode, a);
  }

  // device sets

  lemma TidyDeviceSetIsFixed(v: DeviceSet)
    requires TidyDeviceSet(v)
    ensures NormalizeDeviceSet(v) == v
  {
    assert CanonicalModeName(v.addressMode) == v.addressMode by {
      ModeNameRoundTrip(ParseMode(v.addressMode).value);
    }
    OrdersAreUpper(v.byteOrder, v.wordOrder);
  }

  lemma OrdersAreUpper(byteOrder: string, wordOrder: string)
    ensures IsByteOrder(byteOrder) ==> Upper(byteOrder) && byteOrder != ""
    ensures IsWordOrder(wordOrder) ==> Upper(wordOrder) && wordOrder != ""
  {
  }

  lemma TypeFieldsTidied(v: DeviceSet)
    ensures
      var v' := NormalizeDeviceSet(v);
      && Text.Trimmed(v'.devType) && Text.Trimmed(v'.devModel) && v'.devTypeId > 0
  {
    DevTypeNamesAreTrimmed(v.devTypeId);
  }

  lemma DevTypeNamesAreTrimmed(id: int)
    ensures Text.Trimmed(DevTypeName(id))
  {
    assert Text.Trimmed("Grid-Meter") && Text.Trimmed("Inverter");
  }

  lemma UnknownModeIsAFault(error: AddressError, a: Address)
    ensures AddressFaultOf(Err(error), a) != None
  {
  }

  lemma UnknownModeIsRefused(zeroBased: bool, error: AddressError, deviceSetId: int, a: Address)
    ensures CheckedAddress(zeroBased, Err(error), deviceSetId)(a).Err?
  {
    UnknownModeIsAFault(error, NormalizeAddress(zeroBased, a));
  }

  lemma FirstIsChecked<T, U, E>(check: T -> Result<U, E>, s: seq<T>)
    requires s != [] && All(check, s).Ok?
    ensures check(s[0]).Ok?
  {
    EachMeaning(check, s, |s|);
  }

  lemma ModeIsKnown(v: DeviceSet)
    requires v.addresses != [] && CheckedAddresses(v).Ok?
    ensures ParseMode(v.addressMode).Ok?
  {
    var zeroBased, mode := v.addressMode == "ZERO_BASED", ParseMode(v.addressMode);
    if mode.Err? {
      FirstIsChecked(CheckedAddress(zeroBased, mode, v.deviceSetId), v.addresses);
      UnknownModeIsRefused(zeroBased, mode.error, v.deviceSetId, v.addresses[0]);
    }
  }

  lemma AcceptedDeviceSetIsTidy(brandIds: set<int>, raw: DeviceSet)
    ensures
      var v := NormalizeDeviceSet(raw);
      DeviceSetFault(brandIds, v) == None && ParseMode(v.addressMode).Ok? ==> TidyDeviceSet(v)
  {
    TypeFieldsTidied(raw);
    ZeroBasedByName(raw);
  }

  lemma CheckedAddressesAreCanonical(v: DeviceSet, mode: AddressMode)
    requires ParseMode(v.addressMode) == Ok(mode) && (v.addressMode == "ZERO_BASED" <==> mode == ZeroBased)
    ensures
      var r := CheckedAddresses(v);
      r.Ok? ==> |r.value| == |v.addresses| && forall i | 0 <= i < |r.value| :: CanonicalAddress(mode, v.deviceSetId, r.value[i])
    ensures (forall i | 0 <= i < |v.addresses| :: CanonicalAddress(mode, v.deviceSetId, v.addresses[i])) ==>
              CheckedAddresses(v) == Ok(v.addresses)
  {
    var check := CheckedAddress(mode == ZeroBased, Ok(mode), v.deviceSetId);
    var r := CheckedAddresses(v);
    EachMeaning(check, v.addresses, |v.addresses|);
    if r.Ok? {
      forall i | 0 <= i < |r.value|
        ensures CanonicalAddress(mode, v.deviceSetId, r.value[i])
      {
        CheckedAddressIsCanonical(mode, v.deviceSetId, v.addresses[i]);
      }
    }
    if forall i | 0 <= i < |v.addresses| :: CanonicalAddress(mode, v.deviceSetId, v.addresses[i]) {
      forall i | 0 <= i < |v.addresses|
        ensures check(v.addresses[i]) == Ok(v.addresses[i])
      {
        CanonicalAddressIsFixed(mode, v.deviceSetId, v.addresses[i]);
      }
      AllFixed(check, v.addresses);
    }
  }

  lemma CheckedFieldsAreCanonical(brandIds: set<int>, v: DeviceSet)
    requires DeviceSetFault(brandIds, v) == None && ParseMode(v.addressMode).Ok? ==> TidyDeviceSet(v)
    requires v.addressMode == "ZERO_BASED" <==> ParseMode(v.addressMode) == Ok(ZeroBased)
    ensures
      var r := CheckedFields(brandIds, v);
      r.Ok? ==> CanonicalDeviceSet(brandIds, r.value) && r.value.deviceSetId == v.deviceSetId
  {
    if DeviceSetFault(brandIds, v) == None && CheckedAddresses(v).Ok? {
      ModeIsKnown(v);
      CheckedAddressesAreCanonical(v, ParseMode(v.addressMode).value);
    }
  }

  lemma CheckedDeviceSetIsCanonical(brandIds: set<int>, v: DeviceSet)
    ensures
      var r := CheckedDeviceSet(brandIds)(v);
      r.Ok? ==> CanonicalDeviceSet(brandIds, r.value) && r.value.deviceSetId == v.deviceSetId
  {
    AcceptedDeviceSetIsTidy(brandIds, v);
    ZeroBasedByName(v);
    CheckedFieldsAreCanonical(brandIds, NormalizeDeviceSet(v));
  }

  lemma CanonicalDeviceSetHasNoFault(brandIds: set<int>, v: DeviceSet)
    requires CanonicalDeviceSet(brandIds, v)
    ensures DeviceSetFault(brandIds, v) == None
  {
  }

  lemma CanonicalFieldsAreFixed(brandIds: set<int>, v: DeviceSet)
    requires CanonicalDeviceSet(brandIds, v)
    requires v.addressMode == "ZERO_BASED" <==> ParseMode(v.addressMode) == Ok(ZeroBased)
    ensures CheckedFields(brandIds, v) == Ok(v)
  {
    CanonicalDeviceSetHasNoFault(brandIds, v);
    CheckedAddressesAreCanonical(v, ParseMode(v.addressMode).value);
  }

  lemma CanonicalDeviceSetIsFixed(brandIds: set<int>, v: DeviceSet)
    requires CanonicalDeviceSet(brandIds, v)
    ensures CheckedDeviceSet(brandIds)(v) == Ok(v)
  {
    TidyDeviceSetIsFixed(v);
    ZeroBasedByName(v);
    CanonicalFieldsAreFixed(brandIds, v);
  }

  // brands, plants, connections

  lemma CheckedBrandIsCanonical(b: Brand)
    ensures
      var r := CheckedBrand()(b);
      && (r.Ok? ==> CanonicalBrand(r.value) && r.value.brandId == b.brandId)
      && (CanonicalBrand(b) <==> r == Ok(b))
  {
  }

  lemma CheckedPlantIsCanonical(p: Plant)
    ensures
      var r := CheckedPlant()(p);
      && (r.Ok? ==> CanonicalPlant(r.value))
      && (CanonicalPlant(p) <==> r == Ok(p))
  {
    Text.UpperTrimFixpoint(p.code);
  }

  lemma VisibleName(s: string)
    requires Text.Trimmed(s) && s != ""
    ensures !Text.Blank(s)
  {
    Text.VisibleIsNotBlank(s);
  }

  lemma PlantIsVisible(name: string)
    ensures !Text.Blank(PlantFromConnectionName(name))
  {
    VisibleName(PlantFromConnectionName(name));
  }

  /** Normalising fills every name a connection needs. */
  lemma NormalizeConnectionFills(c: Connection)
    ensures
      var v := NormalizeConnection(c);
      && Text.Trimmed(v.name) && Text.Trimmed(v.host)
      && v.unitId >= 1 && v.slaveId == v.unitId
      && (!Text.Blank(v.name) ==> !Text.Blank(v.devDn) && !Text.Blank(v.deviceName))
      && !Text.Blank(v.plantCode) && !Text.Blank(v.plantName)
      && (v.connectionId == 0 ==> v.enabled)
  {
    PlantIsVisible(Text.TrimSpace(c.name));
  }

  lemma CheckedConnectionIsCanonical(ids: set<int>, c: Connection)
    ensures
      var r := CheckedConnection(ids)(c);
      r.Ok? ==> CanonicalConnection(ids, r.value)
  {
    NormalizeConnectionFills(c);
    NothingIsBlank();
  }

  lemma NothingIsBlank()
    ensures Text.Blank("")
  {
  }

  lemma CanonicalConnectionIsFixed(ids: set<int>, c: Connection)
    requires CanonicalConnection(ids, c)
    ensures CheckedConnection(ids)(c) == Ok(c)
  {
    VisibleName(c.name);
    VisibleName(c.host);
  }

  // the whole snapshot

  /** A check whose results are canonical and that leaves canonical values alone. */
  ghost predicate Settles<T(!new), E(!new)>(check: T -> Result<T, E>, canonical: T -> bool) {
    forall x :: (check(x).Ok? ==> canonical(check(x).value)) && (canonical(x) ==> check(x) == Ok(x))
  }

  lemma AllSettles<T(!new), E(!new)>(check: T -> Result<T, E>, canonical: T -> bool, s: seq<T>)
    requires Settles(check, canonical)
    ensures All(check, s).Ok? ==> AllAre(canonical, All(check, s).value)
    ensures AllAre(canonical, s) ==> All(check, s) == Ok(s)
  {
    EachMeaning(check, s, |s|);
    AllFixed(check, s);
  }

  ghost predicate KeepsId<T(!new), E(!new)>(check: T -> Result<T, E>, idOf: T -> int) {
    forall x :: check(x).Ok? ==> idOf(check(x).value) == idOf(x)
  }

  lemma AllKeepIds<T(!new), E(!new)>(check: T -> Result<T, E>, idOf: T -> int, s: seq<T>)
    requires KeepsId(check, idOf)
    ensures All(check, s).Ok? ==> IdsTo(idOf, All(check, s).value, |All(check, s).value|) == IdsTo(idOf, s, |s|)
  {
    EachMeaning(check, s, |s|);
    var r := All(check, s);
    if r.Ok? {
      assert forall k | 0 <= k < |s| :: check(s[k]) == Ok(r.value[k]) && idOf(r.value[k]) == idOf(s[k]);
    }
  }

  lemma BrandsSettle()
    ensures Settles(CheckedBrand(), IsCanonicalBrand())
  {
    forall b { CheckedBrandIsCanonical(b); }
  }

  lemma DeviceSetsSettle(brandIds: set<int>)
    ensures Settles(CheckedDeviceSet(brandIds), IsCanonicalDeviceSet(brandIds))
  {
    forall v: DeviceSet
      ensures CheckedDeviceSet(brandIds)(v).Ok? ==> IsCanonicalDeviceSet(brandIds)(CheckedDeviceSet(brandIds)(v).value)
    {
      CheckedDeviceSetIsCanonical(brandIds, v);
    }
    forall v | IsCanonicalDeviceSet(brandIds)(v)
      ensures CheckedDeviceSet(brandIds)(v) == Ok(v)
    {
      CanonicalDeviceSetIsFixed(brandIds, v);
    }
  }

  lemma PlantsSettle()
    ensures Settles(CheckedPlant(), IsCanonicalPlant())
  {
    forall p { CheckedPlantIsCanonical(p); }
  }

  lemma ConnectionsSettle(ids: set<int>)
    ensures Settles(CheckedConnection(ids), IsCanonicalConnection(ids))
  {
    forall c: Connection
      ensures CheckedConnection(ids)(c).Ok? ==> IsCanonicalConnection(ids)(CheckedConnection(ids)(c).value)
    {
      CheckedConnectionIsCanonical(ids, c);
    }
    forall c | IsCanonicalConnection(ids)(c)
      ensures CheckedConnection(ids)(c) == Ok(c)
    {
      CanonicalConnectionIsFixed(ids, c);
    }
  }

  lemma BrandsKeepTheirIds(s: seq<Brand>)
    ensures All(CheckedBrand(), s).Ok? ==> BrandIds(All(CheckedBrand(), s).value) == BrandIds(s)
  {
    var idOf := (b: Brand) => b.brandId;
    forall b { CheckedBrandIsCanonical(b); }
    assert KeepsId(CheckedBrand(), idOf);
    AllKeepIds(CheckedBrand(), idOf, s);
  }

  lemma DeviceSetsKeepTheirIds(brandIds: set<int>, s: seq<DeviceSet>)
    ensures
      var r := All(CheckedDeviceSet(brandIds), s);
      r.Ok? ==> DeviceSetIds(r.value) == DeviceSetIds(s)
  {
    var idOf := (v: DeviceSet) => v.deviceSetId;
    forall v { CheckedDeviceSetIsCanonical(brandIds, v); }
    assert KeepsId(CheckedDeviceSet(brandIds), idOf);
    AllKeepIds(CheckedDeviceSet(brandIds), idOf, s);
  }

  lemma SectionsSettle(brandIds: set<int>, ids: set<int>)
    ensures Settles(CheckedBrand(), IsCanonicalBrand())
    ensures Settles(CheckedDeviceSet(brandIds), IsCanonicalDeviceSet(brandIds))
    ensures Settles(CheckedPlant(), IsCanonicalPlant())
    ensures Settles(CheckedConnection(ids), IsCanonicalConnection(ids))
  {
    BrandsSettle();
    DeviceSetsSettle(brandIds);
    PlantsSettle();
    ConnectionsSettle(ids);
  }

  lemma AcceptedSnapshotIsCanonical(s: Snapshot)
    requires Normalize(s).Ok?
    ensures CanonicalSnapshot(Normalize(s).value) && Normalize(s).value.version == s.version
  {
    var brandIds, ids := BrandIds(s.brands), DeviceSetIds(s.deviceSets);
    SectionsSettle(brandIds, ids);
    BrandsKeepTheirIds(s.brands);
    DeviceSetsKeepTheirIds(brandIds, s.deviceSets);
    AllSettles(CheckedBrand(), IsCanonicalBrand(), s.brands);
    AllSettles(CheckedDeviceSet(brandIds), IsCanonicalDeviceSet(brandIds), s.deviceSets);
    AllSettles(CheckedPlant(), IsCanonicalPlant(), s.plants);
    AllSettles(CheckedConnection(ids), IsCanonicalConnection(ids), s.connections);
  }

  lemma CanonicalSnapshotIsFixed(s: Snapshot)
    requires CanonicalSnapshot(s)
    ensures Normalize(s) == Ok(s)
  {
    var brandIds, ids := BrandIds(s.brands), DeviceSetIds(s.deviceSets);
    SectionsSettle(brandIds, ids);
    AllSettles(CheckedBrand(), IsCanonicalBrand(), s.brands);
    AllSettles(CheckedDeviceSet(brandIds), IsCanonicalDeviceSet(brandIds), s.deviceSets);
    AllSettles(CheckedPlant(), IsCanonicalPlant(), s.plants);
    AllSettles(CheckedConnection(ids), IsCanonicalConnection(ids), s.connections);
  }

  /** What is accepted is canonical, and exactly the canonical snapshots pass unchanged; so an
      accepted snapshot is accepted again unchanged. */
  lemma NormalizationIsAStableClosure(s: Snapshot)
    ensures Normalize(s).Ok? ==> CanonicalSnapshot(Normalize(s).value) && Normalize(Normalize(s).value) == Normalize(s)
    ensures CanonicalSnapshot(s) <==> Normalize(s) == Ok(s)
  {
    if Normalize(s).Ok? {
      AcceptedSnapshotIsCanonical(s);
      CanonicalSnapshotIsFixed(Normalize(s).value);
    }
    if CanonicalSnapshot(s) {
      CanonicalSnapshotIsFixed(s);
    }
  }
}
