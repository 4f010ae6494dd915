/** What the configuration gate makes of what was sent: each part of an accepted configuration, field by
    field, and what that is worth to a poll. */
module Configured {
  import opened Results
  import opened Domain
  import opened Addressing
  import opened Normalizing
  import Decoding
  import Holding
  import Planning
  import Polling
  import Refinement
  import Text

  // ----- field by field -----

  predicate BrandAsSent(sent: Brand, b: Brand) {
    && b.brandId == sent.brandId
    && b.name == Text.TrimSpace(sent.name) != "" && b.description == Text.TrimSpace(sent.description)
  }

  predicate PlantAsSent(sent: Plant, p: Plant) {
    p.code == Text.UpperTrim(sent.code) != "" && p.name == Text.TrimSpace(sent.name) != ""
  }

  /** A zero-based device set may give registers in full notation, which says the function code too. */
  predicate PlaceAsSent(zeroBased: bool, sent: Address, a: Address) {
    if zeroBased && 30000 <= sent.register < 40000 then a.functionCode == 3 && a.register == sent.register - 30000
    else if zeroBased && 40000 <= sent.register < 50000 then a.functionCode == 4 && a.register == sent.register - 40000
    else a.functionCode == sent.functionCode && a.register == sent.register
  }

  /** A length that was left out is the width of the type. */
  ghost predicate LengthAsSent(sent: Address, a: Address) {
    if sent.length != 0 then a.length == sent.length
    else exists t :: a.dataType in Decoding.TypeNames(t) && a.length == Decoding.Width(t)
  }

  predicate NamesAsSent(sent: Address, a: Address) {
    && a.description == Text.TrimSpace(sent.description) && a.remark == Text.TrimSpace(sent.remark)
    && a.sourceUnit == Text.TrimSpace(sent.sourceUnit) && a.canonicalUnit == Text.TrimSpace(sent.canonicalUnit)
    && a.sourceTag == (if sent.sourceTag != "" then sent.sourceTag else a.description)
    && a.canonicalKey == (if Text.TrimSpace(sent.canonicalKey) != "" then sent.canonicalKey
                          else Text.Decimal(a.functionCode) + ":" + Text.Decimal(a.register))
  }

  ghost predicate AddressAsSent(zeroBased: bool, deviceSetId: int, sent: Address, a: Address) {
    && a.addressId == sent.addressId && a.deviceSetId == deviceSetId
    && PlaceAsSent(zeroBased, sent, a) && LengthAsSent(sent, a) && NamesAsSent(sent, a)
    && a.dataType == Text.UpperTrim(sent.dataType) && a.wordOrder == Text.UpperTrim(sent.wordOrder)
    && a.factor == (if sent.factor == 0.0 then 1.0 else sent.factor)
    && a.enabledSet == sent.enabledSet && (a.enabled <==> sent.enabledSet ==> sent.enabled)
  }

  /** The type of the device, as a number and by name; one gives the other. */
  predicate TypeAsSent(sent: DeviceSet, v: DeviceSet) {
    var name := Text.TrimSpace(sent.devType);
    && v.devType == (if name != "" then name else if sent.devTypeId == 17 then "Grid-Meter" else if sent.devTypeId > 0 then "Inverter" else "")
    && v.devTypeId == (if sent.devTypeId > 0 then sent.devTypeId else if IsMeter(name) then 17 else 1)
  }

  predicate IsMeter(name: string) {
    exists i | 0 <= i <= |name| :: "grid" <= Text.ToLower(name)[i..] || "meter" <= Text.ToLower(name)[i..]
  }

  predicate OrdersAsSent(sent: DeviceSet, v: DeviceSet) {
    && v.byteOrder == (if sent.byteOrder == "" then "BIG_ENDIAN" else Text.UpperTrim(sent.byteOrder))
    && v.wordOrder == (if sent.wordOrder == "" then "HIGH_LOW" else Text.UpperTrim(sent.wordOrder))
    && v.maxBlockSize == (if sent.maxBlockSize < 1 then 30 else sent.maxBlockSize)
  }

  /** A device set without its addresses. */
  predicate SetAsSent(sent: DeviceSet, v: DeviceSet) {
    && v.deviceSetId == sent.deviceSetId && v.brandId == sent.brandId
    && TypeAsSent(sent, v) && v.devModel == Text.TrimSpace(sent.devModel)
    && ParseMode(v.addressMode).Ok? && ParseMode(v.addressMode) == ParseMode(sent.addressMode)
    && OrdersAsSent(sent, v)
  }

  ghost predicate AddressesAsSent(zeroBased: bool, deviceSetId: int, sent: seq<Address>, addresses: seq<Address>) {
    |addresses| == |sent| && forall j | 0 <= j < |addresses| :: AddressAsSent(zeroBased, deviceSetId, sent[j], addresses[j])
  }

  ghost predicate DeviceSetAsSent(sent: DeviceSet, v: DeviceSet) {
    && SetAsSent(sent, v)
    && AddressesAsSent(ParseMode(v.addressMode) == Ok(ZeroBased), v.deviceSetId, sent.addresses, v.addresses)
    && |v.addressIdList| == |v.addresses| && forall j | 0 <= j < |v.addresses| :: v.addressIdList[j] == v.addresses[j].addressId
  }

  /** A name that was left out falls back on another. */
  predicate NameAsSent(sent: string, fallback: string, name: string) {
    name == if Text.TrimSpace(sent) != "" then sent else fallback
  }

  ghost predicate ConnectionAsSent(sent: Connection, c: Connection) {
    && c.connectionId == sent.connectionId && c.deviceSetId == sent.deviceSetId && c.port == sent.port
    && c.name == Text.TrimSpace(sent.name) && c.host == Text.TrimSpace(sent.host)
    && c.slaveId == c.unitId
    && c.unitId == (if sent.unitId > 0 then sent.unitId else if sent.slaveId > 0 then sent.slaveId else 1)
    && NameAsSent(sent.devDn, c.name, c.devDn) && NameAsSent(sent.deviceName, c.name, c.deviceName)
    && (if Text.TrimSpace(sent.plantCode) != "" then c.plantCode == sent.plantCode else PlantOfName(c.name, c.plantCode))
    && NameAsSent(sent.plantName, c.plantCode, c.plantName)
    && c.enabled == (sent.connectionId == 0 || sent.enabled)
  }

  /** A plant is named by what stands before the first dash of a connection's name, if anything does. */
  predicate PlantOfName(name: string, plant: string) {
    || (exists dash | 0 <= dash < |name| :: IsFirstDash(name, dash) && PlantOfHead(name[..dash], plant))
    || ((forall k | 0 <= k < |name| :: name[k] != '-') && plant == "DEFAULT")
  }

  predicate IsFirstDash(name: string, dash: nat)
    requires dash < |name|
  {
    name[dash] == '-' && forall k | 0 <= k < dash :: name[k] != '-'
  }

  predicate PlantOfHead(head: string, plant: string) {
    plant == if Text.TrimSpace(head) != "" then Text.UpperTrim(head) else "DEFAULT"
  }

  /** Everything that was sent is in what is accepted, and nothing else is. */
  ghost predicate AsSent(sent: Snapshot, s: Snapshot) {
    && s.version == sent.version
    && |s.brands| == |sent.brands| && |s.deviceSets| == |sent.deviceSets|
    && |s.plants| == |sent.plants| && |s.connections| == |sent.connections|
    && (forall i | 0 <= i < |s.brands| :: BrandAsSent(sent.brands[i], s.brands[i]))
    && (forall i | 0 <= i < |s.deviceSets| :: DeviceSetAsSent(sent.deviceSets[i], s.deviceSets[i]))
    && (forall i | 0 <= i < |s.plants| :: PlantAsSent(sent.plants[i], s.plants[i]))
    && (forall i | 0 <= i < |s.connections| :: ConnectionAsSent(sent.connections[i], s.connections[i]))
  }

  // ----- addresses -----

  lemma WidthOfName(dataType: string) returns (t: Decoding.DataType)
    requires Upper(dataType) && Decoding.RegisterCount(dataType) > 0
    ensures dataType in Decoding.TypeNames(t) && Decoding.RegisterCount(dataType) == Decoding.Width(t)
  {
    t := Decoding.LookUpType(dataType).value;
    Decoding.LookedUpByName(dataType, t);
  }

  lemma FilledLength(zeroBased: bool, sent: Address)
    requires Decoding.RegisterCount(NormalizeAddress(zeroBased, sent).dataType) > 0
    ensures LengthAsSent(sent, NormalizeAddress(zeroBased, sent))
  {
    if sent.length == 0 {
      var t := WidthOfName(NormalizeAddress(zeroBased, sent).dataType);
    }
  }

  lemma NormalizedAsSent(zeroBased: bool, deviceSetId: int, sent: Address)
    requires Decoding.RegisterCount(NormalizeAddress(zeroBased, sent).dataType) > 0
    ensures AddressAsSent(zeroBased, deviceSetId, sent, NormalizeAddress(zeroBased, sent).(deviceSetId := deviceSetId))
  {
    FilledLength(zeroBased, sent);
    var a := NormalizeAddress(zeroBased, sent);
    assert LengthAsSent(sent, a.(deviceSetId := deviceSetId)) by {
      if sent.length == 0 {
        var t :| a.dataType in Decoding.TypeNames(t) && a.length == Decoding.Width(t);
      }
    }
  }

  lemma CheckedAddressAsSent(mode: AddressMode, deviceSetId: int, sent: Address)
    requires CheckedAddress(mode == ZeroBased, Ok(mode), deviceSetId)(sent).Ok?
    ensures AddressAsSent(mode == ZeroBased, deviceSetId, sent, CheckedAddress(mode == ZeroBased, Ok(mode), deviceSetId)(sent).value)
  {
    ValidationIsExact(mode, NormalizeAddress(mode == ZeroBased, sent));
    NormalizedAsSent(mode == ZeroBased, deviceSetId, sent);
  }

  // ----- device sets -----

  lemma NormalizedType(sent: DeviceSet)
    ensures TypeAsSent(sent, NormalizeDeviceSet(sent))
  {
    var name := Text.TrimSpace(sent.devType);
    var v := Text.ToLower(Text.TrimSpace(name));
    assert Text.Contains(v, "grid") || Text.Contains(v, "meter") <==> IsMeter(name);
  }

  lemma NormalizedMode(sent: DeviceSet)
    requires ParseMode(NormalizeDeviceSet(sent).addressMode).Ok?
    ensures ParseMode(NormalizeDeviceSet(sent).addressMode) == ParseMode(sent.addressMode)
  {
    assert Text.UpperTrim("") == "";
    assert ParseMode(OrDefault(sent.addressMode, "ZERO_BASED")) == ParseMode(sent.addressMode) by {
      ModeNameRoundTrip(ZeroBased);
    }
    if ParseMode(sent.addressMode).Ok? {
      ModeNameRoundTrip(ParseMode(sent.addressMode).value);
    }
  }

  lemma NormalizedSetAsSent(sent: DeviceSet)
    requires ParseMode(NormalizeDeviceSet(sent).addressMode).Ok?
    ensures SetAsSent(sent, NormalizeDeviceSet(sent))
  {
    NormalizedType(sent);
    NormalizedMode(sent);
    assert Text.UpperTrim("BIG_ENDIAN") == "BIG_ENDIAN" && Text.UpperTrim("HIGH_LOW") == "HIGH_LOW" by {
      OrdersAreUpper("BIG_ENDIAN", "HIGH_LOW");
    }
  }

  lemma CheckedAddressesAsSent(v: DeviceSet, mode: AddressMode)
    requires ParseMode(v.addressMode) == Ok(mode) && (v.addressMode == "ZERO_BASED" <==> mode == ZeroBased)
    requires CheckedAddresses(v).Ok?
    ensures AddressesAsSent(mode == ZeroBased, v.deviceSetId, v.addresses, CheckedAddresses(v).value)
  {
    var addresses := CheckedAddresses(v).value;
    EachMeaning(CheckedAddress(mode == ZeroBased, Ok(mode), v.deviceSetId), v.addresses, |v.addresses|);
    forall j | 0 <= j < |addresses|
      ensures AddressAsSent(mode == ZeroBased, v.deviceSetId, v.addresses[j], addresses[j])
    {
      CheckedAddressAsSent(mode, v.deviceSetId, v.addresses[j]);
    }
  }

  /** Checking changes nothing but the addresses and the list of their ids. */
  lemma CheckedFieldsAre(brandIds: set<int>, v: DeviceSet)
    requires CheckedFields(brandIds, v).Ok?
    ensures v.addresses != [] && CheckedAddresses(v).Ok?
    ensures CheckedFields(brandIds, v).value ==
            v.(addresses := CheckedAddresses(v).value, addressIdList := AddressIds(CheckedAddresses(v).value))
  {
  }

  lemma SetWithAddresses(sent: DeviceSet, v: DeviceSet, addresses: seq<Address>)
    requires SetAsSent(sent, v)
    requires AddressesAsSent(ParseMode(v.addressMode) == Ok(ZeroBased), v.deviceSetId, sent.addresses, addresses)
    ensures DeviceSetAsSent(sent, v.(addresses := addresses, addressIdList := AddressIds(addresses)))
  {
  }

  lemma CheckedDeviceSetAsSent(brandIds: set<int>, sent: DeviceSet)
    requires CheckedDeviceSet(brandIds)(sent).Ok?
    ensures DeviceSetAsSent(sent, CheckedDeviceSet(brandIds)(sent).value)
  {
    var v := NormalizeDeviceSet(sent);
    CheckedFieldsAre(brandIds, v);
    AddressesOfAccepted(sent);
    SetWithAddresses(sent, v, CheckedAddresses(v).value);
  }

  lemma AddressesOfAccepted(sent: DeviceSet)
    requires sent.addresses != [] && CheckedAddresses(NormalizeDeviceSet(sent)).Ok?
    ensures
      var v := NormalizeDeviceSet(sent);
      && SetAsSent(sent, v)
      && AddressesAsSent(ParseMode(v.addressMode) == Ok(ZeroBased), v.deviceSetId, sent.addresses, CheckedAddresses(v).value)
  {
    var v := NormalizeDeviceSet(sent);
    ModeIsKnown(v);
    NormalizedSetAsSent(sent);
    ZeroBasedByName(sent);
    CheckedAddressesAsSent(v, ParseMode(v.addressMode).value);
  }

  // ----- connections -----

  lemma PlantIsNamed(name: string)
    requires Text.Trimmed(name)
    ensures PlantOfName(name, PlantFromConnectionName(name))
  {
    var dash := DashAt(name, 0);
    if dash < |name| {
      assert IsFirstDash(name, dash);
    }
  }

  lemma NormalizedConnectionAsSent(sent: Connection)
    ensures ConnectionAsSent(sent, NormalizeConnection(sent))
  {
    PlantIsNamed(Text.TrimSpace(sent.name));
  }

  // ----- the whole snapshot -----

  ghost predicate Makes<T(!new), E(!new)>(check: T -> Result<T, E>, related: (T, T) -> bool) {
    forall x :: check(x).Ok? ==> related(x, check(x).value)
  }

  ghost predicate Pairwise<T>(related: (T, T) -> bool, sent: seq<T>, got: seq<T>) {
    |got| == |sent| && forall i | 0 <= i < |got| :: related(sent[i], got[i])
  }

  lemma SectionAsSent<T(!new), E(!new)>(check: T -> Result<T, E>, related: (T, T) -> bool, s: seq<T>)
    requires Makes(check, related) && All(check, s).Ok?
    ensures Pairwise(related, s, All(check, s).value)
  {
    EachMeaning(check, s, |s|);
  }

  lemma BrandsAsSent(brands: seq<Brand>)
    requires All(CheckedBrand(), brands).Ok?
    ensures Pairwise(BrandAsSent, brands, All(CheckedBrand(), brands).value)
  {
    SectionAsSent(CheckedBrand(), BrandAsSent, brands);
  }

  lemma DeviceSetsAsSent(brandIds: set<int>, sets: seq<DeviceSet>)
    requires All(CheckedDeviceSet(brandIds), sets).Ok?
    ensures Pairwise(DeviceSetAsSent, sets, All(CheckedDeviceSet(brandIds), sets).value)
  {
    forall v {
      AnyDeviceSetAsSent(brandIds, v);
    }
    SectionAsSent(CheckedDeviceSet(brandIds), DeviceSetAsSent, sets);
  }

  lemma AnyDeviceSetAsSent(brandIds: set<int>, v: DeviceSet)
    ensures CheckedDeviceSet(brandIds)(v).Ok? ==> DeviceSetAsSent(v, CheckedDeviceSet(brandIds)(v).value)
  {
    if CheckedDeviceSet(brandIds)(v).Ok? {
      CheckedDeviceSetAsSent(brandIds, v);
    }
  }

  lemma CheckedConnectionAsSent(ids: set<int>, c: Connection)
    ensures CheckedConnection(ids)(c).Ok? ==> ConnectionAsSent(c, CheckedConnection(ids)(c).value)
  {
    NormalizedConnectionAsSent(c);
  }

  lemma PlantsAsSent(plants: seq<Plant>)
    requires All(CheckedPlant(), plants).Ok?
    ensures Pairwise(PlantAsSent, plants, All(CheckedPlant(), plants).value)
  {
    SectionAsSent(CheckedPlant(), PlantAsSent, plants);
  }

  lemma ConnectionsAsSent(ids: set<int>, connections: seq<Connection>)
    requires All(CheckedConnection(ids), connections).Ok?
    ensures Pairwise(ConnectionAsSent, connections, All(CheckedConnection(ids), connections).value)
  {
    forall c {
      CheckedConnectionAsSent(ids, c);
    }
    SectionAsSent(CheckedConnection(ids), ConnectionAsSent, connections);
  }

  /** What is accepted is what was sent, tidied and filled in field by field, one for one and in order. */
  lemma AcceptedIsAsSent(sent: Snapshot)
    requires Normalize(sent).Ok?
    ensures AsSent(sent, Normalize(sent).value)
  {
    BrandsAsSent(sent.brands);
    DeviceSetsAsSent(BrandIds(sent.brands), sent.deviceSets);
    PlantsAsSent(sent.plants);
    ConnectionsAsSent(DeviceSetIds(sent.deviceSets), sent.connections);
  }

  // ----- what it is worth to a poll -----

  lemma TypeIsOne(dataType: string, t: Decoding.DataType, u: Decoding.DataType)
    requires dataType in Decoding.TypeNames(t) && dataType in Decoding.TypeNames(u)
    ensures t == u
  {
    Decoding.NamedIsLookedUp(dataType, t);
    Decoding.NamedIsLookedUp(dataType, u);
  }

  /** A length that was left out, or is the type's or more, is enough. */
  lemma LengthIsEnough(sent: Address, a: Address, t: Decoding.DataType)
    requires LengthAsSent(sent, a) && a.dataType in Decoding.TypeNames(t)
    requires sent.length == 0 || Decoding.Width(t) <= sent.length
    ensures Decoding.Width(t) <= a.length
  {
    if sent.length == 0 {
      var u :| a.dataType in Decoding.TypeNames(u) && a.length == Decoding.Width(u);
      TypeIsOne(a.dataType, t, u);
    }
  }

  /** An address that was sent without a length, as the platform sends them all, always decodes: its own
      words stand for a number or for one of the patterns that mean "no value". */
  lemma OmittedLengthDecodes(
    zeroBased: bool, deviceSetId: int, sent: Address, a: Address, memory: Refinement.Memory, o: Polling.Orders,
    functionCode: int, x: int)
    requires AddressAsSent(zeroBased, deviceSetId, sent, a) && sent.length == 0
    ensures
      var outcome := Refinement.OwnValue(memory, o)(Holding.EntryAt(a, functionCode, x));
      outcome.Ok? || outcome.error == Polling.SentinelSkipped
  {
    var t :| a.dataType in Decoding.TypeNames(t) && a.length == Decoding.Width(t);
    Holding.TagOfName(a.dataType, t);
    Decodes(memory, o, Holding.EntryAt(a, functionCode, x), t);
  }

  lemma Decodes(memory: Refinement.Memory, o: Polling.Orders, e: Planning.Entry, t: Decoding.DataType)
    requires e.definition.dataType == Decoding.Canonical(t) && e.definition.length >= Decoding.Width(t)
    ensures
      var outcome := Refinement.OwnValue(memory, o)(e);
      outcome.Ok? || outcome.error == Polling.SentinelSkipped
  {
  }

  // ----- why a configuration is refused -----

  /** The orders there are. */
  lemma OrdersAre(order: string)
    ensures IsByteOrder(order) <==> order in {"BIG_ENDIAN", "LITTLE_ENDIAN"}
    ensures IsWordOrder(order) <==> order in {"HIGH_LOW", "LOW_HIGH"}
  {
  }

  /** The faults of an address, in the order in which they are looked for; resolving it came to this. */
  predicate IsFaulty(a: Address, resolved: Result<ResolvedAddress, AddressError>, fault: AddressFault) {
    match fault
    case BadFunctionCode => a.functionCode !in {3, 4}
    case BadRegister => !(0 <= a.register <= 65535)
    case DescriptionOrTypeMissing => a.description == "" || a.dataType == ""
    case UnsupportedDataType => Decoding.RegisterCount(a.dataType) == 0
    case BadLength => !(1 <= a.length <= 4)
    case BadWordOrder => a.wordOrder != "" && !IsWordOrder(a.wordOrder)
    case Unresolvable(error) => resolved == Err(error)
  }

  function Rank(fault: AddressFault): nat {
    match fault
    case BadFunctionCode => 0
    case BadRegister => 1
    case DescriptionOrTypeMissing => 2
    case UnsupportedDataType => 3
    case BadLength => 4
    case BadWordOrder => 5
    case Unresolvable(_) => 6
  }

  /** An address is refused for the first fault it has, and accepted if it has none. */
  lemma RefusedForFirstFault(mode: AddressMode, a: Address)
    ensures
      var resolved := ResolveParsed(Ok(mode), DefinitionOf(a));
      match AddressFaultOf(Ok(mode), a)
      case Some(fault) => IsFaulty(a, resolved, fault) && forall other | IsFaulty(a, resolved, other) :: Rank(fault) <= Rank(other)
      case None => forall other :: !IsFaulty(a, resolved, other)
  {
  }

  /** The faults of a normalised device set, in the order in which they are looked for; checking its
      addresses came to this. */
  predicate SetIsFaulty(brandIds: set<int>, v: DeviceSet, addresses: Result<seq<Address>, ConfigError>, e: ConfigError) {
    match e
    case UnknownBrand(brandId) => brandId == v.brandId && v.brandId !in brandIds
    case TypeOrModelMissing => Text.TrimSpace(v.devType) == "" || Text.TrimSpace(v.devModel) == ""
    case BadOrdersOrBlockSize =>
      !IsByteOrder(v.byteOrder) || !IsWordOrder(v.wordOrder) || !(1 <= v.maxBlockSize <= 125)
    case NoAddresses => v.addresses == []
    case BadAddress(_) => addresses == Err(e)
    case _ => false
  }

  function SetRank(e: ConfigError): nat {
    match e
    case UnknownBrand(_) => 0
    case TypeOrModelMissing => 1
    case BadOrdersOrBlockSize => 2
    case NoAddresses => 3
    case _ => 4
  }

  lemma FaultOfSet(brandIds: set<int>, v: DeviceSet, addresses: Result<seq<Address>, ConfigError>)
    ensures
      match DeviceSetFault(brandIds, v)
      case Some(e) =>
        && SetIsFaulty(brandIds, v, addresses, e) && SetRank(e) < 4
        && forall other | SetIsFaulty(brandIds, v, addresses, other) :: SetRank(e) <= SetRank(other)
      case None => forall other | SetIsFaulty(brandIds, v, addresses, other) :: other.BadAddress?
  {
  }

  lemma AddressFails(zeroBased: bool, mode: Result<AddressMode, AddressError>, deviceSetId: int, a: Address)
    ensures
      var r := CheckedAddress(zeroBased, mode, deviceSetId)(a);
      r.Err? ==> r.error.BadAddress?
  {
    ValidationFails(mode, deviceSetId, NormalizeAddress(zeroBased, a));
  }

  lemma ValidationFails(mode: Result<AddressMode, AddressError>, deviceSetId: int, a: Address)
    ensures ValidAddress(mode, deviceSetId, a).Err? ==> ValidAddress(mode, deviceSetId, a).error.BadAddress?
  {
  }

  lemma AddressesFail(v: DeviceSet)
    ensures CheckedAddresses(v).Err? ==> CheckedAddresses(v).error.BadAddress?
  {
    var check := CheckedAddress(v.addressMode == "ZERO_BASED", ParseMode(v.addressMode), v.deviceSetId);
    EachMeaning(check, v.addresses, |v.addresses|);
    if CheckedAddresses(v).Err? {
      var k :| 0 <= k < |v.addresses| && check(v.addresses[k]) == Err(CheckedAddresses(v).error);
      AddressFails(v.addressMode == "ZERO_BASED", ParseMode(v.addressMode), v.deviceSetId, v.addresses[k]);
    }
  }

  /** A device set is refused for the first fault that it has once it is normalised, its addresses' coming
      last, and accepted if it has none. */
  lemma SetRefusedForFirstFault(brandIds: set<int>, v: DeviceSet)
    ensures
      match CheckedFields(brandIds, v)
      case Err(e) =>
        && SetIsFaulty(brandIds, v, CheckedAddresses(v), e)
        && forall other | SetIsFaulty(brandIds, v, CheckedAddresses(v), other) :: SetRank(e) <= SetRank(other)
      case Ok(_) => forall other :: !SetIsFaulty(brandIds, v, CheckedAddresses(v), other)
  {
    AddressesFail(v);
    FieldsRefused(brandIds, v, CheckedAddresses(v), CheckedFields(brandIds, v));
  }

  lemma FieldsRefused(brandIds: set<int>, v: DeviceSet, addresses: Result<seq<Address>, ConfigError>, r: Result<DeviceSet, ConfigError>)
    requires addresses.Err? ==> addresses.error.BadAddress?
    requires match DeviceSetFault(brandIds, v)
             case Some(e) => r == Err(e)
             case None => if addresses.Err? then r == Err(addresses.error) else r.Ok?
    ensures
      match r
      case Err(e) => SetIsFaulty(brandIds, v, addresses, e) && forall other | SetIsFaulty(brandIds, v, addresses, other) :: SetRank(e) <= SetRank(other)
      case Ok(_) => forall other :: !SetIsFaulty(brandIds, v, addresses, other)
  {
    FaultOfSet(brandIds, v, addresses);
  }

  /** Why the smaller parts are refused. */
  lemma BrandRefusedFor(b: Brand)
    ensures CheckedBrand()(b).Err? <==> Text.TrimSpace(b.name) == ""
    ensures CheckedBrand()(b).Err? ==> CheckedBrand()(b) == Err(BrandNameMissing)
  {
  }

  lemma PlantRefusedFor(p: Plant)
    ensures CheckedPlant()(p).Err? <==> Text.TrimSpace(p.code) == "" || Text.TrimSpace(p.name) == ""
    ensures CheckedPlant()(p).Err? ==> CheckedPlant()(p) == Err(PlantFieldsMissing)
  {
    Text.UpperTrimByLetter(p.code);
  }

  lemma ConnectionRefusedFor(ids: set<int>, c: Connection)
    ensures CheckedConnection(ids)(c) == Err(UnknownDeviceSet(c.deviceSetId)) <==> c.deviceSetId !in ids
    ensures CheckedConnection(ids)(c) == Err(BadConnection) <==>
            && c.deviceSetId in ids
            && (Text.TrimSpace(c.name) == "" || Text.TrimSpace(c.host) == "" || !(1 <= c.port <= 65535))
  {
    NamesOfConnection(c);
    var v := NormalizeConnection(c);
    CheckedComesTo(ids, c);
    RefusedFor(ids, c, CheckedConnection(ids)(c), v, Text.TrimSpace(c.name) == "", Text.TrimSpace(c.host) == "");
  }

  lemma CheckedComesTo(ids: set<int>, c: Connection)
    ensures
      var v := NormalizeConnection(c);
      CheckedConnection(ids)(c) ==
      if c.deviceSetId !in ids then Err(UnknownDeviceSet(c.deviceSetId))
      else if Text.Blank(v.name) || Text.Blank(v.host) || v.port < 1 || v.port > 65535 then Err(BadConnection)
      else Ok(v)
  {
  }

  lemma RefusedFor(ids: set<int>, c: Connection, r: Result<Connection, ConfigError>, v: Connection, noName: bool, noHost: bool)
    requires r == if c.deviceSetId !in ids then Err(UnknownDeviceSet(c.deviceSetId))
                  else if Text.Blank(v.name) || Text.Blank(v.host) || v.port < 1 || v.port > 65535 then Err(BadConnection)
                  else Ok(v)
    requires Text.Blank(v.name) == noName && Text.Blank(v.host) == noHost && v.port == c.port
    ensures r == Err(UnknownDeviceSet(c.deviceSetId)) <==> c.deviceSetId !in ids
    ensures r == Err(BadConnection) <==> c.deviceSetId in ids && (noName || noHost || !(1 <= c.port <= 65535))
  {
  }

  lemma NamesOfConnection(c: Connection)
    ensures
      var v := NormalizeConnection(c);
      && (Text.Blank(v.name) <==> Text.TrimSpace(c.name) == "") && (Text.Blank(v.host) <==> Text.TrimSpace(c.host) == "")
      && v.port == c.port
  {
  }
}
