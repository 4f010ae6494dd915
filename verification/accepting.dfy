/** What acceptance of a configuration is worth to the poller. */
module Accepting {
  import opened Results
  import opened Domain
  import opened Addressing
  import opened Normalizing
  import Decoding
  import Planning
  import Polling
  import Text

  /** The same request, or none from either. */
  predicate SameRequest(a: Result<ResolvedAddress, AddressError>, b: Result<ResolvedAddress, AddressError>) {
    a.Ok? || b.Ok? ==> a == b
  }

  lemma SubtractedIsSelected(d: RegisterDefinition)
    requires 30000 <= d.registerAddress < 50000
    ensures
      var (functionCode, register) := NormalizeRegister(d.functionCode, d.registerAddress);
      SameRequest(Resolve(ZeroBased, d.(functionCode := functionCode, registerAddress := register)), Resolve(FullNotation, d))
  {
  }

  lemma NormalizedDefinition(a: Address)
    ensures
      var (functionCode, register) := NormalizeRegister(a.functionCode, a.register);
      DefinitionOf(NormalizeAddress(true, a)) ==
      DefinitionOf(NormalizeAddress(false, a)).(functionCode := functionCode, registerAddress := register)
  {
  }

  lemma ResolveByName(mode: AddressMode, d: RegisterDefinition)
    ensures ResolveModbusAddress(ModeName(mode), d) == Resolve(mode, d)
  {
    ModeNameRoundTrip(mode);
  }

  /** A 3xxxx or 4xxxx register in a zero-based device set is read at the address and with the
      function code that full notation would give it. */
  lemma ZeroBasedReadsFullNotation(a: Address)
    requires 30000 <= a.register < 50000
    ensures SameRequest(ResolveModbusAddress(ModeName(ZeroBased), DefinitionOf(NormalizeAddress(true, a))),
                        ResolveModbusAddress(ModeName(FullNotation), DefinitionOf(NormalizeAddress(false, a))))
  {
    ResolveByName(ZeroBased, DefinitionOf(NormalizeAddress(true, a)));
    ResolveByName(FullNotation, DefinitionOf(NormalizeAddress(false, a)));
    NormalizedDefinition(a);
    SubtractedIsSelected(DefinitionOf(NormalizeAddress(false, a)));
  }

  lemma ReadableIsResolved(mode: AddressMode, a: Address)
    requires ReadableAddress(mode, a)
    ensures Planning.ResolveEntry(Ok(mode), 0, Polling.Definition(a)).Ok?
  {
  }

  /** The profile of any device set: orders that are blank get the usual ones, and each address becomes a
      register at its own place, of its own type and order, enabled as it is. */
  lemma ProfileIsOfSet(v: DeviceSet)
    ensures
      var p := Polling.ProfileOf(v);
      && p.addressMode == (if Text.TrimSpace(v.addressMode) != "" then Text.TrimSpace(v.addressMode) else "ZERO_BASED")
      && p.byteOrder == (if Text.TrimSpace(v.byteOrder) != "" then Text.TrimSpace(v.byteOrder) else "BIG_ENDIAN")
      && p.wordOrder == (if Text.TrimSpace(v.wordOrder) != "" then Text.TrimSpace(v.wordOrder) else "HIGH_LOW")
      && |p.registers| == |v.addresses| && forall i | 0 <= i < |v.addresses| :: IsRegisterOf(v.addresses[i], p.registers[i])
  {
    assert Text.Trimmed("ZERO_BASED") && Text.Trimmed("BIG_ENDIAN") && Text.Trimmed("HIGH_LOW");
  }

  predicate IsRegisterOf(a: Address, d: RegisterDefinition) {
    && d.registerAddress == a.register && d.functionCode == a.functionCode && d.length == a.length
    && d.dataType == Decoding.Tag(a.dataType) && d.wordOrder == a.wordOrder && d.enabled == a.enabled
    && d.sourceTag == (if Text.TrimSpace(a.sourceTag) != "" then Text.TrimSpace(a.sourceTag) else Text.TrimSpace(a.description))
  }

  /** A canonical device set polls under exactly the mode, orders and block size it names. */
  lemma ProfileIsAsConfigured(brandIds: set<int>, v: DeviceSet)
    requires CanonicalDeviceSet(brandIds, v)
    ensures
      var p := Polling.ProfileOf(v);
      && p.addressMode == v.addressMode && p.byteOrder == v.byteOrder && p.wordOrder == v.wordOrder
      && Planning.ClampLimit(p.maxBlockSize) == v.maxBlockSize
  {
    var mode := ParseMode(v.addressMode).value;
    ModeNameRoundTrip(mode);
    VisibleName(v.addressMode);
    OrdersAreUpper(v.byteOrder, v.wordOrder);
    VisibleName(v.byteOrder);
    VisibleName(v.wordOrder);
  }

  lemma ReadableAreCollected(mode: AddressMode, addresses: seq<Address>)
    requires forall i | 0 <= i < |addresses| :: ReadableAddress(mode, addresses[i])
    ensures Planning.Collect(Ok(mode), 0, Polling.Definitions(addresses)).Ok?
  {
    var ds := Polling.Definitions(addresses);
    forall i | 0 <= i < |ds|
      ensures Planning.ResolveEntry(Ok(mode), 0, ds[i]).Ok?
    {
      ReadableIsResolved(mode, addresses[i]);
    }
    Planning.CollectSucceedsIff(Ok(mode), 0, ds);
  }

  lemma CanonicalIsPlannable(brandIds: set<int>, v: DeviceSet)
    requires CanonicalDeviceSet(brandIds, v)
    ensures Planning.Entries(Polling.ProfileOf(v)).Ok?
  {
    ProfileIsAsConfigured(brandIds, v);
    ReadableAreCollected(ParseMode(v.addressMode).value, v.addresses);
  }

  /** Every accepted configuration can be planned: no poll of one of its device sets is refused
      by the planner. */
  lemma AcceptedIsPlannable(s: Snapshot)
    requires Normalize(s).Ok?
    ensures forall v | v in Normalize(s).value.deviceSets :: Planning.Entries(Polling.ProfileOf(v)).Ok?
  {
    var out := Normalize(s).value;
    AcceptedSnapshotIsCanonical(s);
    forall v | v in out.deviceSets
      ensures Planning.Entries(Polling.ProfileOf(v)).Ok?
    {
      assert IsCanonicalDeviceSet(BrandIds(out.brands))(v);
      CanonicalIsPlannable(BrandIds(out.brands), v);
    }
  }
}
