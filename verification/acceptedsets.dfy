/** Small device sets that the configuration gate accepts, to show what it lets through. */
module AcceptedSets {
  import opened Results
  import opened Domain
  import opened Addressing
  import opened Decoding
  import opened Planning
  import opened Polling
  import Accepting
  import Normalizing
  import Outbox
  import Text

  /** Register 100 under a function code, with a type of its own natural length. */
  function AddressOf(id: int, functionCode: int, key: string, t: DataType): Address {
    Address(id, 1, functionCode, 100, "x", key, "x", 1.0, TypeName(t), Width(t), "", "", "", "", true, true)
  }

  function SetOf(maxBlockSize: int, a: Address, b: Address): DeviceSet {
    DeviceSet(1, 1, 1, "x", "x", [a.addressId, b.addressId], ModeName(ZeroBased), "BIG_ENDIAN", "HIGH_LOW", maxBlockSize, [a, b])
  }

  lemma AddressIsCanonical(id: int, functionCode: int, key: string, t: DataType)
    requires functionCode in {3, 4} && !Text.Blank(key)
    ensures Normalizing.CanonicalAddress(ZeroBased, 1, AddressOf(id, functionCode, key, t))
  {
    TypeNameRoundTrip(t);
  }

  lemma SetIsTidy(maxBlockSize: int, a: Address, b: Address)
    requires 1 <= maxBlockSize <= 125
    ensures Normalizing.TidyDeviceSet(SetOf(maxBlockSize, a, b))
    ensures ParseMode(SetOf(maxBlockSize, a, b).addressMode) == Ok(ZeroBased)
  {
    ModeNameRoundTrip(ZeroBased);
  }

  lemma TwoAddressIds(a: Address, b: Address)
    ensures Normalizing.AddressIds([a, b]) == [a.addressId, b.addressId]
  {
  }

  lemma SetIsCanonical(maxBlockSize: int, a: Address, b: Address)
    requires 1 <= maxBlockSize <= 125
    requires Normalizing.CanonicalAddress(ZeroBased, 1, a) && Normalizing.CanonicalAddress(ZeroBased, 1, b)
    ensures Normalizing.CanonicalDeviceSet({1}, SetOf(maxBlockSize, a, b))
  {
    var v := SetOf(maxBlockSize, a, b);
    SetIsTidy(maxBlockSize, a, b);
    TwoAddressIds(a, b);
    forall i | 0 <= i < |v.addresses|
      ensures Normalizing.CanonicalAddress(ZeroBased, 1, v.addresses[i])
    {
      assert i == 0 || i == 1;
    }
  }

  lemma SetIsAccepted(maxBlockSize: int, a: Address, b: Address)
    requires 1 <= maxBlockSize <= 125
    requires Normalizing.CanonicalAddress(ZeroBased, 1, a) && Normalizing.CanonicalAddress(ZeroBased, 1, b)
    ensures Normalizing.CheckedDeviceSet({1})(SetOf(maxBlockSize, a, b)) == Ok(SetOf(maxBlockSize, a, b))
  {
    SetIsCanonical(maxBlockSize, a, b);
    Normalizing.CanonicalDeviceSetIsFixed({1}, SetOf(maxBlockSize, a, b));
  }

  // ----- what is planned for them -----

  function EntryOf(a: Address): Entry {
    Entry(Definition(a), 100)
  }

  lemma ZeroBasedResolves(d: RegisterDefinition)
    requires LegalRequest(d.functionCode, d.registerAddress, d.length)
    ensures ResolveEntry(Ok(ZeroBased), 0, d) == Ok(Entry(d, d.registerAddress))
  {
  }

  lemma AddressResolves(id: int, functionCode: int, key: string, t: DataType)
    requires functionCode in {3, 4}
    ensures
      var a := AddressOf(id, functionCode, key, t);
      && ResolveEntry(Ok(ZeroBased), 0, Definition(a)) == Ok(EntryOf(a))
      && Definition(a).dataType == Canonical(t)
  {
    TypeNameRoundTrip(t);
    ZeroBasedResolves(Definition(AddressOf(id, functionCode, key, t)));
  }

  lemma BothCollected(mode: Result<AddressMode, AddressError>, ds: seq<RegisterDefinition>, a: Entry, b: Entry)
    requires |ds| == 2 && ds[0].enabled && ds[1].enabled
    requires ResolveEntry(mode, 0, ds[0]) == Ok(a) && ResolveEntry(mode, 0, ds[1]) == Ok(b)
    ensures Collect(mode, 0, ds) == Ok([a, b])
  {
    assert CollectTo(mode, 0, ds, 0) == Ok([]);
    assert [] + [a] == [a] && [a] + [b] == [a, b];
    assert CollectTo(mode, 0, ds, 1) == Ok([a]);
  }

  lemma SetEntries(maxBlockSize: int, a: Address, b: Address)
    requires 1 <= maxBlockSize <= 125
    requires Normalizing.CanonicalAddress(ZeroBased, 1, a) && Normalizing.CanonicalAddress(ZeroBased, 1, b)
    requires ResolveEntry(Ok(ZeroBased), 0, Definition(a)) == Ok(EntryOf(a)) && a.enabled
    requires ResolveEntry(Ok(ZeroBased), 0, Definition(b)) == Ok(EntryOf(b)) && b.enabled
    ensures
      var p := ProfileOf(SetOf(maxBlockSize, a, b));
      Entries(p) == Ok([EntryOf(a), EntryOf(b)]) && ClampLimit(p.maxBlockSize) == maxBlockSize
  {
    SetIsCanonical(maxBlockSize, a, b);
    Accepting.ProfileIsAsConfigured({1}, SetOf(maxBlockSize, a, b));
    ModeNameRoundTrip(ZeroBased);
    BothCollected(Ok(ZeroBased), Definitions([a, b]), EntryOf(a), EntryOf(b));
  }

  // ----- inputs that the gate lets through -----

  /** A snapshot with one brand. */
  function BrandSnapshot(id: int): Snapshot {
    Snapshot(1, [Brand(id, "x", "")], [], [], [])
  }

  /** A brand may have any id at all, and lifts the id counter over it. */
  lemma AnyBrandIdIsAccepted(id: int, c: Outbox.Configuration)
    ensures Normalizing.Normalize(BrandSnapshot(id)) == Ok(BrandSnapshot(id))
    ensures Outbox.ConfiguredIds(Outbox.Applied(c, BrandSnapshot(id))) == [id]
  {
    assert Normalizing.CanonicalBrand(Brand(id, "x", ""));
    Normalizing.CanonicalSnapshotIsFixed(BrandSnapshot(id));
  }

  /** A register under an alias that swaps its words. */
  const SWAPPED := AddressOf(1, 3, "x", U32).(dataType := "SW_UINT")

  lemma SwappedAlias()
    ensures ParseType("SW_UINT") == Some(U32) && Text.UpperTrim("SW_UINT") == "SW_UINT"
  {
    assert Text.Trimmed("SW_UINT") && Text.UpperCase("SW_UINT");
  }

  /** It is accepted as it is, although a poll that reads high words first decodes it otherwise than
      the alias says. */
  lemma SwappedAliasIsAccepted()
    ensures Normalizing.CheckedAddress(true, Ok(ZeroBased), 1)(SWAPPED) == Ok(SWAPPED)
    ensures !AliasKeepsMeaning(SWAPPED.dataType, "HIGH_LOW")
  {
    SwappedAlias();
    Normalizing.VisibleName("x");
    assert Normalizing.CanonicalAddress(ZeroBased, 1, SWAPPED);
    Normalizing.CanonicalAddressIsFixed(ZeroBased, 1, SWAPPED);
    AliasMeaning("SW_UINT", "HIGH_LOW");
    assert Text.ToUpper("HIGH_LOW")[0] == 'H' && Text.ToUpper("LOW_HIGH")[0] == 'L';
  }
}
