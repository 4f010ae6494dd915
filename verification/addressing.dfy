/** internal/profile/address.go: from a configured register to a Modbus wire address. */
module Addressing {
  import opened Results
  import opened Domain
  import Text

  const MAX_QUANTITY := 125

  datatype AddressError =
    | UnsupportedMode(name: string)
    | InvalidLength(key: string, length: int)
    | NotFullNotation(register: int)
    | UnsupportedFunctionCode(key: string, functionCode: int)
    | OutOfRange(register: int, mode: AddressMode)

  datatype ResolvedAddress = ResolvedAddress(functionCode: int, start: int, quantity: int)

  datatype AddressMode = ZeroBased | OneBased | FullNotation | VendorRaw | Sma | Register30001 | Register40001

  function ModeName(mode: AddressMode): string {
    match mode
    case ZeroBased => "ZERO_BASED"
    case OneBased => "ONE_BASED"
    case FullNotation => "FULL_NOTATION"
    case VendorRaw => "VENDOR_RAW"
    case Sma => "SMA"
    case Register30001 => "REGISTER_30001"
    case Register40001 => "REGISTER_40001"
  }

  /** Go's conversion to uint16. */
  function ToUint16(n: int): (r: int)
    ensures 0 <= r < 0x1_0000
    ensures 0 <= n < 0x1_0000 ==> r == n
  {
    n % 0x1_0000
  }

  /** The names a mode goes by, trimmed and upper-cased. */
  function LookUpMode(name: string): Option<AddressMode> {
    if name in {"", "ZERO_BASED", "OFFSET_0", "ZERO_BASED_OFFSET"} then Some(ZeroBased)
    else if name in {"ONE_BASED", "OFFSET_1", "ONE_BASED_OFFSET"} then Some(OneBased)
    else if name in {"FULL_NOTATION", "FULL", "MODBUS_NOTATION"} then Some(FullNotation)
    else if name in {"VENDOR_RAW", "RAW", "DIRECT", "MODBUS_RAW"} then Some(VendorRaw)
    else if name == "SMA" then Some(Sma)
    else if name in {"REGISTER_30001", "INPUT_30001", "INPUT_REGISTER_30001"} then Some(Register30001)
    else if name in {"REGISTER_40001", "HOLDING_40001", "HOLDING_REGISTER_40001"} then Some(Register40001)
    else None
  }

  function ParseMode(addressMode: string): Result<AddressMode, AddressError> {
    match LookUpMode(Text.UpperTrim(addressMode))
    case Some(mode) => Ok(mode)
    case None => Err(UnsupportedMode(addressMode))
  }

  lemma NamesItself(mode: AddressMode)
    ensures LookUpMode(ModeName(mode)) == Some(mode)
  {
    match mode
    case ZeroBased => assert LookUpMode("ZERO_BASED") == Some(ZeroBased);
    case OneBased => assert LookUpMode("ONE_BASED") == Some(OneBased);
    case FullNotation => assert LookUpMode("FULL_NOTATION") == Some(FullNotation);
    case VendorRaw => assert LookUpMode("VENDOR_RAW") == Some(VendorRaw);
    case Sma => assert LookUpMode("SMA") == Some(Sma);
    case Register30001 => assert LookUpMode("REGISTER_30001") == Some(Register30001);
    case Register40001 => assert LookUpMode("REGISTER_40001") == Some(Register40001);
  }

  /** Canonical names are canonical: parsing the name of a mode gives the mode back. */
  lemma ModeNameRoundTrip(mode: AddressMode)
    ensures Text.Trimmed(ModeName(mode)) && Text.UpperCase(ModeName(mode)) && ModeName(mode) != ""
    ensures ParseMode(ModeName(mode)) == Ok(mode)
  {
    var name := ModeName(mode);
    assert Text.Trimmed(name) && Text.UpperCase(name);
    NamesItself(mode);
  }

  /** A request a Modbus server can answer: sections 6.3 and 6.4 of MODBUS Application
      Protocol V1.1b3 allow 1..125 registers, and the 16-bit address space ends at 65535. */
  predicate LegalRequest(functionCode: int, start: int, quantity: int) {
    && functionCode in {3, 4}
    && 1 <= quantity <= MAX_QUANTITY
    && 0 <= start && start + quantity <= 0x1_0000
  }

  /** What a mode promises about a configured register: the function code it selects and the
      number it subtracts. */
  function SelectedFunction(mode: AddressMode, d: RegisterDefinition): int {
    if mode.FullNotation? then (if d.registerAddress < 40000 then 3 else 4) else d.functionCode
  }

  function WireStart(mode: AddressMode, register: int): int {
    match mode
    case ZeroBased | VendorRaw | Sma => register
    case OneBased => register - 1
    case Register30001 => register - 30001
    case Register40001 => register - 40001
    case FullNotation => register % 10000
  }

  function ResolveModbusAddress(addressMode: string, d: RegisterDefinition): (r: Result<ResolvedAddress, AddressError>)
    ensures r.Ok? ==> LegalRequest(r.value.functionCode, r.value.start, r.value.quantity)
    ensures r.Ok? ==> r.value.quantity == d.length
  {
    ResolveParsed(ParseMode(addressMode), d)
  }

  function ResolveParsed(mode: Result<AddressMode, AddressError>, d: RegisterDefinition): (r: Result<ResolvedAddress, AddressError>)
    ensures r.Ok? ==> LegalRequest(r.value.functionCode, r.value.start, r.value.quantity)
    ensures r.Ok? ==> r.value.quantity == d.length
  {
    var m :- mode;
    Resolve(m, d)
  }

  /** No conversion wraps: the wire address is the promised integer, and resolution fails
      exactly when that request would not be legal. */
  function Resolve(mode: AddressMode, d: RegisterDefinition): (r: Result<ResolvedAddress, AddressError>)
    ensures
      var fc, start := SelectedFunction(mode, d), WireStart(mode, d.registerAddress);
      if LegalRequest(fc, start, d.length) && (mode.FullNotation? ==> 30000 <= d.registerAddress < 50000)
      then r == Ok(ResolvedAddress(fc, start, d.length))
      else r.Err?
  {
    var quantity := d.length;
    if quantity < 1 || quantity > MAX_QUANTITY then Err(InvalidLength(d.key, quantity))
    else
      var raw := d.registerAddress;
      if mode.FullNotation? && !(30000 <= raw < 50000) then Err(NotFullNotation(raw))
      else
        var fc := if mode.FullNotation? then (if raw < 40000 then 3 else 4) else d.functionCode;
        var start := raw - (match mode
                            case OneBased => 1
                            case FullNotation => if raw < 40000 then 30000 else 40000
                            case Register40001 => 40001
                            case Register30001 => 30001
                            case _ => 0);
        if fc != 3 && fc != 4 then Err(UnsupportedFunctionCode(d.key, fc))
        else if start < 0 || start > 65535 || start + quantity > 65536 then Err(OutOfRange(raw, mode))
        else Ok(ResolvedAddress(fc, ToUint16(start), ToUint16(quantity)))
  }

  /** What is wrong with a register that does not resolve: the first of these that applies. */
  lemma ResolveFailsFor(mode: AddressMode, d: RegisterDefinition)
    ensures
      var r, fc := Resolve(mode, d), SelectedFunction(mode, d);
      var badLength, badNotation := !(1 <= d.length <= 125), mode.FullNotation? && !(30000 <= d.registerAddress < 50000);
      && (r == Err(InvalidLength(d.key, d.length)) <==> badLength)
      && (r == Err(NotFullNotation(d.registerAddress)) <==> !badLength && badNotation)
      && (r == Err(UnsupportedFunctionCode(d.key, fc)) <==> !badLength && !badNotation && fc !in {3, 4})
      && (r == Err(OutOfRange(d.registerAddress, mode)) <==>
            && !badLength && !badNotation && fc in {3, 4}
            && !LegalRequest(fc, WireStart(mode, d.registerAddress), d.length))
  {
  }

  // ----- the notations of a register -----

  /** How a notation numbers the registers of a function's table. */
  datatype Notation = FromZero | FromOne | From30001 | From40001 | InFull

  /** The names a notation goes by, trimmed and upper-cased. */
  function Names(notation: Notation): set<string> {
    match notation
    case FromZero => {"", "ZERO_BASED", "OFFSET_0", "ZERO_BASED_OFFSET", "VENDOR_RAW", "RAW", "DIRECT", "MODBUS_RAW", "SMA"}
    case FromOne => {"ONE_BASED", "OFFSET_1", "ONE_BASED_OFFSET"}
    case From30001 => {"REGISTER_30001", "INPUT_30001", "INPUT_REGISTER_30001"}
    case From40001 => {"REGISTER_40001", "HOLDING_40001", "HOLDING_REGISTER_40001"}
    case InFull => {"FULL_NOTATION", "FULL", "MODBUS_NOTATION"}
  }

  /** Register x of the function's table is written as this number under this function code. */
  predicate Numbers(notation: Notation, functionCode: int, x: int, code: int, number: int) {
    match notation
    case FromZero => code == functionCode && number == x
    case FromOne => code == functionCode && number == x + 1
    case From30001 => code == functionCode && number == x + 30001
    case From40001 => code == functionCode && number == x + 40001
    case InFull =>
      0 <= x < 10000 && ((functionCode == 3 && number == 30000 + x) || (functionCode == 4 && number == 40000 + x))
  }

  /** Register x of the function's table, as a configuration writes it; names may be in any case. */
  ghost predicate WrittenAs(name: string, functionCode: int, x: int, d: RegisterDefinition) {
    exists notation :: Text.UpperTrim(name) in Names(notation) && Numbers(notation, functionCode, x, d.functionCode, d.registerAddress)
  }

  /** The modes of a notation. */
  predicate Reads(mode: AddressMode, notation: Notation) {
    match notation
    case FromZero => mode in {ZeroBased, VendorRaw, Sma}
    case FromOne => mode == OneBased
    case From30001 => mode == Register30001
    case From40001 => mode == Register40001
    case InFull => mode == FullNotation
  }

  lemma NamedMode(name: string, notation: Notation)
    requires name in Names(notation)
    ensures LookUpMode(name).Some? && Reads(LookUpMode(name).value, notation)
  {
    match notation
    case FromZero =>
    case FromOne => assert name[0] == 'O';
    case From30001 => assert name[|name| - 5] == '3';
    case From40001 => assert name[|name| - 5] == '4';
    case InFull => assert name[0] == 'F' || name[7] == 'N';
  }

  lemma ModeIsNamed(name: string) returns (notation: Notation)
    requires LookUpMode(name).Some?
    ensures name in Names(notation) && Reads(LookUpMode(name).value, notation)
  {
    match LookUpMode(name).value
    case ZeroBased | VendorRaw | Sma => notation := FromZero;
    case OneBased => notation := FromOne;
    case Register30001 => notation := From30001;
    case Register40001 => notation := From40001;
    case FullNotation => notation := InFull;
  }

  lemma ReadAsNumbered(mode: AddressMode, notation: Notation, d: RegisterDefinition, functionCode: int, x: int)
    requires Reads(mode, notation)
    ensures Resolve(mode, d) == Ok(ResolvedAddress(functionCode, x, d.length)) <==>
            Numbers(notation, functionCode, x, d.functionCode, d.registerAddress) && LegalRequest(functionCode, x, d.length)
  {
  }

  /** All notations agree: a register resolves to a request exactly when that is the register its
      notation writes, and the request is legal. */
  lemma NotationsAgree(name: string, d: RegisterDefinition, functionCode: int, x: int)
    ensures ResolveModbusAddress(name, d) == Ok(ResolvedAddress(functionCode, x, d.length)) <==>
            WrittenAs(name, functionCode, x, d) && LegalRequest(functionCode, x, d.length)
  {
    var mode := LookUpMode(Text.UpperTrim(name));
    forall notation | Text.UpperTrim(name) in Names(notation)
      ensures mode.Some? && Reads(mode.value, notation)
    {
      NamedMode(Text.UpperTrim(name), notation);
    }
    if mode.Some? {
      var notation := ModeIsNamed(Text.UpperTrim(name));
      ReadAsNumbered(mode.value, notation, d, functionCode, x);
    }
  }
}
