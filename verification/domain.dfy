/** The configuration entities of the middleware (internal/domain). Descriptive fields that
    no modelled rule reads (scale, unit names, profile names) are omitted. */
module Domain {
  import Decoding

  datatype Brand = Brand(brandId: int, name: string, description: string)

  datatype Address = Address(
    addressId: int, deviceSetId: int, functionCode: int, register: int,
    description: string, canonicalKey: string, sourceTag: string, factor: real,
    dataType: string, length: int, wordOrder: string, sourceUnit: string,
    canonicalUnit: string, remark: string, enabled: bool, enabledSet: bool)

  datatype DeviceSet = DeviceSet(
    deviceSetId: int, brandId: int, devTypeId: int, devType: string, devModel: string,
    addressIdList: seq<int>, addressMode: string, byteOrder: string, wordOrder: string,
    maxBlockSize: int, addresses: seq<Address>)

  datatype Plant = Plant(code: string, name: string)

  datatype Connection = Connection(
    connectionId: int, name: string, host: string, port: int, unitId: int, slaveId: int,
    deviceSetId: int, devDn: string, deviceName: string, plantCode: string,
    plantName: string, enabled: bool)

  datatype Snapshot = Snapshot(
    version: int, brands: seq<Brand>, deviceSets: seq<DeviceSet>,
    plants: seq<Plant>, connections: seq<Connection>)

  /** The data type of a register definition has been normalised. */
  datatype RegisterDefinition = RegisterDefinition(
    key: string, sourceTag: string, dataType: Decoding.TypeTag, registerAddress: int,
    functionCode: int, length: int, wordOrder: string, enabled: bool)

  datatype RegisterProfile = RegisterProfile(
    addressMode: string, byteOrder: string, wordOrder: string, maxBlockSize: int,
    defaultFunctionCode: int, registers: seq<RegisterDefinition>)

  /** The device a reading belongs to; the source joins these fields into one string. */
  datatype Device = Device(gatewayId: string, plantCode: string, devTypeId: int, devDn: string)

  datatype Reading = Reading(device: Device, collectTime: int, values: map<int, Decoding.Value>)

  /** The idempotency key of a reading. */
  datatype ReadingKey = ReadingKey(device: Device, collectTime: int)

  /** A recorded attempt to apply a configuration version. */
  datatype HistoryRow = HistoryRow(version: int, applied: bool, snapshot: Snapshot)
}
