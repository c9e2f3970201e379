/** The JSON object that the device sends and the collector receives. */
module Payload {

  /** The JSON values that occur in a reading; `Null` is JSON's null. */
  datatype Value = Null | Num(n: real) | Str(s: string)

  /** A decoded JSON object. */
  type Object = map<string, Value>

  const MethaneKey: string := "methane"
  const TemperatureKey: string := "temperature"
  const PhKey: string := "ph"
  const HeatStatusKey: string := "heat_status"
  const TimestampKey: string := "timestamp"

  /** The five keys of a reading, in the order the collector looks them up. */
  const ReadingKeys: seq<string> := [MethaneKey, TemperatureKey, PhKey, HeatStatusKey, TimestampKey]
}
