/**
 * The record shape shared by every path of the service (Models/PlcData.cs),
 * the row written to the error log, and the temperature range check that
 * both the Modbus path and the ingestion pipeline apply.
 */
module Readings {

  /** A C# `int`. Device ids are passed through, never computed on. */
  type Int32 = x: int | -0x8000_0000 <= x < 0x8000_0000

  /** A point in time (a `DateTime`); the clock is an input of the model. */
  type Timestamp = int

  /** One canonical reading: DeviceId, Temperature, Pressure, Timestamp. */
  datatype PlcData = PlcData(deviceId: Int32, temperature: real, pressure: real, timestamp: Timestamp)

  /** One row of the ErrorLog table: ErrorMessage, DeviceId, Timestamp. */
  datatype ErrorRecord = ErrorRecord(message: string, deviceId: Int32, timestamp: Timestamp)

  const MinTemperature: real := -50.0
  const MaxTemperature: real := 200.0

  /** The closed band [-50, 200]: both end points belong to it. */
  predicate InSafetyBand(t: real) {
    MinTemperature <= t <= MaxTemperature
  }

  /**
   * The range check as the service writes it: a reading is refused when its
   * temperature is below -50 or above 200. Only the temperature is looked at.
   */
  function IsValidReading(data: PlcData): (ok: bool)
    ensures ok <==> InSafetyBand(data.temperature)
  {
    !(data.temperature < MinTemperature || data.temperature > MaxTemperature)
  }

  /** The strict comparisons accept the two boundary temperatures themselves. */
  lemma BoundaryValuesAccepted(deviceId: Int32, pressure: real, timestamp: Timestamp)
    ensures IsValidReading(PlcData(deviceId, -50.0, pressure, timestamp))
    ensures IsValidReading(PlcData(deviceId, 200.0, pressure, timestamp))
    ensures !IsValidReading(PlcData(deviceId, 200.5, pressure, timestamp))
    ensures !IsValidReading(PlcData(deviceId, -50.5, pressure, timestamp))
  {
  }

  /** The pressure (and the device id and timestamp) never influence the decision. */
  lemma OnlyTemperatureChecked(data: PlcData, other: PlcData)
    requires data.temperature == other.temperature
    ensures IsValidReading(data) == IsValidReading(other)
  {
  }
}
