# PlcDataService, modelled in Dafny

This project models the service class of a solar-panel PLC integration. The
class acquires readings from field devices over two protocols. Over Modbus
TCP it reads temperature and pressure from four holding registers. Over OPC
UA it reads the server's CurrentTime node and reports the fixed values 25.5
and 1.2 instead of anything it read (PlcDataService.cs:101, :115-116). It
range-checks each reading, stores accepted readings in the `PlcReadings`
table and pushes them onto an in-memory analysis queue. A background consumer drains that queue.
Every failure becomes one row in the `ErrorLog` table and a `null`/`false`
result.

The model has six modules:

- `Wrappers` (wrappers.dfy): the `Option` type that stands for every `null`
  result of the service.
- `Readings` (readings.dfy): the reading record `PlcData` (DeviceId,
  Temperature, Pressure, Timestamp; the two measurements are reals), the
  error record, and the temperature check shared by both call sites.
- `ModbusDecoder` (modbus.dfy): how four 16-bit registers become two 32-bit
  words. Each register's bytes come low byte first, as `BitConverter` gives
  them on a little-endian host. Registers 0 and 1 are concatenated, and so
  are registers 2 and 3. The result is read as a little-endian word. The
  module also splits a word back into its two registers.
- `OpcUa` (opcua.dfy): the `FirstOrDefault` endpoint selection (no security
  and an anonymous identity token) and `StatusCode.IsBad`.
- `Service` (service.dfy): the class `PlcDataService`. Its three sequence
  fields are the readings table, the error log and the queue. Its methods
  are the ingestion pipeline, the two acquisition paths, one consumer pass
  and the consumer loop. The invariant `Valid()` says that the rows
  inserted since construction are exactly the entries already dispatched
  followed by the entries still queued. From that it follows that an entry
  is queued only after a successful insert, that it is queued once, and
  that the consumer takes entries in insertion order, each exactly once.
  These guarantees hold per service instance, with its calls run one at a
  time and the instance as the only writer of the tables (see "Left out").
- `Scenarios` (scenarios.dfy): clients that use only the contracts. They
  cover the direct-submission examples (25.5 degrees accepted, 205 degrees
  refused), dispatch order across a failed insert, and a server with no
  compatible endpoint.

The range check rejects only `t < -50 || t > 200` (PlcDataService.cs:154,
:175), so both end points are accepted (`Readings.BoundaryValuesAccepted`);
reading the band as the open interval (-50, 200) would be wrong. Pressure is
never checked.

Inputs standing in for the outside world:

- the outcome of the insert into `PlcReadings`: `Stored` or
  `StoreFailed(message)`;
- the discovered endpoint list, or the message of a set-up or discovery
  exception;
- a function from the chosen endpoint to the session's read status, or to
  the message of a session exception;
- the returned holding registers, or the message of a connection
  exception;
- a function `asSingle` that gives the IEEE-754 meaning of a 32-bit word;
- the clock value `now`.

## Model

| member | source | states |
|---|---|---|
| `Readings.IsValidReading` | SolarPanelPlcIntegration/Services/PlcDataService.cs:175 | a reading is accepted exactly when its temperature lies in the closed band [-50, 200] |
| `Readings.BoundaryValuesAccepted` | SolarPanelPlcIntegration/Services/PlcDataService.cs:175 | -50 and 200 themselves are accepted; 200.5 and -50.5 are refused |
| `Readings.OnlyTemperatureChecked` | SolarPanelPlcIntegration/Services/PlcDataService.cs:154 | two readings with the same temperature get the same decision, whatever their pressure, device or time |
| `ModbusDecoder.GetBytes` | SolarPanelPlcIntegration/Services/PlcDataService.cs:143 | a register gives two bytes, low byte first, that rebuild the register |
| `ModbusDecoder.ToUInt32` | SolarPanelPlcIntegration/Services/PlcDataService.cs:143 | little-endian layout: byte k of the word read at `start` is `bytes[start + k]`, for k = 0 to 3 |
| `ModbusDecoder.DecodeWord` | SolarPanelPlcIntegration/Services/PlcDataService.cs:143-144 | the word read from the bytes of `low` then `high` is `low + 65536 * high`, below 2^32 |
| `ModbusDecoder.DecodeRegisters` | SolarPanelPlcIntegration/Services/PlcDataService.cs:141-144 | temperature word is `r0 + 65536 * r1`, pressure word is `r2 + 65536 * r3` |
| `ModbusDecoder.SplitWord` | SolarPanelPlcIntegration/Services/PlcDataService.cs:143-144 | a word's low and high 16-bit halves rebuild the word |
| `ModbusDecoder.SplitDecode` | SolarPanelPlcIntegration/Services/PlcDataService.cs:143-144 | splitting a decoded word recovers the two registers |
| `ModbusDecoder.DecodeSplit` | SolarPanelPlcIntegration/Services/PlcDataService.cs:143-144 | decoding the two halves of a word gives the word |
| `ModbusDecoder.DecodeRegistersInjective` | SolarPanelPlcIntegration/Services/PlcDataService.cs:141-144 | two register blocks that decode to the same words are equal in their four registers |
| `OpcUa.AnyAnonymous` | SolarPanelPlcIntegration/Services/PlcDataService.cs:89 | true exactly when some token policy of the endpoint is Anonymous |
| `OpcUa.Compatible` | SolarPanelPlcIntegration/Services/PlcDataService.cs:89 | an endpoint qualifies exactly when its security mode is None and some token policy is Anonymous |
| `OpcUa.FirstCompatible` | SolarPanelPlcIntegration/Services/PlcDataService.cs:89 | the position returned is compatible (or the end of the list) and every earlier endpoint is incompatible |
| `OpcUa.SelectEndpoint` | SolarPanelPlcIntegration/Services/PlcDataService.cs:89-90 | no endpoint is chosen exactly when none is compatible; otherwise the chosen one is the first compatible endpoint in discovery order |
| `OpcUa.IncompatibleNeverChosen` | SolarPanelPlcIntegration/Services/PlcDataService.cs:89 | a chosen endpoint has security mode None and an Anonymous token |
| `OpcUa.SkipIncompatible` | SolarPanelPlcIntegration/Services/PlcDataService.cs:89 | an incompatible endpoint at the front of the list does not change the choice |
| `OpcUa.Severity` | SolarPanelPlcIntegration/Services/PlcDataService.cs:107 | the severity of a status code is one of its four two-bit values |
| `OpcUa.IsBad` | SolarPanelPlcIntegration/Services/PlcDataService.cs:107 | a status code is bad exactly when its severity is Bad (or the reserved value); Good and Uncertain are not bad |
| `Service.PlcDataService.constructor` | SolarPanelPlcIntegration/Services/PlcDataService.cs:26-35 | the service starts with the tables as given, an empty queue and nothing dispatched |
| `Service.PlcDataService.LogError` | SolarPanelPlcIntegration/Services/PlcDataService.cs:229-243 | appends exactly one record (message, device id, log time) to the error log and changes no other field |
| `Service.PlcDataService.InsertReading` | SolarPanelPlcIntegration/Services/PlcDataService.cs:181-194 | a successful insert appends exactly the row (DeviceId, Temperature, Pressure, Timestamp); a failed one appends nothing |
| `Service.PlcDataService.QueueForAnalysis` | SolarPanelPlcIntegration/Services/PlcDataService.cs:206-211 | appends the reading at the tail of the queue and changes no other field |
| `Service.PlcDataService.ProcessPlcData` | SolarPanelPlcIntegration/Services/PlcDataService.cs:171-204 | true exactly when the reading is in range and stored. A rejection adds one "Invalid temperature reading" error and leaves the table and the queue alone. A failed insert adds one error carrying the failure message. Success adds one row and one queue entry and no error. The invariant is kept |
| `Service.PlcDataService.ProcessQueueStep` | SolarPanelPlcIntegration/Services/PlcDataService.cs:215-226 | on a non-empty queue removes and returns only the head entry; on an empty queue returns nothing and changes nothing |
| `Service.PlcDataService.ProcessQueue` | SolarPanelPlcIntegration/Services/PlcDataService.cs:213-227 | n passes hand out the first min(n, queue length) entries in queue order; the processed entries followed by the remaining queue are the old queue |
| `Service.PlcDataService.ReadPlcDataOpcUa` | SolarPanelPlcIntegration/Services/PlcDataService.cs:37-131 | a set-up or session exception, no compatible endpoint, or a bad read status each give one error and null, with no ingestion. Otherwise the reading (device id, 25.5, 1.2, now) is ingested and returned whatever ingestion reports |
| `Service.PlcDataService.ReadPlcDataModbus` | SolarPanelPlcIntegration/Services/PlcDataService.cs:133-169 | a connection exception or a short register block gives one communication error and null. An out-of-range temperature gives one "Invalid temperature reading from Modbus" error and null, with no ingestion. An in-range reading passes the pipeline's own check and is returned whatever the insert does |
| `Scenarios.DirectSubmissions` | SolarPanelPlcIntegration/Services/PlcDataService.cs:171-204 | (1, 25.5, 1.2, T) is accepted with one row and one queue entry; (2, 205, 1.0, T) is refused with one error for device 2 and no row |
| `Scenarios.DispatchOrder` | SolarPanelPlcIntegration/Services/PlcDataService.cs:192-226 | a failed insert queues nothing; the consumer gets the stored readings in submission order, each once |
| `Scenarios.NoCompatibleEndpoint` | SolarPanelPlcIntegration/Services/PlcDataService.cs:89-95 | a server offering only a secured endpoint and a user-name endpoint yields null, one error and no row |

## Left out

- OPC UA SDK work is not modelled: client configuration, certificate
  loading, `DiscoveryClient`, `Session.Create` and `session.Read`. These
  are library calls. Their outcomes are inputs: the endpoint list, or an
  exception message, and the read status of the chosen endpoint's session.
- SQL plumbing is not modelled: connections and commands. Each table is a
  sequence the methods append to. The readings insert has a success or
  failure input. Error-log writes always succeed, so the failure of a
  logging call inside a catch block is not modelled.
- JSON serialisation of queue entries is not modelled. A queue entry is the
  reading itself.
- Floating point is not modelled: `BitConverter.ToSingle`, the float to
  double widening, and NaN, which passes the `<`/`>` check. The model
  decodes the 32-bit word exactly. The parameter `asSingle` stands for its
  IEEE-754 meaning, and temperatures are reals.
- Host endianness is fixed to little-endian.
- The background consumer's scheduling is not modelled: `Task.Run`, the
  100 ms and 500 ms delays, the endless loop, and `ConcurrentQueue` thread
  safety. `ProcessQueue` runs a given number of passes of the loop
  deterministically.
- Console output is not modelled.
- Several instances and interleaved calls are not modelled. The service is
  registered per request scope (Program.cs:11), so each request gets its own
  instance, its own queue and its own consumer, while all instances write to
  one `PlcReadings` table. Concurrent `ProcessPlcDataAsync` calls can also
  interleave between the insert (:192) and the enqueue (:209). The model runs
  one instance's calls one at a time and treats that instance as the only
  writer of the tables. So FIFO order and exactly-once dispatch are stated per
  instance, in the order of its own calls, and queue order may differ from
  row order in the shared table.
- Exception catch-alls are modelled only as communication-failure inputs
  (a message). Each such failure gives one error record and null. A
  register block shorter than four is the one exception the model derives
  itself: indexing raises it, and the Modbus catch block logs it.
- `DateTime.UtcNow` is not modelled. One clock value per call stamps both
  the reading and every error record written in that call.
- `Service.PlcDataService.ReadPlcDataOpcUa`: within one call, the clock
  reads at the reading's construction and at its error logging are folded
  into a single value.
- `Service.PlcDataService.ReadPlcDataModbus`: NaN temperatures, which the
  source lets through its range check, cannot arise, because `asSingle`
  yields a real.
- The HTTP controller, process bootstrap and configuration are not part of
  this model.
