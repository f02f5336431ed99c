/**
 * The service object: the ingestion pipeline, the two acquisition paths and
 * the analysis dispatch queue. The two database tables the service writes
 * (PlcReadings and ErrorLog) and its in-memory queue are the three sequence
 * fields of the class; the database, the field devices and the clock are
 * inputs of each method.
 */
module Service {

  import opened Wrappers
  import opened Readings
  import opened ModbusDecoder
  import opened OpcUa

  const InvalidReadingMessage := "Invalid temperature reading"
  const ModbusRangeMessage := "Invalid temperature reading from Modbus"
  const ModbusErrorPrefix := "Modbus communication error: "
  const NoEndpointMessage := "No endpoint found with SecurityMode.None and anonymous support."
  const ReadFailedMessage := "Failed to read default node"
  const OpcUaErrorPrefix := "OPC UA communication error: "
  /** The message of the exception raised by indexing past the end of an array. */
  const IndexOutOfRangeMessage := "Index was outside the bounds of the array."

  /** The fixed values the OPC UA path reports instead of anything it read. */
  const PlaceholderTemperature: real := 25.5
  const PlaceholderPressure: real := 1.2

  /** What the database does with one insert into PlcReadings. */
  datatype StoreOutcome = Stored | StoreFailed(message: string)

  /** Client set-up and endpoint discovery: the endpoint list, or the message of the exception raised. */
  datatype Discovery = Discovered(endpoints: seq<EndpointDescription>) | ConnectFailed(message: string)

  /** Opening a session on an endpoint and reading the server's current-time node. */
  datatype SessionRead = ReadDone(status: StatusCode) | SessionFailed(message: string)

  /** The Modbus exchange: the holding registers returned, or the message of the exception raised. */
  datatype ModbusExchange = RegistersRead(registers: seq<Register>) | ModbusFailed(message: string)

  function Min(a: nat, b: nat): nat {
    if a <= b then a else b
  }

  class PlcDataService {
    /** The PlcReadings table, in insertion order. */
    var readings: seq<PlcData>
    /** The ErrorLog table, in insertion order. */
    var errorLog: seq<ErrorRecord>
    /** `_dataQueue`, head first; an entry stands for the reading it serialises. */
    var queue: seq<PlcData>
    /** The number of rows the table held when the service was built. */
    ghost var base: nat
    /** The entries the consumer has taken off the queue, in the order it took them. */
    ghost var dispatched: seq<PlcData>

    /**
     * Every row inserted since construction was queued exactly once, right
     * after its insert, and is either already dispatched or still queued,
     * in insertion order.
     */
    ghost predicate Valid()
      reads this
    {
      base <= |readings| && readings[base..] == dispatched + queue
    }

    /**
     * The state after one call of the ingestion pipeline on `data`, given the
     * state before: a rejection or a failed insert adds one error record and
     * nothing else; a stored reading adds one row and one queue entry.
     */
    ghost predicate Ingested(readings0: seq<PlcData>, errorLog0: seq<ErrorRecord>, queue0: seq<PlcData>,
                             data: PlcData, store: StoreOutcome, now: Timestamp)
      reads this
    {
      if !IsValidReading(data) then
        Logged(readings0, errorLog0, queue0, ErrorRecord(InvalidReadingMessage, data.deviceId, now))
      else if store.StoreFailed? then
        Logged(readings0, errorLog0, queue0, ErrorRecord(store.message, data.deviceId, now))
      else
        readings == readings0 + [data] && queue == queue0 + [data] && errorLog == errorLog0
    }

    /** The state after exactly one error record was written and nothing else changed. */
    ghost predicate Logged(readings0: seq<PlcData>, errorLog0: seq<ErrorRecord>, queue0: seq<PlcData>,
                           record: ErrorRecord)
      reads this
    {
      readings == readings0 && queue == queue0 && errorLog == errorLog0 + [record]
    }

    /** A new service over the tables as they stand, with an empty queue. */
    constructor (table: seq<PlcData>, log: seq<ErrorRecord>)
      ensures Valid()
      ensures readings == table && errorLog == log && queue == [] && dispatched == []
    {
      readings := table;
      errorLog := log;
      queue := [];
      base := |table|;
      dispatched := [];
    }

    /** One row in ErrorLog, stamped with the time of logging, not the reading's. */
    method LogError(message: string, deviceId: Int32, now: Timestamp)
      modifies this`errorLog
      ensures errorLog == old(errorLog) + [ErrorRecord(message, deviceId, now)]
    {
      errorLog := errorLog + [ErrorRecord(message, deviceId, now)];
    }

    /** The INSERT into PlcReadings; a failed insert adds no row. */
    method InsertReading(data: PlcData, store: StoreOutcome) returns (stored: bool)
      modifies this`readings
      ensures stored <==> store.Stored?
      ensures readings == if stored then old(readings) + [data] else old(readings)
    {
      stored := store.Stored?;
      if stored {
        readings := readings + [data];
      }
    }

    /** Appends the reading at the tail of the queue. */
    method QueueForAnalysis(data: PlcData)
      modifies this`queue
      ensures queue == old(queue) + [data]
    {
      queue := queue + [data];
    }

    /**
     * The ingestion pipeline: validate, insert, enqueue, report true. A
     * rejected reading or a failed insert writes one error record and
     * reports false.
     */
    method ProcessPlcData(data: PlcData, store: StoreOutcome, now: Timestamp) returns (ok: bool)
      requires Valid()
      modifies this
      ensures Valid() && base == old(base) && dispatched == old(dispatched)
      ensures ok <==> IsValidReading(data) && store.Stored?
      ensures Ingested(old(readings), old(errorLog), old(queue), data, store, now)
    {
      if !IsValidReading(data) {
        LogError(InvalidReadingMessage, data.deviceId, now);
        return false;
      }
      var stored := InsertReading(data, store);
      if !stored {
        LogError(store.message, data.deviceId, now);
        return false;
      }
      assert readings[base..] == old(readings)[base..] + [data];
      QueueForAnalysis(data);
      ok := true;
    }

    /**
     * One pass of the consumer loop: take the head entry if there is one.
     * An empty queue is left as it is.
     */
    method ProcessQueueStep() returns (message: Option<PlcData>)
      requires Valid()
      modifies this`queue, this`dispatched
      ensures Valid()
      ensures old(queue) == [] ==> message == None && queue == [] && dispatched == old(dispatched)
      ensures old(queue) != [] ==>
        && message == Some(old(queue)[0])
        && queue == old(queue)[1..]
        && dispatched == old(dispatched) + [old(queue)[0]]
    {
      if queue == [] {
        message := None;
      } else {
        message := Some(queue[0]);
        dispatched := dispatched + [queue[0]];
        queue := queue[1..];
      }
    }

    /**
     * The consumer loop run for a given number of passes: the entries come
     * out in the order they were queued, each once, and the queue keeps the
     * rest.
     */
    method ProcessQueue(passes: nat) returns (processed: seq<PlcData>)
      requires Valid()
      modifies this`queue, this`dispatched
      ensures Valid()
      ensures processed + queue == old(queue)
      ensures |processed| == Min(passes, |old(queue)|)
      ensures dispatched == old(dispatched) + processed
    {
      processed := [];
      var i := 0;
      while i < passes
        invariant i <= passes
        invariant Valid()
        invariant processed + queue == old(queue)
        invariant |processed| == Min(i, |old(queue)|)
        invariant dispatched == old(dispatched) + processed
      {
        var message := ProcessQueueStep();
        if message.Some? {
          processed := processed + [message.value];
        }
        i := i + 1;
      }
    }

    /**
     * Acquisition over OPC UA. The session is opened on the endpoint
     * selection chooses; the reading reported carries the placeholder values
     * and is returned whatever the ingestion pipeline makes of it.
     */
    method ReadPlcDataOpcUa(deviceId: Int32, discovery: Discovery, openAndRead: EndpointDescription -> SessionRead,
                            store: StoreOutcome, now: Timestamp)
      returns (result: Option<PlcData>)
      requires Valid()
      modifies this
      ensures Valid() && base == old(base) && dispatched == old(dispatched)
      ensures discovery.ConnectFailed? ==>
        && result == None
        && Logged(old(readings), old(errorLog), old(queue), ErrorRecord(OpcUaErrorPrefix + discovery.message, deviceId, now))
      ensures discovery.Discovered? && SelectEndpoint(discovery.endpoints) == None ==>
        && result == None
        && Logged(old(readings), old(errorLog), old(queue), ErrorRecord(NoEndpointMessage, deviceId, now))
      ensures discovery.Discovered? && SelectEndpoint(discovery.endpoints).Some? ==>
        var session := openAndRead(SelectEndpoint(discovery.endpoints).value);
        && (session.SessionFailed? ==>
              && result == None
              && Logged(old(readings), old(errorLog), old(queue), ErrorRecord(OpcUaErrorPrefix + session.message, deviceId, now)))
        && (session.ReadDone? && IsBad(session.status) ==>
              && result == None
              && Logged(old(readings), old(errorLog), old(queue), ErrorRecord(ReadFailedMessage, deviceId, now)))
        && (session.ReadDone? && !IsBad(session.status) ==>
              && result == Some(PlcData(deviceId, PlaceholderTemperature, PlaceholderPressure, now))
              && Ingested(old(readings), old(errorLog), old(queue), result.value, store, now))
    {
      match discovery {
        case ConnectFailed(message) =>
          LogError(OpcUaErrorPrefix + message, deviceId, now);
          result := None;
        case Discovered(endpoints) =>
          var chosen := SelectEndpoint(endpoints);
          if chosen.None? {
            LogError(NoEndpointMessage, deviceId, now);
            return None;
          }
          match openAndRead(chosen.value) {
            case SessionFailed(message) =>
              LogError(OpcUaErrorPrefix + message, deviceId, now);
              result := None;
            case ReadDone(status) =>
              if IsBad(status) {
                LogError(ReadFailedMessage, deviceId, now);
                return None;
              }
              var data := PlcData(deviceId, PlaceholderTemperature, PlaceholderPressure, now);
              var ignored := ProcessPlcData(data, store, now);
              result := Some(data);
          }
      }
    }

    /**
     * Acquisition over Modbus. `asSingle` stands for the IEEE-754
     * interpretation of a word. An out-of-range temperature is logged and
     * never reaches ingestion; an in-range one passes the pipeline's own
     * check, and the reading is returned whatever ingestion reports.
     */
    method ReadPlcDataModbus(deviceId: Int32, exchange: ModbusExchange, asSingle: Word -> real,
                             store: StoreOutcome, now: Timestamp)
      returns (result: Option<PlcData>)
      requires Valid()
      modifies this
      ensures Valid() && base == old(base) && dispatched == old(dispatched)
      ensures exchange.ModbusFailed? ==>
        && result == None
        && Logged(old(readings), old(errorLog), old(queue), ErrorRecord(ModbusErrorPrefix + exchange.message, deviceId, now))
      ensures exchange.RegistersRead? && |exchange.registers| < RegisterCount ==>
        && result == None
        && Logged(old(readings), old(errorLog), old(queue), ErrorRecord(ModbusErrorPrefix + IndexOutOfRangeMessage, deviceId, now))
      ensures exchange.RegistersRead? && |exchange.registers| >= RegisterCount ==>
        var words := DecodeRegisters(exchange.registers);
        var data := PlcData(deviceId, asSingle(words.temperatureWord), asSingle(words.pressureWord), now);
        && (!InSafetyBand(data.temperature) ==>
              && result == None
              && Logged(old(readings), old(errorLog), old(queue), ErrorRecord(ModbusRangeMessage, deviceId, now)))
        && (InSafetyBand(data.temperature) ==>
              && result == Some(data)
              && (store.Stored? ==>
                    readings == old(readings) + [data] && queue == old(queue) + [data] && errorLog == old(errorLog))
              && (store.StoreFailed? ==>
                    Logged(old(readings), old(errorLog), old(queue), ErrorRecord(store.message, deviceId, now))))
    {
      match exchange {
        case ModbusFailed(message) =>
          LogError(ModbusErrorPrefix + message, deviceId, now);
          result := None;
        case RegistersRead(registers) =>
          if |registers| < RegisterCount {
            LogError(ModbusErrorPrefix + IndexOutOfRangeMessage, deviceId, now);
            return None;
          }
          var words := DecodeRegisters(registers);
          var data := PlcData(deviceId, asSingle(words.temperatureWord), asSingle(words.pressureWord), now);
          if !IsValidReading(data) {
            LogError(ModbusRangeMessage, deviceId, now);
            return None;
          }
          var ignored := ProcessPlcData(data, store, now);
          result := Some(data);
      }
    }
  }
}
