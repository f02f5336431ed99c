/**
 * Clients of the service that use its contracts only: the end-to-end
 * direct submissions (25.5 degrees accepted, 205 degrees refused) and the
 * order in which the consumer sees what was queued.
 */
module Scenarios {

  import opened Wrappers
  import opened Readings
  import opened OpcUa
  import opened Service

  /**
   * A reading at 25.5 degrees is stored and queued; one at 205 degrees is
   * refused with one error record for its device and leaves the table and
   * the queue alone.
   */
  method DirectSubmissions(t: Timestamp, now: Timestamp)
    returns (first: bool, second: bool, rows: seq<PlcData>, errors: seq<ErrorRecord>, queued: seq<PlcData>)
    ensures first && !second
    ensures rows == [PlcData(1, 25.5, 1.2, t)] && queued == rows
    ensures errors == [ErrorRecord(InvalidReadingMessage, 2, now)]
  {
    var service := new PlcDataService([], []);
    first := service.ProcessPlcData(PlcData(1, 25.5, 1.2, t), Stored, now);
    second := service.ProcessPlcData(PlcData(2, 205.0, 1.0, t), Stored, now);
    rows, errors, queued := service.readings, service.errorLog, service.queue;
  }

  /**
   * Two stored readings and one whose insert fails: the consumer receives
   * the two stored ones in the order they were submitted, each once, and
   * further passes over the empty queue yield nothing.
   */
  method DispatchOrder(a: PlcData, b: PlcData, c: PlcData, now: Timestamp)
    returns (processed: seq<PlcData>, rest: seq<PlcData>, errors: seq<ErrorRecord>)
    requires IsValidReading(a) && IsValidReading(b) && IsValidReading(c)
    ensures processed == [a, c] && rest == []
    ensures errors == [ErrorRecord("timeout", b.deviceId, now)]
  {
    var service := new PlcDataService([], []);
    var ok := service.ProcessPlcData(a, Stored, now);
    ok := service.ProcessPlcData(b, StoreFailed("timeout"), now);
    ok := service.ProcessPlcData(c, Stored, now);
    assert service.queue == [a, c];
    processed := service.ProcessQueue(5);
    assert |processed| == 2;
    assert service.queue == [];
    rest, errors := service.queue, service.errorLog;
  }

  /**
   * A server offering only a secured endpoint and an endpoint that needs a
   * user name: nothing is read and one error is logged for the device.
   */
  method NoCompatibleEndpoint(deviceId: Int32, now: Timestamp, openAndRead: EndpointDescription -> SessionRead)
    returns (result: Option<PlcData>, errors: seq<ErrorRecord>, rows: seq<PlcData>)
    ensures result == None && rows == []
    ensures errors == [ErrorRecord(NoEndpointMessage, deviceId, now)]
  {
    var secured := EndpointDescription("opc.tcp://plc:4840", SignAndEncrypt, [UserTokenPolicy(Anonymous)]);
    var named := EndpointDescription("opc.tcp://plc:4840", SecurityNone, [UserTokenPolicy(UserName)]);
    assert !AnyAnonymous(named.userIdentityTokens);
    var service := new PlcDataService([], []);
    result := service.ReadPlcDataOpcUa(deviceId, Discovered([secured, named]), openAndRead, Stored, now);
    errors, rows := service.errorLog, service.readings;
  }
}
