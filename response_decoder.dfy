/** Pure specification of the backend response decoder of a MyCAT backend
    connection: the reply of a MySQL server to a COM_QUERY (OK, ERR,
    LOCAL INFILE request, or a text result set made of a column-count packet,
    column definitions, EOF, rows, EOF) is classified packet by packet on the
    discriminant byte at offset 4 and turned into callbacks on the bound
    response handler.

    `Step` is the transition of one `handleData` call; `Run` folds it over a
    stream of packets. The class in connection_handler.dfy is proved against
    these functions, and decoder_properties.dfy proves what they promise. */
module ResponseDecoder {

  /** A packet as the framing layer hands it over: 3-byte length, 1-byte
      sequence id, then the payload, whose first byte is the discriminant. */
  type Bytes = seq<bv8>

  datatype Option<+T> = None | Some(value: T)

  // Values of the `resultStatus` field.
  const RESULT_STATUS_INIT: int := 0
  const RESULT_STATUS_HEADER: int := 1
  const RESULT_STATUS_FIELD_EOF: int := 2

  // Discriminants of the MySQL client/server protocol (first payload byte).
  const OK_FIELD_COUNT: bv8 := 0x00
  const ERROR_FIELD_COUNT: bv8 := 0xFF
  const REQUEST_FILE_FIELD_COUNT: bv8 := 0xFB
  const EOF_FIELD_COUNT: bv8 := 0xFE

  /** A bound response handler. Handlers are external; the model keeps an
      identity and whether it is a `LoadDataResponseHandler`. */
  datatype ResponseHandler = ResponseHandler(id: nat, isLoadDataHandler: bool)

  /** What one call does that is visible outside the decoder: a callback on a
      handler, with its arguments, or the forced close of the connection. */
  datatype Event =
    | OkResponse(handler: ResponseHandler, data: Bytes)
    | ErrorResponse(handler: ResponseHandler, data: Bytes)
    | RequestDataResponse(handler: ResponseHandler, data: Bytes)
    | FieldEofResponse(handler: ResponseHandler, header: Bytes, fields: seq<Bytes>, data: Bytes)
    | RowResponse(handler: ResponseHandler, data: Bytes)
    | RowEofResponse(handler: ResponseHandler, data: Bytes)
    | ConnectionErrorResponse(handler: ResponseHandler, cause: string)
    | ClosedNoHandler

  /** How a call ends: normally, or with a `RuntimeException` message. */
  datatype Outcome = Normal | Thrown(message: string)

  /** The decoder's fields plus the closed-or-quit flag of its connection. */
  datatype State = State(
    status: int,
    header: Bytes,
    fields: seq<Bytes>,
    handler: Option<ResponseHandler>,
    closed: bool)

  /** The state after a call, what it emitted, and how it ended. */
  datatype Reaction = Reaction(next: State, emitted: seq<Event>, outcome: Outcome)

  /** `data[4]` exists. */
  predicate IsPacket(data: Bytes) {
    |data| > 4
  }

  predicate AllPackets(ps: seq<Bytes>) {
    forall i :: 0 <= i < |ps| ==> IsPacket(ps[i])
  }

  predicate KnownStatus(status: int) {
    status == RESULT_STATUS_INIT || status == RESULT_STATUS_HEADER || status == RESULT_STATUS_FIELD_EOF
  }

  /** A packet that starts a result set when it arrives in INIT. */
  predicate IsColumnCount(p: Bytes) {
    IsPacket(p) && p[4] != OK_FIELD_COUNT && p[4] != ERROR_FIELD_COUNT && p[4] != REQUEST_FILE_FIELD_COUNT
  }

  /** A column definition (in HEADER) or a row (in FIELD_EOF): neither ERR nor EOF. */
  predicate IsDataPacket(p: Bytes) {
    IsPacket(p) && p[4] != ERROR_FIELD_COUNT && p[4] != EOF_FIELD_COUNT
  }

  predicate AllDataPackets(ps: seq<Bytes>) {
    forall i :: 0 <= i < |ps| ==> IsDataPacket(ps[i])
  }

  predicate IsEof(p: Bytes) {
    IsPacket(p) && p[4] == EOF_FIELD_COUNT
  }

  /** The decoder's invariant: the status is one of the three phases, outside
      INIT the saved header is a column-count packet, and every collected
      field is a column definition. */
  predicate Inv(s: State) {
    && KnownStatus(s.status)
    && (s.status != RESULT_STATUS_INIT ==> IsColumnCount(s.header))
    && AllDataPackets(s.fields)
  }

  /** The state the constructor leaves: INIT, no handler bound. */
  function Initial(closed: bool): State {
    State(RESULT_STATUS_INIT, [], [], None, closed)
  }

  function Quiet(s: State): Reaction {
    Reaction(s, [], Normal)
  }

  /** `closeNoHandler`: close the connection unless it is already closed. */
  function OnNoHandler(s: State): Reaction {
    if s.closed then Quiet(s) else Reaction(s.(closed := true), [ClosedNoHandler], Normal)
  }

  /** `handleOkPacket`: without a handler nothing happens. */
  function OnOk(s: State, data: Bytes): Reaction {
    match s.handler
    case None => Quiet(s)
    case Some(h) => Reaction(s, [OkResponse(h, data)], Normal)
  }

  /** `handleErrorPacket`. */
  function OnError(s: State, data: Bytes): Reaction {
    match s.handler
    case None => OnNoHandler(s)
    case Some(h) => Reaction(s, [ErrorResponse(h, data)], Normal)
  }

  /** `handleRequestPacket`: only a load-data handler can take the request. */
  function OnRequestFile(s: State, data: Bytes): Reaction {
    if s.handler.Some? && s.handler.value.isLoadDataHandler
    then Reaction(s, [RequestDataResponse(s.handler.value, data)], Normal)
    else OnNoHandler(s)
  }

  /** `handleFieldEofPacket`: hands over the saved header and fields. */
  function OnFieldEof(s: State, data: Bytes): Reaction {
    match s.handler
    case None => OnNoHandler(s)
    case Some(h) => Reaction(s, [FieldEofResponse(h, s.header, s.fields, data)], Normal)
  }

  /** `handleRowPacket`. */
  function OnRow(s: State, data: Bytes): Reaction {
    match s.handler
    case None => OnNoHandler(s)
    case Some(h) => Reaction(s, [RowResponse(h, data)], Normal)
  }

  /** `handleRowEofPacket`. */
  function OnRowEof(s: State, data: Bytes): Reaction {
    match s.handler
    case None => OnNoHandler(s)
    case Some(h) => Reaction(s, [RowEofResponse(h, data)], Normal)
  }

  /** One `handleData(data)` call: the three-phase switch on the status and
      on `data[4]`. The status is assigned before the handler is called. */
  function Step(s: State, data: Bytes): (r: Reaction)
    requires IsPacket(data)
    ensures |r.emitted| <= 1
    ensures r.next.handler == s.handler
    ensures r.outcome.Thrown? <==> !KnownStatus(s.status)
    ensures r.outcome.Thrown? ==> r.next == s && r.emitted == []
    ensures r.outcome.Normal? ==> KnownStatus(r.next.status)
    ensures r.next.closed == (s.closed || r.emitted == [ClosedNoHandler])
    ensures r.emitted == [ClosedNoHandler] ==>
              !s.closed && (s.handler.None? || (s.status == RESULT_STATUS_INIT && data[4] == REQUEST_FILE_FIELD_COUNT))
    ensures forall e | e in r.emitted :: e.ClosedNoHandler? || s.handler == Some(e.handler)
  {
    var kind := data[4];
    if s.status == RESULT_STATUS_INIT then
      if kind == OK_FIELD_COUNT then OnOk(s, data)
      else if kind == ERROR_FIELD_COUNT then OnError(s, data)
      else if kind == REQUEST_FILE_FIELD_COUNT then OnRequestFile(s, data)
      else Quiet(s.(status := RESULT_STATUS_HEADER, header := data, fields := []))
    else if s.status == RESULT_STATUS_HEADER then
      if kind == ERROR_FIELD_COUNT then OnError(s.(status := RESULT_STATUS_INIT), data)
      else if kind == EOF_FIELD_COUNT then OnFieldEof(s.(status := RESULT_STATUS_FIELD_EOF), data)
      else Quiet(s.(fields := s.fields + [data]))
    else if s.status == RESULT_STATUS_FIELD_EOF then
      if kind == ERROR_FIELD_COUNT then OnError(s.(status := RESULT_STATUS_INIT), data)
      else if kind == EOF_FIELD_COUNT then OnRowEof(s.(status := RESULT_STATUS_INIT), data)
      else OnRow(s, data)
    else
      Reaction(s, [], Thrown("unknown status!"))
  }

  /** Continues reaction `r` with the packets `ps`, unless `r` threw. */
  function Then(r: Reaction, ps: seq<Bytes>): Reaction
    requires AllPackets(ps)
  {
    if r.outcome.Thrown? then r
    else
      var rest := Run(r.next, ps);
      Reaction(rest.next, r.emitted + rest.emitted, rest.outcome)
  }

  /** `handleData` called once per packet, in arrival order; processing
      stops at the first call that throws. */
  function Run(s: State, ps: seq<Bytes>): (r: Reaction)
    requires AllPackets(ps)
    ensures r.next.handler == s.handler
    ensures |r.emitted| <= |ps|
    ensures r.outcome.Thrown? <==> ps != [] && !KnownStatus(s.status)
    ensures r.outcome.Normal? && ps != [] ==> KnownStatus(r.next.status)
    decreases |ps|
  {
    if ps == [] then Quiet(s)
    else
      var first := Step(s, ps[0]);
      if first.outcome.Thrown? then first
      else
        var rest := Run(first.next, ps[1..]);
        Reaction(rest.next, first.emitted + rest.emitted, rest.outcome)
  }

  /** The row callbacks a handler receives for `rows`, in order. */
  function RowEvents(h: ResponseHandler, rows: seq<Bytes>): seq<Event> {
    if rows == [] then [] else [RowResponse(h, rows[0])] + RowEvents(h, rows[1..])
  }

  /** How many times the connection was force-closed. */
  function CloseCount(events: seq<Event>): nat {
    multiset(events)[ClosedNoHandler]
  }
}
