/** The decoder object bound to one backend connection. Each `HandleData`
    call updates the fields in place through the same switch as the Java
    `handleData`, and is proved to perform exactly `Step` of the pure model. */
module BackendNio {
  import opened ResponseDecoder
  import DecoderProperties

  /** The part of the backend connection that the decoder touches: whether
      it is closed (or quit), and closing it. */
  class MySQLConnection {
    var closedOrQuit: bool

    constructor ()
      ensures !closedOrQuit
    {
      closedOrQuit := false;
    }

    method Close()
      modifies this
      ensures closedOrQuit
    {
      closedOrQuit := true;
    }
  }

  class MySQLConnectionHandler {
    const source: MySQLConnection
    var resultStatus: int
    var header: Bytes
    var fields: seq<Bytes>
    var responseHandler: Option<ResponseHandler>
    /** Every callback made and every forced close, in order. */
    ghost var trace: seq<Event>

    /** The decoder's state as the pure model sees it. */
    function Snapshot(): State
      reads this, source
    {
      State(resultStatus, header, fields, responseHandler, source.closedOrQuit)
    }

    ghost predicate Valid()
      reads this, source
    {
      Inv(Snapshot())
    }

    constructor (source: MySQLConnection)
      ensures this.source == source
      ensures Snapshot() == Initial(source.closedOrQuit)
      ensures trace == [] && Valid()
    {
      this.source := source;
      resultStatus := RESULT_STATUS_INIT;
      header := [];
      fields := [];
      responseHandler := None;
      trace := [];
    }

    /** Forwards a transport error to the bound handler; dropped if none. */
    method ConnectionError(cause: string)
      modifies this
      ensures Snapshot() == old(Snapshot())
      ensures trace == old(trace) + match responseHandler
                                    case None => []
                                    case Some(h) => [ConnectionErrorResponse(h, cause)]
    {
      if responseHandler.Some? {
        trace := trace + [ConnectionErrorResponse(responseHandler.value, cause)];
      }
    }

    /** Called when a packet cannot be queued: back to INIT, then throw. */
    method OfferDataError() returns (outcome: Outcome)
      modifies this
      ensures Snapshot() == old(Snapshot()).(status := RESULT_STATUS_INIT)
      ensures trace == old(trace)
      ensures old(Valid()) ==> Valid()
      ensures outcome == Thrown("offer data error!")
    {
      resultStatus := RESULT_STATUS_INIT;
      outcome := Thrown("offer data error!");
    }

    /** Decodes one packet. */
    method HandleData(data: Bytes) returns (outcome: Outcome)
      requires IsPacket(data)
      modifies this, source
      ensures Snapshot() == Step(old(Snapshot()), data).next
      ensures trace == old(trace) + Step(old(Snapshot()), data).emitted
      ensures outcome == Step(old(Snapshot()), data).outcome
      ensures old(Valid()) ==> Valid() && outcome == Normal
    {
      ghost var s := Snapshot();
      outcome := Normal;
      var kind := data[4];
      if resultStatus == RESULT_STATUS_INIT {
        if kind == OK_FIELD_COUNT {
          HandleOkPacket(data);
        } else if kind == ERROR_FIELD_COUNT {
          HandleErrorPacket(data);
        } else if kind == REQUEST_FILE_FIELD_COUNT {
          HandleRequestPacket(data);
        } else {
          resultStatus := RESULT_STATUS_HEADER;
          header := data;
          fields := [];
        }
      } else if resultStatus == RESULT_STATUS_HEADER {
        if kind == ERROR_FIELD_COUNT {
          resultStatus := RESULT_STATUS_INIT;
          HandleErrorPacket(data);
        } else if kind == EOF_FIELD_COUNT {
          resultStatus := RESULT_STATUS_FIELD_EOF;
          HandleFieldEofPacket(data);
        } else {
          fields := fields + [data];
        }
      } else if resultStatus == RESULT_STATUS_FIELD_EOF {
        if kind == ERROR_FIELD_COUNT {
          resultStatus := RESULT_STATUS_INIT;
          HandleErrorPacket(data);
        } else if kind == EOF_FIELD_COUNT {
          resultStatus := RESULT_STATUS_INIT;
          HandleRowEofPacket(data);
        } else {
          HandleRowPacket(data);
        }
      } else {
        outcome := Thrown("unknown status!");
      }
      if Inv(s) {
        DecoderProperties.StepPreservesInv(s, data);
      }
    }

    /** Replaces the handler slot; `None` unbinds. */
    method SetResponseHandler(handler: Option<ResponseHandler>)
      modifies this
      ensures Snapshot() == old(Snapshot()).(handler := handler)
      ensures trace == old(trace)
      ensures old(Valid()) ==> Valid()
    {
      responseHandler := handler;
    }

    method HandleOkPacket(data: Bytes)
      modifies this
      ensures Snapshot() == OnOk(old(Snapshot()), data).next
      ensures trace == old(trace) + OnOk(old(Snapshot()), data).emitted
    {
      var respHand := responseHandler;
      if respHand.Some? {
        trace := trace + [OkResponse(respHand.value, data)];
      }
    }

    method HandleErrorPacket(data: Bytes)
      modifies this, source
      ensures Snapshot() == OnError(old(Snapshot()), data).next
      ensures trace == old(trace) + OnError(old(Snapshot()), data).emitted
    {
      var respHand := responseHandler;
      if respHand.Some? {
        trace := trace + [ErrorResponse(respHand.value, data)];
      } else {
        CloseNoHandler();
      }
    }

    method HandleRequestPacket(data: Bytes)
      modifies this, source
      ensures Snapshot() == OnRequestFile(old(Snapshot()), data).next
      ensures trace == old(trace) + OnRequestFile(old(Snapshot()), data).emitted
    {
      var respHand := responseHandler;
      if respHand.Some? && respHand.value.isLoadDataHandler {
        trace := trace + [RequestDataResponse(respHand.value, data)];
      } else {
        CloseNoHandler();
      }
    }

    method HandleFieldEofPacket(data: Bytes)
      modifies this, source
      ensures Snapshot() == OnFieldEof(old(Snapshot()), data).next
      ensures trace == old(trace) + OnFieldEof(old(Snapshot()), data).emitted
    {
      var respHand := responseHandler;
      if respHand.Some? {
        trace := trace + [FieldEofResponse(respHand.value, header, fields, data)];
      } else {
        CloseNoHandler();
      }
    }

    method HandleRowPacket(data: Bytes)
      modifies this, source
      ensures Snapshot() == OnRow(old(Snapshot()), data).next
      ensures trace == old(trace) + OnRow(old(Snapshot()), data).emitted
    {
      var respHand := responseHandler;
      if respHand.Some? {
        trace := trace + [RowResponse(respHand.value, data)];
      } else {
        CloseNoHandler();
      }
    }

    /** Closes the connection unless it is already closed or quit. */
    method CloseNoHandler()
      modifies this, source
      ensures Snapshot() == OnNoHandler(old(Snapshot())).next
      ensures trace == old(trace) + OnNoHandler(old(Snapshot())).emitted
    {
      if !source.closedOrQuit {
        source.Close();
        trace := trace + [ClosedNoHandler];
      }
    }

    method HandleRowEofPacket(data: Bytes)
      modifies this, source
      ensures Snapshot() == OnRowEof(old(Snapshot()), data).next
      ensures trace == old(trace) + OnRowEof(old(Snapshot()), data).emitted
    {
      if responseHandler.Some? {
        trace := trace + [RowEofResponse(responseHandler.value, data)];
      } else {
        CloseNoHandler();
      }
    }
  }
}
