# MyCAT backend response decoder

A Dafny model of the decoder that MyCAT (a MySQL sharding proxy) attaches to each
pooled backend connection: `MySQLConnectionHandler`. The framing layer hands it one
MySQL packet at a time (3-byte length, 1-byte sequence id, payload). The decoder reads
the discriminant byte at offset 4 and reassembles the server's reply to a COM_QUERY.
The reply is an OK packet, an ERR packet, a LOCAL INFILE request, or a text result set:
a column-count packet, column definitions, EOF, rows, EOF. The decoder turns it into
callbacks on the response handler currently bound to the connection. With no suitable
handler it closes the connection instead.

Files:

- `response_decoder.dfy`, module `ResponseDecoder`: the pure specification.
  - `State` holds the status, the saved header, the collected fields, the handler slot and the connection's closed flag.
  - `Step` is one `handleData` call. `Run` applies it to a stream of packets.
  - `Event` records one callback with its arguments, or the forced close.
  - The protocol constants: OK `0x00`, ERR `0xFF`, LOCAL INFILE `0xFB`, EOF `0xFE`. The statuses: INIT 0, HEADER 1, FIELD_EOF 2.
- `connection_handler.dfy`, module `BackendNio`: the class `MySQLConnectionHandler`.
  - It has the Java fields. `handleData` is a method that updates them in place through the same nested switch.
  - A ghost `trace` records every callback and forced close.
  - Every method is proved to do exactly what the pure model says. `HandleData` also keeps the invariant `Inv`.
  - `MySQLConnection` is a stand-in for the connection. It keeps only its closed-or-quit flag.
- `decoder_properties.dfy`, module `DecoderProperties`: the properties of the transition table, proved about `Step` and `Run`.

The code and this decoder's design description disagree in four places. The model follows the code:

- Accumulators are not cleared on return to INIT. The design says a return to the idle phase clears the header and fields. The code keeps them until the next column-count packet replaces them (`ErrorInAnyPhase`, `NoStaleFieldsAfterError`).
- Column definitions do not need a handler. The design says a data packet that arrives while collecting fields closes an unbound connection. The code appends it whether or not a handler is bound (`ColumnDefinitionAppended`).
- An unbound ERR closes the connection. The design's table says an ERR while collecting fields or rows always emits `errorResponse`. With no handler bound, the code closes the connection instead.
- OK without a handler is silent. With no handler bound, an OK packet in INIT is dropped without a close (`OkInInit`).

## Model

| member | source | states |
|---|---|---|
| `BackendNio.MySQLConnectionHandler.constructor` | src/main/java/io/mycat/backend/mysql/nio/MySQLConnectionHandler.java:62-65 | the decoder starts in INIT with no handler bound, an empty trace and the invariant established |
| `BackendNio.MySQLConnectionHandler.HandleData` | src/main/java/io/mycat/backend/mysql/nio/MySQLConnectionHandler.java:96-162 | the in-place switch leaves exactly the state, trace addition and outcome of `Step`; it keeps `Inv`, and under `Inv` it never throws |
| `BackendNio.MySQLConnectionHandler.SetResponseHandler` | src/main/java/io/mycat/backend/mysql/nio/MySQLConnectionHandler.java:164-170 | only the handler slot changes (`None` unbinds); nothing is emitted; the invariant is kept |
| `BackendNio.MySQLConnectionHandler.ConnectionError` | src/main/java/io/mycat/backend/mysql/nio/MySQLConnectionHandler.java:67-72 | a transport error reaches the bound handler; with none it is dropped, without closing; the state does not change |
| `BackendNio.MySQLConnectionHandler.OfferDataError` | src/main/java/io/mycat/backend/mysql/nio/MySQLConnectionHandler.java:83-87 | the status is reset to INIT, nothing else changes, and the call throws "offer data error!" |
| `BackendNio.MySQLConnectionHandler.HandleOkPacket` | src/main/java/io/mycat/backend/mysql/nio/MySQLConnectionHandler.java:175-180 | `okResponse` reaches the bound handler; with none, nothing happens |
| `BackendNio.MySQLConnectionHandler.HandleErrorPacket` | src/main/java/io/mycat/backend/mysql/nio/MySQLConnectionHandler.java:185-192 | `errorResponse` reaches the bound handler; with none, `closeNoHandler` runs |
| `BackendNio.MySQLConnectionHandler.HandleRequestPacket` | src/main/java/io/mycat/backend/mysql/nio/MySQLConnectionHandler.java:197-205 | `requestDataResponse` reaches only a load-data handler; otherwise `closeNoHandler` runs |
| `BackendNio.MySQLConnectionHandler.HandleFieldEofPacket` | src/main/java/io/mycat/backend/mysql/nio/MySQLConnectionHandler.java:210-217 | the bound handler receives the saved header, the collected fields and the EOF packet; with none, `closeNoHandler` runs |
| `BackendNio.MySQLConnectionHandler.HandleRowPacket` | src/main/java/io/mycat/backend/mysql/nio/MySQLConnectionHandler.java:222-230 | `rowResponse` reaches the bound handler; with none, `closeNoHandler` runs |
| `BackendNio.MySQLConnectionHandler.HandleRowEofPacket` | src/main/java/io/mycat/backend/mysql/nio/MySQLConnectionHandler.java:243-249 | `rowEofResponse` reaches the bound handler; with none, `closeNoHandler` runs |
| `BackendNio.MySQLConnectionHandler.CloseNoHandler` | src/main/java/io/mycat/backend/mysql/nio/MySQLConnectionHandler.java:232-238 | the connection is closed, and the close recorded, only if it was not already closed or quit |
| `ResponseDecoder.Step` | src/main/java/io/mycat/backend/mysql/nio/MySQLConnectionHandler.java:97-162 | one call emits at most one event; the handler slot never changes; it throws exactly when the status is unknown, and then changes nothing; a normal call leaves a known status; the connection becomes closed exactly when the call emits the close; a close happens only on an open connection with no handler, or on a LOCAL INFILE request with no load-data handler; every callback goes to the handler bound at that moment |
| `ResponseDecoder.Run` | src/main/java/io/mycat/backend/mysql/nio/MySQLConnectionHandler.java:97-162 | over a stream of packets, there are no more events than packets; the handler slot is unchanged; the stream throws exactly when it is non-empty and starts in an unknown status |
| `DecoderProperties.OkInInit` | src/main/java/io/mycat/backend/mysql/nio/MySQLConnectionHandler.java:100-105 | an OK packet in INIT changes no state; it fires `okResponse(data)` only if a handler is bound, and without one there is neither a callback nor a close |
| `DecoderProperties.ErrorInAnyPhase` | src/main/java/io/mycat/backend/mysql/nio/MySQLConnectionHandler.java:107-108 | an ERR packet in any phase leads to INIT and leaves header and fields unchanged; it fires `errorResponse(data)` with a handler bound, and otherwise leaves the connection closed, closing it if it was open |
| `DecoderProperties.ColumnCountStartsResultSet` | src/main/java/io/mycat/backend/mysql/nio/MySQLConnectionHandler.java:115-120 | in INIT any discriminant but OK, ERR and LOCAL INFILE (0xFE included) leads to HEADER with `header := data` and `fields := []`, and fires nothing |
| `DecoderProperties.ColumnDefinitionAppended` | src/main/java/io/mycat/backend/mysql/nio/MySQLConnectionHandler.java:136-138 | in HEADER a packet that is neither ERR nor EOF is appended to the fields; nothing else changes and nothing fires, with or without a handler |
| `DecoderProperties.FieldsInArrivalOrder` | src/main/java/io/mycat/backend/mysql/nio/MySQLConnectionHandler.java:124-140 | after n column definitions in HEADER the fields are the old fields followed by the n packets, in arrival order, and nothing fired |
| `DecoderProperties.FieldEofDelivered` | src/main/java/io/mycat/backend/mysql/nio/MySQLConnectionHandler.java:132-134 | EOF in HEADER leads to FIELD_EOF; the handler bound at that moment receives `fieldEofResponse(header, fields, data)` of the current result set; with none the connection is closed |
| `DecoderProperties.RowDelivered` | src/main/java/io/mycat/backend/mysql/nio/MySQLConnectionHandler.java:154-156 | in FIELD_EOF a packet that is neither ERR nor EOF keeps FIELD_EOF and fires `rowResponse(data)`, or closes the connection with no handler |
| `DecoderProperties.RowsDelivered` | src/main/java/io/mycat/backend/mysql/nio/MySQLConnectionHandler.java:142-158 | any number of rows in FIELD_EOF reach the bound handler one `rowResponse` each, in order, and the state is unchanged |
| `DecoderProperties.RowEofEndsResultSet` | src/main/java/io/mycat/backend/mysql/nio/MySQLConnectionHandler.java:150-152 | EOF in FIELD_EOF leads to INIT and fires `rowEofResponse(data)`, or closes the connection with no handler |
| `DecoderProperties.LocalInfileRequest` | src/main/java/io/mycat/backend/mysql/nio/MySQLConnectionHandler.java:111-112 | a LOCAL INFILE request in INIT fires `requestDataResponse(data)` only for a load-data handler; a missing handler or any other handler leads to a close; the status stays INIT |
| `DecoderProperties.UnknownStatusHalts` | src/main/java/io/mycat/backend/mysql/nio/MySQLConnectionHandler.java:159-160 | in an unknown status the first packet throws "unknown status!" with no event and no state change, and processing stops there |
| `DecoderProperties.InitialSatisfiesInv` | src/main/java/io/mycat/backend/mysql/nio/MySQLConnectionHandler.java:62-65 | the initial state is INIT and satisfies the invariant |
| `DecoderProperties.StepPreservesInv` | src/main/java/io/mycat/backend/mysql/nio/MySQLConnectionHandler.java:97-162 | a call keeps the invariant (known status; outside INIT the header is a column-count packet; every field is a column definition) and so never throws |
| `DecoderProperties.RunPreservesInv` | src/main/java/io/mycat/backend/mysql/nio/MySQLConnectionHandler.java:97-162 | any stream of packets keeps the invariant, so "unknown status!" is unreachable from the constructor's state |
| `DecoderProperties.ClosedAtMostOnce` | src/main/java/io/mycat/backend/mysql/nio/MySQLConnectionHandler.java:232-238 | over any stream the connection is force-closed at most once, never if it was already closed, and stays closed once closed |
| `DecoderProperties.RunConcatenation` | src/main/java/io/mycat/backend/mysql/nio/MySQLConnectionHandler.java:97-162 | decoding a stream in two batches gives the same state, events and outcome as decoding it in one |
| `DecoderProperties.RunSingle` | src/main/java/io/mycat/backend/mysql/nio/MySQLConnectionHandler.java:97-162 | a stream of one packet is one `handleData` call |
| `DecoderProperties.TextResultSet` | src/main/java/io/mycat/backend/mysql/nio/MySQLConnectionHandler.java:96-162 | a whole text result set with a handler bound yields exactly `fieldEofResponse(header, definitions, eof)`, one `rowResponse` per row in order, and `rowEofResponse(eof)`; it ends in INIT, with the header and definitions still held |
| `DecoderProperties.NoStaleFieldsAfterError` | src/main/java/io/mycat/backend/mysql/nio/MySQLConnectionHandler.java:115-147 | an ERR that aborts a result set leaves the fields as they were, and the next column-count packet starts again from an empty field list with the new header |

## Left out

- `handle` and `offerData`: packets are queued for the processor's executor. The queue is in `BackendAsyncHandler`, which is not part of this model. `Run` stands for calling `handleData` once per packet in arrival order.
- Concurrency: the `volatile` fields and races between `setResponseHandler` and packets being decoded. A rebind is an ordinary call between two `HandleData` calls. An event goes to the handler bound when its packet is decoded (the last ensures of `ResponseDecoder.Step`, and `FieldEofDelivered`).
- `ByteUtil.readLength` is not part of this model. It only sizes the new field list, so the field list starts as an empty sequence.
- `MySQLConnection.close` is not part of this model. The stand-in `MySQLConnection.Close` only sets the closed-or-quit flag. Other parts of the proxy can also close the connection; this model does not capture that.
- The close reason "no handler" and the warning logged by `closeNoHandler`. The trace records a close as `ClosedNoHandler`.
- What the handler callbacks do is outside this model. Each callback is only recorded, with its arguments, as an event in the trace. The `source` argument of every callback is always this decoder's connection, so events omit it.
- `HandleData` requires at least five bytes, because `data[4]` must exist. A shorter array would make Java throw an index exception, and that exception is not modelled.
- `header` and `fields` start as `null` in Java; here they start empty. They are read only outside INIT, and `Inv` proves that by then a column-count packet has set them.
- `Run` stops at the first call that throws. In an unknown status a throw changes nothing, so later calls would throw the same way.
