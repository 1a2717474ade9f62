/** What the response decoder promises, proved about `Step` and `Run`. */
module DecoderProperties {
  import opened ResponseDecoder

  /** In INIT an OK packet changes nothing; it reaches the handler if one is
      bound, and with none bound there is neither a callback nor a close. */
  lemma OkInInit(s: State, data: Bytes)
    requires s.status == RESULT_STATUS_INIT && IsPacket(data) && data[4] == OK_FIELD_COUNT
    ensures Step(s, data).next == s
    ensures Step(s, data).outcome == Normal
    ensures Step(s, data).emitted == if s.handler.Some? then [OkResponse(s.handler.value, data)] else []
  {
  }

  /** An ERR packet in any phase returns to INIT and reaches the handler; with
      no handler bound the connection is closed instead. Header and fields
      are left as they were. */
  lemma ErrorInAnyPhase(s: State, data: Bytes)
    requires KnownStatus(s.status) && IsPacket(data) && data[4] == ERROR_FIELD_COUNT
    ensures Step(s, data).next.status == RESULT_STATUS_INIT
    ensures Step(s, data).next.header == s.header && Step(s, data).next.fields == s.fields
    ensures Step(s, data).outcome == Normal
    ensures s.handler.Some? ==>
              Step(s, data).emitted == [ErrorResponse(s.handler.value, data)] && Step(s, data).next.closed == s.closed
    ensures s.handler.None? ==>
              Step(s, data).next.closed && Step(s, data).emitted == (if s.closed then [] else [ClosedNoHandler])
  {
  }

  /** In INIT every discriminant other than OK, ERR and LOCAL INFILE (0xFE
      included) is a column count: it starts a result set with a fresh empty
      field list and calls nothing. */
  lemma ColumnCountStartsResultSet(s: State, data: Bytes)
    requires s.status == RESULT_STATUS_INIT && IsColumnCount(data)
    ensures Step(s, data) == Reaction(s.(status := RESULT_STATUS_HEADER, header := data, fields := []), [], Normal)
  {
  }

  /** In HEADER a packet that is neither ERR nor EOF is appended to the
      fields, whether or not a handler is bound. */
  lemma ColumnDefinitionAppended(s: State, data: Bytes)
    requires s.status == RESULT_STATUS_HEADER && IsDataPacket(data)
    ensures Step(s, data) == Reaction(s.(fields := s.fields + [data]), [], Normal)
  {
  }

  /** After any number of column definitions the fields hold them all, in
      arrival order, after those already collected; nothing is emitted. */
  lemma {:induction false} FieldsInArrivalOrder(s: State, defs: seq<Bytes>)
    requires s.status == RESULT_STATUS_HEADER && AllDataPackets(defs)
    ensures AllPackets(defs)
    ensures Run(s, defs) == Reaction(s.(fields := s.fields + defs), [], Normal)
    decreases |defs|
  {
    if defs != [] {
      var s1 := s.(fields := s.fields + [defs[0]]);
      ColumnDefinitionAppended(s, defs[0]);
      FieldsInArrivalOrder(s1, defs[1..]);
      assert s1.fields + defs[1..] == s.fields + defs;
    }
  }

  /** In HEADER the EOF packet ends the column definitions: FIELD_EOF, and the
      handler bound at that moment receives the header and fields of the
      current result set; with none bound the connection is closed. */
  lemma FieldEofDelivered(s: State, data: Bytes)
    requires s.status == RESULT_STATUS_HEADER && IsEof(data)
    ensures Step(s, data).next == s.(status := RESULT_STATUS_FIELD_EOF, closed := Step(s, data).next.closed)
    ensures Step(s, data).outcome == Normal
    ensures s.handler.Some? ==>
              Step(s, data).emitted == [FieldEofResponse(s.handler.value, s.header, s.fields, data)]
              && Step(s, data).next.closed == s.closed
    ensures s.handler.None? ==>
              Step(s, data).next.closed && Step(s, data).emitted == (if s.closed then [] else [ClosedNoHandler])
  {
  }

  /** In FIELD_EOF a packet that is neither ERR nor EOF is a row: the phase is
      kept and the row reaches the handler, or the connection is closed. */
  lemma RowDelivered(s: State, data: Bytes)
    requires s.status == RESULT_STATUS_FIELD_EOF && IsDataPacket(data)
    ensures Step(s, data).next == s.(closed := Step(s, data).next.closed)
    ensures Step(s, data).outcome == Normal
    ensures s.handler.Some? ==> Step(s, data) == Reaction(s, [RowResponse(s.handler.value, data)], Normal)
    ensures s.handler.None? ==>
              Step(s, data).next.closed && Step(s, data).emitted == (if s.closed then [] else [ClosedNoHandler])
  {
  }

  /** Every row of a result set reaches the bound handler, in order, and the
      decoder stays in FIELD_EOF. */
  lemma {:induction false} RowsDelivered(s: State, h: ResponseHandler, rows: seq<Bytes>)
    requires s.status == RESULT_STATUS_FIELD_EOF && s.handler == Some(h) && AllDataPackets(rows)
    ensures AllPackets(rows)
    ensures Run(s, rows) == Reaction(s, RowEvents(h, rows), Normal)
    decreases |rows|
  {
    if rows != [] {
      RowDelivered(s, rows[0]);
      RowsDelivered(s, h, rows[1..]);
    }
  }

  /** In FIELD_EOF the EOF packet ends the result set: back to INIT and
      `rowEofResponse`, or a close when no handler is bound. */
  lemma RowEofEndsResultSet(s: State, data: Bytes)
    requires s.status == RESULT_STATUS_FIELD_EOF && IsEof(data)
    ensures Step(s, data).next == s.(status := RESULT_STATUS_INIT, closed := Step(s, data).next.closed)
    ensures Step(s, data).outcome == Normal
    ensures s.handler.Some? ==>
              Step(s, data).emitted == [RowEofResponse(s.handler.value, data)] && Step(s, data).next.closed == s.closed
    ensures s.handler.None? ==>
              Step(s, data).next.closed && Step(s, data).emitted == (if s.closed then [] else [ClosedNoHandler])
  {
  }

  /** A LOCAL INFILE request in INIT reaches only a load-data handler; any
      other handler, or none, leads to a close. The status stays INIT. */
  lemma LocalInfileRequest(s: State, data: Bytes)
    requires s.status == RESULT_STATUS_INIT && IsPacket(data) && data[4] == REQUEST_FILE_FIELD_COUNT
    ensures Step(s, data).next == s.(closed := Step(s, data).next.closed)
    ensures Step(s, data).outcome == Normal
    ensures s.handler.Some? && s.handler.value.isLoadDataHandler ==>
              Step(s, data).emitted == [RequestDataResponse(s.handler.value, data)] && Step(s, data).next.closed == s.closed
    ensures !(s.handler.Some? && s.handler.value.isLoadDataHandler) ==>
              Step(s, data).next.closed && Step(s, data).emitted == (if s.closed then [] else [ClosedNoHandler])
  {
  }

  /** A status outside the three phases makes every call throw
      "unknown status!" and leaves everything unchanged. */
  lemma {:induction false} UnknownStatusHalts(s: State, ps: seq<Bytes>)
    requires !KnownStatus(s.status) && AllPackets(ps) && ps != []
    ensures Run(s, ps) == Reaction(s, [], Thrown("unknown status!"))
  {
  }

  /** The invariant holds initially and every call keeps it. */
  lemma InitialSatisfiesInv(closed: bool)
    ensures Inv(Initial(closed)) && Initial(closed).status == RESULT_STATUS_INIT
  {
  }

  lemma StepPreservesInv(s: State, data: Bytes)
    requires Inv(s) && IsPacket(data)
    ensures Inv(Step(s, data).next) && Step(s, data).outcome == Normal
  {
  }

  lemma {:induction false} RunPreservesInv(s: State, ps: seq<Bytes>)
    requires Inv(s) && AllPackets(ps)
    ensures Inv(Run(s, ps).next) && Run(s, ps).outcome == Normal
    decreases |ps|
  {
    if ps != [] {
      StepPreservesInv(s, ps[0]);
      RunPreservesInv(Step(s, ps[0]).next, ps[1..]);
    }
  }

  /** However many no-handler events occur, the connection is closed at most
      once, and not at all when it was already closed; once closed it stays
      closed. */
  lemma {:induction false} ClosedAtMostOnce(s: State, ps: seq<Bytes>)
    requires AllPackets(ps)
    ensures CloseCount(Run(s, ps).emitted) <= if s.closed then 0 else 1
    ensures s.closed ==> Run(s, ps).next.closed
    ensures CloseCount(Run(s, ps).emitted) == 1 ==> Run(s, ps).next.closed
    decreases |ps|
  {
    if ps != [] {
      var first := Step(s, ps[0]);
      if first.outcome.Normal? {
        ClosedAtMostOnce(first.next, ps[1..]);
        var rest := Run(first.next, ps[1..]);
        assert Run(s, ps).emitted == first.emitted + rest.emitted;
        assert CloseCount(first.emitted) == if first.emitted == [ClosedNoHandler] then 1 else 0 by {
          if first.emitted != [] {
            assert first.emitted == [first.emitted[0]];
          }
        }
      }
    }
  }

  /** Handing packets over in two batches gives the same result as handing
      them over in one: the decoder carries nothing but its state between
      calls. */
  lemma {:induction false} RunConcatenation(s: State, a: seq<Bytes>, b: seq<Bytes>)
    requires AllPackets(a) && AllPackets(b)
    ensures AllPackets(a + b)
    ensures Run(s, a + b) == Then(Run(s, a), b)
    decreases |a|
  {
    if a == [] {
      assert a + b == b;
    } else {
      assert (a + b)[0] == a[0];
      assert (a + b)[1..] == a[1..] + b;
      var first := Step(s, a[0]);
      if first.outcome.Normal? {
        RunConcatenation(first.next, a[1..], b);
      }
    }
  }

  lemma RunSingle(s: State, p: Bytes)
    requires IsPacket(p)
    ensures Run(s, [p]) == Step(s, p)
  {
    assert [p][1..] == [];
  }

  /** A whole text result set (column count, n column definitions, EOF, rows,
      EOF) with a handler bound from start to end produces exactly
      `fieldEofResponse(header, definitions, eof)`, one `rowResponse` per row
      in order, then `rowEofResponse(eof)`, and returns to INIT. */
  lemma TextResultSet(s: State, h: ResponseHandler, header: Bytes, defs: seq<Bytes>, fieldEof: Bytes,
                      rows: seq<Bytes>, rowEof: Bytes)
    requires s.status == RESULT_STATUS_INIT && s.handler == Some(h)
    requires IsColumnCount(header) && AllDataPackets(defs) && IsEof(fieldEof)
    requires AllDataPackets(rows) && IsEof(rowEof)
    ensures AllPackets([header] + defs + [fieldEof] + rows + [rowEof])
    ensures Run(s, [header] + defs + [fieldEof] + rows + [rowEof])
         == Reaction(s.(header := header, fields := defs),
                     [FieldEofResponse(h, header, defs, fieldEof)] + RowEvents(h, rows) + [RowEofResponse(h, rowEof)],
                     Normal)
  {
    var s1 := s.(status := RESULT_STATUS_HEADER, header := header, fields := []);
    var s2 := s1.(fields := defs);
    var s3 := s2.(status := RESULT_STATUS_FIELD_EOF);
    var a1 := [header];
    var a2 := a1 + defs;
    var a3 := a2 + [fieldEof];
    var a4 := a3 + rows;
    var fe := FieldEofResponse(h, header, defs, fieldEof);
    var rowEvents := RowEvents(h, rows);

    ColumnCountStartsResultSet(s, header);
    RunSingle(s, header);
    assert Run(s, a1) == Reaction(s1, [], Normal);

    FieldsInArrivalOrder(s1, defs);
    assert [] + defs == defs;
    RunConcatenation(s, a1, defs);
    assert Run(s, a2) == Reaction(s2, [], Normal);

    FieldEofDelivered(s2, fieldEof);
    RunSingle(s2, fieldEof);
    RunConcatenation(s, a2, [fieldEof]);
    assert Run(s, a3) == Reaction(s3, [fe], Normal);

    RowsDelivered(s3, h, rows);
    RunConcatenation(s, a3, rows);
    assert Run(s, a4) == Reaction(s3, [fe] + rowEvents, Normal);

    RowEofEndsResultSet(s3, rowEof);
    RunSingle(s3, rowEof);
    RunConcatenation(s, a4, [rowEof]);
  }

  /** An ERR packet that aborts a result set does not clear the fields, but
      the next result set starts from an empty field list: nothing from the
      aborted one leaks into it. */
  lemma NoStaleFieldsAfterError(s: State, err: Bytes, header: Bytes)
    requires KnownStatus(s.status) && IsPacket(err) && err[4] == ERROR_FIELD_COUNT && IsColumnCount(header)
    ensures Step(s, err).next.fields == s.fields
    ensures Step(Step(s, err).next, header).next.fields == []
    ensures Step(Step(s, err).next, header).next.header == header
    ensures Step(Step(s, err).next, header).next.status == RESULT_STATUS_HEADER
  {
  }
}
