/** What the ingestion loop of main.py guarantees, proved about Bridge.Run:
    the order of the calls it makes, the meaning of the changed flag, the
    numbering of the committed rows, and the runs in which the code as it
    stands stops or never inserts. */
module BridgeProperties {
  import opened Common
  import Database
  import Serial
  import opened Bridge

  // ---------------------------------------------------------------------
  // The value tuple

  /** The record shown in the comment at main.py:81, written as two literals
      so that its first characters are visible to the verifier. */
  const DocumentedRecord: string := "hdf;17" + "60563031.63;1760563041.63;2025;9;8988;17871"

  /** A built tuple with the message id in front fills the seven placeholders
      of the INSERT, one per column. */
  lemma ValuesFillPlaceholders(line: Option<string>, conv: Converters, id: int)
    requires BuildValues(line, conv).Returned?
    ensures |[SqlInt(id)] + BuildValues(line, conv).value| == Database.Placeholders == |Database.Columns|
  {
  }

  /** The column data_timestamp_first_sample receives line[0], a
      one-character string, and data_max receives int(line[5]). */
  lemma ColumnsReceiveShiftedFields(line: Option<string>, conv: Converters, id: int)
    requires BuildValues(line, conv).Returned?
    ensures var params := [SqlInt(id)] + BuildValues(line, conv).value;
      && Database.Columns[1] == "data_timestamp_first_sample"
      && params[1] == SqlText([line.value[0]])
      && Database.Columns[6] == "data_max"
      && params[6].SqlInt? && Some(params[6].i) == conv.toInt([line.value[5]])
  {
    var v := BuildValues(line, conv).value;
    assert v[0] == ConvertChar(line.value[0], FieldKinds[0], conv).value;
    assert v[5] == ConvertChar(line.value[5], FieldKinds[5], conv).value;
  }

  /** The documented record is read character by character: the conversions
      see "d", "f", ";", "1" and "7", never the fields between the ';'. */
  lemma DocumentedRecordIsReadByCharacter(conv: Converters)
    ensures BuildValues(Some(DocumentedRecord), conv).Returned? <==>
      && conv.toFloat("d").Some? && conv.toFloat("f").Some?
      && conv.toInt(";").Some? && conv.toInt("1").Some? && conv.toInt("7").Some?
  {
    var s := DocumentedRecord;
    assert s[0] == 'h' && s[1] == 'd' && s[2] == 'f' && s[3] == ';' && s[4] == '1' && s[5] == '7';
    assert [s[1]] == "d" && [s[2]] == "f" && [s[3]] == ";" && [s[4]] == "1" && [s[5]] == "7";
    var conversions := BuildValues(Some(s), conv).Returned?;
    if conversions {
      assert ConvertChar(s[1], FieldKinds[1], conv).Returned?;
      assert ConvertChar(s[2], FieldKinds[2], conv).Returned?;
      assert ConvertChar(s[3], FieldKinds[3], conv).Returned?;
      assert ConvertChar(s[4], FieldKinds[4], conv).Returned?;
      assert ConvertChar(s[5], FieldKinds[5], conv).Returned?;
    }
  }

  /** With Python's float(), which rejects "d", every documented record ends
      the loop with ValueError. */
  lemma DocumentedRecordRaises(conv: Converters)
    requires conv.toFloat("d").None?
    ensures BuildValues(Some(DocumentedRecord), conv) == Raised(ValueError)
  {
    var s := DocumentedRecord;
    assert s[0] == 'h' && s[1] == 'd' && [s[1]] == "d";
    assert BuildFrom(s, 1, conv) == Raised(ValueError);
  }

  // ---------------------------------------------------------------------
  // The order of the calls

  /** Which call may come right after which: the control flow of main.py as
      a small automaton, independent of Run. */
  predicate MayFollow(a: Event, b: Event, conv: Converters) {
    match a
    case HealthCheck(_, changed) =>
      if changed then b.HealthCheck? || b.Close? else b.Read?
    case Read(line) =>
      if line.Raised? || BuildValues(line.value, conv).Raised? then b.Close?
      else b.Insert? && b.values == BuildValues(line.value, conv).value
    case Insert(_, result) =>
      if result.Raised? then b.Close? else b.HealthCheck? || b.Close?
    case Close => false
  }

  predicate Chain(ev: seq<Event>, conv: Converters) {
    forall i :: 0 <= i < |ev| - 1 ==> MayFollow(ev[i], ev[i + 1], conv)
  }

  /** A log the automaton accepts: it starts with a health check (or the
      close of an interrupted loop) and ends with the close. */
  predicate Ordered(ev: seq<Event>, conv: Converters) {
    && |ev| > 0
    && (ev[0].HealthCheck? || ev[0].Close?)
    && ev[|ev| - 1] == Close
    && Chain(ev, conv)
  }

  /** The calls that may end an iteration the loop goes on from. */
  predicate EndsIteration(e: Event) {
    (e.HealthCheck? && e.changed) || (e.Insert? && e.result.Returned?)
  }

  lemma ChainAppend(a: seq<Event>, b: seq<Event>, conv: Converters)
    requires Chain(a, conv) && Chain(b, conv)
    requires |a| > 0 && |b| > 0 ==> MayFollow(a[|a| - 1], b[0], conv)
    ensures Chain(a + b, conv)
  {
    var ab := a + b;
    forall i | 0 <= i < |ab| - 1
      ensures MayFollow(ab[i], ab[i + 1], conv)
    {
      if i < |a| - 1 {
        assert ab[i] == a[i] && ab[i + 1] == a[i + 1];
      } else if i == |a| - 1 {
        assert ab[i] == a[|a| - 1] && ab[i + 1] == b[0];
      } else {
        assert ab[i] == b[i - |a|] && ab[i + 1] == b[i - |a| + 1];
      }
    }
  }

  lemma IterationShape(f: Database.DbFields, portOpen: bool, conv: Converters, e: IterationInputs)
    ensures var s := Iteration(f, portOpen, conv, e);
      && |s.events| > 0 && s.events[0].HealthCheck? && Chain(s.events, conv)
      && (s.raised ==> MayFollow(s.events[|s.events| - 1], Close, conv))
      && (!s.raised <==> EndsIteration(s.events[|s.events| - 1]))
  {
  }

  /** Every log of a run is accepted by the automaton. */
  lemma {:induction false} RunOrdered(f: Database.DbFields, portOpen: bool, conv: Converters,
                                      inputs: seq<IterationInputs>)
    ensures Ordered(Run(f, portOpen, conv, inputs).events, conv)
    decreases |inputs|
  {
    if inputs != [] {
      var s := Iteration(f, portOpen, conv, inputs[0]);
      RunAfterStep(f, portOpen, conv, inputs, s);
      IterationShape(f, portOpen, conv, inputs[0]);
      if s.raised {
        ChainAppend(s.events, [Close], conv);
      } else {
        var rest := Run(s.fields, portOpen, conv, inputs[1..]);
        RunOrdered(s.fields, portOpen, conv, inputs[1..]);
        ChainAppend(s.events, rest.events, conv);
      }
    }
  }

  /** An iteration whose health check reports a change makes no read and no
      insert: the next call is the next health check, or the close. That
      iteration never ends the loop: the run goes on with the next one. */
  lemma SkippedIterationHasNoReadOrInsert(f: Database.DbFields, portOpen: bool, conv: Converters,
                                          inputs: seq<IterationInputs>)
    ensures var ev := Run(f, portOpen, conv, inputs).events;
      forall i :: 0 <= i < |ev| && ev[i].HealthCheck? && ev[i].changed ==>
        i + 1 < |ev| && (ev[i + 1].HealthCheck? || ev[i + 1].Close?)
    ensures inputs != [] && Database.Ensure(f, inputs[0].ensure).changed ==>
      var s := Iteration(f, portOpen, conv, inputs[0]);
      var rest := Run(s.fields, portOpen, conv, inputs[1..]);
      && s.events == [HealthCheck(s.fields.state, true)]
      && Run(f, portOpen, conv, inputs) == Outcome(rest.fields, s.events + rest.events)
  {
    var ev := Run(f, portOpen, conv, inputs).events;
    RunOrdered(f, portOpen, conv, inputs);
    forall i | 0 <= i < |ev| && ev[i].HealthCheck? && ev[i].changed
      ensures i + 1 < |ev| && (ev[i + 1].HealthCheck? || ev[i + 1].Close?)
    {
      assert i != |ev| - 1;
      assert MayFollow(ev[i], ev[i + 1], conv);
    }
    if inputs != [] {
      IterationShape(f, portOpen, conv, inputs[0]);
    }
  }

  /** An iteration whose health check reports no change reads exactly once,
      then inserts exactly the tuple built from that line, unless the read
      or the build raised, which ends the loop. */
  lemma UnchangedIterationReadsThenInserts(f: Database.DbFields, portOpen: bool, conv: Converters,
                                           inputs: seq<IterationInputs>)
    ensures var ev := Run(f, portOpen, conv, inputs).events;
      forall i :: 0 <= i < |ev| && ev[i].HealthCheck? && !ev[i].changed ==>
        && i + 2 < |ev| && ev[i + 1].Read?
        && var line := ev[i + 1].line;
           if line.Raised? || BuildValues(line.value, conv).Raised? then ev[i + 2] == Close
           else ev[i + 2].Insert? && ev[i + 2].values == BuildValues(line.value, conv).value
  {
    var ev := Run(f, portOpen, conv, inputs).events;
    RunOrdered(f, portOpen, conv, inputs);
    forall i | 0 <= i < |ev| && ev[i].HealthCheck? && !ev[i].changed
      ensures i + 2 < |ev| && ev[i + 1].Read?
      ensures var line := ev[i + 1].line;
        if line.Raised? || BuildValues(line.value, conv).Raised? then ev[i + 2] == Close
        else ev[i + 2].Insert? && ev[i + 2].values == BuildValues(line.value, conv).value
    {
      assert i != |ev| - 1;
      assert MayFollow(ev[i], ev[i + 1], conv);
      assert i + 1 != |ev| - 1;
      assert MayFollow(ev[i + 1], ev[i + 2], conv);
    }
  }

  /** Every read comes right after a health check that reported no change,
      and every insert right after the read whose line it was built from. */
  lemma ReadsAndInsertsArePreceded(f: Database.DbFields, portOpen: bool, conv: Converters,
                                   inputs: seq<IterationInputs>)
    ensures var ev := Run(f, portOpen, conv, inputs).events;
      && (forall i :: 0 <= i < |ev| && ev[i].Read? ==>
            0 < i && ev[i - 1].HealthCheck? && !ev[i - 1].changed)
      && (forall i :: 0 <= i < |ev| && ev[i].Insert? ==>
            0 < i && ev[i - 1].Read? && ev[i - 1].line.Returned? &&
            BuildValues(ev[i - 1].line.value, conv) == Returned(ev[i].values))
  {
    var ev := Run(f, portOpen, conv, inputs).events;
    RunOrdered(f, portOpen, conv, inputs);
    forall i | 0 <= i < |ev| && ev[i].Read?
      ensures 0 < i && ev[i - 1].HealthCheck? && !ev[i - 1].changed
    {
      assert MayFollow(ev[i - 1], ev[i], conv);
    }
    forall i | 0 <= i < |ev| && ev[i].Insert?
      ensures 0 < i && ev[i - 1].Read? && ev[i - 1].line.Returned?
      ensures BuildValues(ev[i - 1].line.value, conv) == Returned(ev[i].values)
    {
      assert MayFollow(ev[i - 1], ev[i], conv);
    }
  }

  /** The loop does not look at what insertDataset returned: after True or
      False the next call is the next iteration's health check, or the close
      when the operator stops the loop there, and the run goes on exactly as
      it would from the fields the insert left. */
  lemma InsertResultIsIgnored(f: Database.DbFields, portOpen: bool, conv: Converters,
                              inputs: seq<IterationInputs>)
    ensures var ev := Run(f, portOpen, conv, inputs).events;
      forall i :: 0 <= i < |ev| && ev[i].Insert? && ev[i].result.Returned? ==>
        i + 1 < |ev| && (ev[i + 1].HealthCheck? || ev[i + 1].Close?)
    ensures inputs != [] ==>
      var s := Iteration(f, portOpen, conv, inputs[0]);
      var last := s.events[|s.events| - 1];
      var rest := Run(s.fields, portOpen, conv, inputs[1..]);
      last.Insert? && last.result.Returned? ==>
        Run(f, portOpen, conv, inputs) == Outcome(rest.fields, s.events + rest.events)
  {
    var ev := Run(f, portOpen, conv, inputs).events;
    RunOrdered(f, portOpen, conv, inputs);
    forall i | 0 <= i < |ev| && ev[i].Insert? && ev[i].result.Returned?
      ensures i + 1 < |ev| && (ev[i + 1].HealthCheck? || ev[i + 1].Close?)
    {
      assert i != |ev| - 1;
      assert MayFollow(ev[i], ev[i + 1], conv);
    }
    if inputs != [] {
      IterationShape(f, portOpen, conv, inputs[0]);
    }
  }

  /** However the loop ends, receiver.close() is the last call, made once;
      the first call is a health check unless the loop was never entered. */
  lemma ReceiverClosedOnceOnExit(f: Database.DbFields, portOpen: bool, conv: Converters,
                                 inputs: seq<IterationInputs>)
    ensures var ev := Run(f, portOpen, conv, inputs).events;
      && |ev| > 0 && ev[|ev| - 1] == Close
      && (forall i :: 0 <= i < |ev| - 1 ==> !ev[i].Close?)
      && (inputs != [] ==> ev[0].HealthCheck?)
  {
    var ev := Run(f, portOpen, conv, inputs).events;
    RunOrdered(f, portOpen, conv, inputs);
    forall i | 0 <= i < |ev| - 1
      ensures !ev[i].Close?
    {
      assert MayFollow(ev[i], ev[i + 1], conv);
    }
    if inputs != [] {
      IterationShape(f, portOpen, conv, inputs[0]);
    }
  }

  // ---------------------------------------------------------------------
  // The changed flag

  /** The state reported by the last health check of a log, or `last`. */
  function LastReported(ev: seq<Event>, last: ConnectionState): ConnectionState
    decreases |ev|
  {
    if ev == [] then last
    else LastReported(ev[1..], if ev[0].HealthCheck? then ev[0].state else last)
  }

  /** Every health check's flag says whether its state differs from the one
      reported before it (or from `last`, for the first one). */
  predicate ReportsConsistent(ev: seq<Event>, last: ConnectionState)
    decreases |ev|
  {
    ev == [] ||
    ((ev[0].HealthCheck? ==> (ev[0].changed <==> ev[0].state != last)) &&
     ReportsConsistent(ev[1..], if ev[0].HealthCheck? then ev[0].state else last))
  }

  lemma {:induction false} ReportsAppend(a: seq<Event>, b: seq<Event>, last: ConnectionState)
    ensures ReportsConsistent(a + b, last) <==>
      ReportsConsistent(a, last) && ReportsConsistent(b, LastReported(a, last))
    ensures LastReported(a + b, last) == LastReported(b, LastReported(a, last))
    decreases |a|
  {
    if a == [] {
      assert a + b == b;
    } else {
      assert (a + b)[0] == a[0];
      assert (a + b)[1..] == a[1..] + b;
      ReportsAppend(a[1..], b, if a[0].HealthCheck? then a[0].state else last);
    }
  }

  lemma {:induction false} ReportsWithoutChecks(ev: seq<Event>, last: ConnectionState)
    requires forall i :: 0 <= i < |ev| ==> !ev[i].HealthCheck?
    ensures ReportsConsistent(ev, last) && LastReported(ev, last) == last
    decreases |ev|
  {
    if ev != [] {
      ReportsWithoutChecks(ev[1..], last);
    }
  }

  lemma IterationReports(f: Database.DbFields, portOpen: bool, conv: Converters, e: IterationInputs)
    ensures var s := Iteration(f, portOpen, conv, e);
      ReportsConsistent(s.events, f.state) && LastReported(s.events, f.state) == s.fields.state
  {
    var s := Iteration(f, portOpen, conv, e);
    var ev := s.events;
    assert ev[0].HealthCheck? && (ev[0].changed <==> ev[0].state != f.state);
    assert ev[0].state == s.fields.state;
    assert forall i :: 1 <= i < |ev| ==> !ev[i].HealthCheck?;
    ReportsWithoutChecks(ev[1..], ev[0].state);
  }

  /** Across a whole run, the changed flag of every health check says exactly
      whether its state differs from the state of the health check before it
      (or from the state the run started in): only health checks change the
      state. */
  lemma {:induction false} ChangedFlagTracksReportedStates(f: Database.DbFields, portOpen: bool,
                                                           conv: Converters, inputs: seq<IterationInputs>)
    ensures ReportsConsistent(Run(f, portOpen, conv, inputs).events, f.state)
    ensures LastReported(Run(f, portOpen, conv, inputs).events, f.state) == Run(f, portOpen, conv, inputs).fields.state
    decreases |inputs|
  {
    if inputs != [] {
      var s := Iteration(f, portOpen, conv, inputs[0]);
      RunAfterStep(f, portOpen, conv, inputs, s);
      IterationReports(f, portOpen, conv, inputs[0]);
      if s.raised {
        ReportsAppend(s.events, [Close], f.state);
      } else {
        ChangedFlagTracksReportedStates(s.fields, portOpen, conv, inputs[1..]);
        ReportsAppend(s.events, Run(s.fields, portOpen, conv, inputs[1..]).events, f.state);
      }
    }
  }

  /** Every health check of a log reports ("up", False). */
  predicate ReportsHealthy(ev: seq<Event>) {
    forall i :: 0 <= i < |ev| && ev[i].HealthCheck? ==> ev[i] == HealthCheck(Up, false)
  }

  lemma ReportsHealthyAppend(a: seq<Event>, b: seq<Event>)
    requires ReportsHealthy(a) && ReportsHealthy(b)
    ensures ReportsHealthy(a + b)
  {
    var ab := a + b;
    forall i | 0 <= i < |ab| && ab[i].HealthCheck?
      ensures ab[i] == HealthCheck(Up, false)
    {
      if i < |a| {
        assert ab[i] == a[i];
      } else {
        assert ab[i] == b[i - |a|];
      }
    }
  }

  /** One pass over a healthy connection reports ("up", False) and leaves
      the connection up. */
  lemma HealthyIteration(f: Database.DbFields, portOpen: bool, conv: Converters, e: IterationInputs)
    requires Database.WellFormed(f) && f.state == Up && e.ensure.pingOk
    ensures var s := Iteration(f, portOpen, conv, e);
      ReportsHealthy(s.events) && Database.WellFormed(s.fields) && s.fields.state == Up
  {
    var s := Iteration(f, portOpen, conv, e);
    assert s.events[0] == HealthCheck(Up, false);
    assert forall i :: 0 < i < |s.events| ==> !s.events[i].HealthCheck?;
  }

  /** Repeated health checks while the connection is up and every ping
      succeeds all report ("up", False): no iteration is skipped. */
  lemma {:induction false} HealthyConnectionIsNeverReportedChanged(f: Database.DbFields, portOpen: bool,
                                                                   conv: Converters, inputs: seq<IterationInputs>)
    requires Database.WellFormed(f) && f.state == Up
    requires forall k :: 0 <= k < |inputs| ==> inputs[k].ensure.pingOk
    ensures ReportsHealthy(Run(f, portOpen, conv, inputs).events)
    decreases |inputs|
  {
    if inputs != [] {
      var s := Iteration(f, portOpen, conv, inputs[0]);
      RunAfterStep(f, portOpen, conv, inputs, s);
      HealthyIteration(f, portOpen, conv, inputs[0]);
      if s.raised {
        ReportsHealthyAppend(s.events, [Close]);
      } else {
        assert forall k :: 0 <= k < |inputs[1..]| ==> inputs[1..][k] == inputs[k + 1];
        HealthyConnectionIsNeverReportedChanged(s.fields, portOpen, conv, inputs[1..]);
        ReportsHealthyAppend(s.events, Run(s.fields, portOpen, conv, inputs[1..]).events);
      }
    }
  }

  // ---------------------------------------------------------------------
  // Message ids

  /** The tuples of the inserts that returned True, in order. */
  function CommittedValues(ev: seq<Event>): seq<seq<SqlValue>>
    decreases |ev|
  {
    if ev == [] then []
    else (if ev[0].Insert? && ev[0].result == Returned(true) then [ev[0].values] else [])
         + CommittedValues(ev[1..])
  }

  /** The rows that tuples get when numbered from `id` on. */
  function Rows(id: int, vs: seq<seq<SqlValue>>): (r: seq<Database.Row>)
    ensures |r| == |vs|
    decreases |vs|
  {
    if vs == [] then [] else [Database.Row(id, vs[0])] + Rows(id + 1, vs[1..])
  }

  lemma {:induction false} CommittedAppend(a: seq<Event>, b: seq<Event>)
    ensures CommittedValues(a + b) == CommittedValues(a) + CommittedValues(b)
    decreases |a|
  {
    if a == [] {
      assert a + b == b;
    } else {
      assert (a + b)[0] == a[0];
      assert (a + b)[1..] == a[1..] + b;
      CommittedAppend(a[1..], b);
    }
  }

  lemma {:induction false} RowsAppend(id: int, a: seq<seq<SqlValue>>, b: seq<seq<SqlValue>>)
    ensures Rows(id, a + b) == Rows(id, a) + Rows(id + |a|, b)
    decreases |a|
  {
    if a == [] {
      assert a + b == b;
    } else {
      assert (a + b)[0] == a[0];
      assert (a + b)[1..] == a[1..] + b;
      RowsAppend(id + 1, a[1..], b);
    }
  }

  lemma {:induction false} RowsNumbered(id: int, vs: seq<seq<SqlValue>>, k: int)
    requires 0 <= k < |vs|
    ensures Rows(id, vs)[k] == Database.Row(id + k, vs[k])
    decreases |vs|
  {
    if k > 0 {
      RowsNumbered(id + 1, vs[1..], k - 1);
    }
  }

  lemma {:induction false} CommittedWithoutInserts(ev: seq<Event>)
    requires forall i :: 0 <= i < |ev| ==> !ev[i].Insert?
    ensures CommittedValues(ev) == []
    decreases |ev|
  {
    if ev != [] {
      CommittedWithoutInserts(ev[1..]);
    }
  }

  lemma IterationCommits(f: Database.DbFields, portOpen: bool, conv: Converters, e: IterationInputs)
    ensures var s := Iteration(f, portOpen, conv, e); var c := CommittedValues(s.events);
      s.fields.table == f.table + Rows(f.messageId, c) && s.fields.messageId == f.messageId + |c|
  {
    var s := Iteration(f, portOpen, conv, e);
    var h := Database.Ensure(f, e.ensure);
    var line := Serial.ReadSpec(portOpen, e.read);
    if !h.changed && line.Returned? && BuildValues(line.value, conv).Returned? {
      var v := BuildValues(line.value, conv).value;
      var ins := Database.Insert(h.fields, v, e.insert);
      var last := Insert(v, ins.result);
      assert s.events == [HealthCheck(h.state, h.changed), Read(line)] + [last];
      CommittedWithoutInserts([HealthCheck(h.state, h.changed), Read(line)]);
      CommittedAppend([HealthCheck(h.state, h.changed), Read(line)], [last]);
      assert CommittedValues([last]) == (if ins.result == Returned(true) then [v] else []) + CommittedValues([]);
      if ins.result == Returned(true) {
        assert Rows(f.messageId, [v]) == [Database.Row(f.messageId, v)] + Rows(f.messageId + 1, []);
      }
    } else {
      CommittedWithoutInserts(s.events);
    }
  }

  /** Numbering is compatible with running one log after another. */
  lemma CommitsCompose(f: Database.DbFields, mid: Database.DbFields, a: seq<Event>, o: Outcome)
    requires mid.table == f.table + Rows(f.messageId, CommittedValues(a))
    requires mid.messageId == f.messageId + |CommittedValues(a)|
    requires o.fields.table == mid.table + Rows(mid.messageId, CommittedValues(o.events))
    requires o.fields.messageId == mid.messageId + |CommittedValues(o.events)|
    ensures var c := CommittedValues(a + o.events);
      o.fields.table == f.table + Rows(f.messageId, c) && o.fields.messageId == f.messageId + |c|
  {
    var c1 := CommittedValues(a);
    var c2 := CommittedValues(o.events);
    CommittedAppend(a, o.events);
    RowsAppend(f.messageId, c1, c2);
  }

  /** The `finally` commits nothing. */
  lemma CommitsThroughClose(f: Database.DbFields, last: Database.DbFields, a: seq<Event>)
    requires last.table == f.table + Rows(f.messageId, CommittedValues(a))
    requires last.messageId == f.messageId + |CommittedValues(a)|
    ensures var c := CommittedValues(a + [Close]);
      last.table == f.table + Rows(f.messageId, c) && last.messageId == f.messageId + |c|
  {
    CommittedAppend(a, [Close]);
    assert CommittedValues([Close]) == [] + CommittedValues([]);
    assert CommittedValues(a) + [] == CommittedValues(a);
  }

  /** Over a whole run, exactly the inserts that returned True reach the
      table, in the order they were made, numbered consecutively from the
      message_id the run started with; message_id ends one past the last. */
  lemma {:induction false} RunCommitsInOrder(f: Database.DbFields, portOpen: bool, conv: Converters,
                                             inputs: seq<IterationInputs>)
    ensures var o := Run(f, portOpen, conv, inputs); var c := CommittedValues(o.events);
      o.fields.table == f.table + Rows(f.messageId, c) && o.fields.messageId == f.messageId + |c|
    decreases |inputs|
  {
    if inputs != [] {
      var s := Iteration(f, portOpen, conv, inputs[0]);
      RunAfterStep(f, portOpen, conv, inputs, s);
      IterationCommits(f, portOpen, conv, inputs[0]);
      if s.raised {
        CommitsThroughClose(f, s.fields, s.events);
      } else {
        var rest := Run(s.fields, portOpen, conv, inputs[1..]);
        RunCommitsInOrder(s.fields, portOpen, conv, inputs[1..]);
        CommitsCompose(f, s.fields, s.events, rest);
      }
    }
  }

  /** From a freshly constructed MySql, the k-th committed row carries
      message id k + 1 and message_id is one more than the number of rows: a
      rolled-back insert leaves its id to the next one that commits. */
  lemma FreshRunNumbersRowsFromOne(portOpen: bool, conv: Converters, inputs: seq<IterationInputs>)
    ensures var o := Run(Database.Initial(), portOpen, conv, inputs);
      && o.fields.messageId == |o.fields.table| + 1
      && forall k :: 0 <= k < |o.fields.table| ==> o.fields.table[k].messageId == k + 1
  {
    var o := Run(Database.Initial(), portOpen, conv, inputs);
    RunCommitsInOrder(Database.Initial(), portOpen, conv, inputs);
    var c := CommittedValues(o.events);
    assert o.fields.table == Rows(1, c);
    forall k | 0 <= k < |o.fields.table|
      ensures o.fields.table[k].messageId == k + 1
    {
      RowsNumbered(1, c, k);
    }
  }

  // ---------------------------------------------------------------------
  // Runs that end early or never insert

  /** When the serial port could not be opened (read() then always returns
      None and nothing reopens the port), no run ever inserts: the first
      iteration that gets past the health check ends the loop with
      TypeError at line[0]. */
  lemma {:induction false} ClosedPortNeverInserts(f: Database.DbFields, conv: Converters,
                                                  inputs: seq<IterationInputs>)
    ensures var o := Run(f, false, conv, inputs);
      && (forall i :: 0 <= i < |o.events| ==> !o.events[i].Insert?)
      && o.fields.table == f.table && o.fields.messageId == f.messageId
    decreases |inputs|
  {
    if inputs != [] {
      var s := Iteration(f, false, conv, inputs[0]);
      RunAfterStep(f, false, conv, inputs, s);
      assert |s.events| == 1 || |s.events| == 2;
      if !s.raised {
        var rest := Run(s.fields, false, conv, inputs[1..]);
        ClosedPortNeverInserts(s.fields, conv, inputs[1..]);
        var ev := s.events + rest.events;
        forall i | 0 <= i < |ev|
          ensures !ev[i].Insert?
        {
          if i >= |s.events| {
            assert ev[i] == rest.events[i - |s.events|];
          }
        }
      } else {
        var ev := s.events + [Close];
        forall i | 0 <= i < |ev|
          ensures !ev[i].Insert?
        {
          if i >= |s.events| {
            assert ev[i] == Close;
          }
        }
      }
    }
  }

  /** A database that is reachable at start-up: the first health check
      reports ("up", True) and is skipped, the second reports ("up", False)
      and the first line read is stored with message id 1. */
  lemma ReachableDatabaseStoresFirstLineAsOne(conv: Converters, e1: IterationInputs, e2: IterationInputs,
                                              text: string)
    requires e1.ensure.connect == Database.Connected
    requires e2.ensure.pingOk && e2.read == Serial.Line(text)
    requires BuildValues(Some(text), conv).Returned?
    requires e2.insert.executeOk && e2.insert.commitOk
    ensures var v := BuildValues(Some(text), conv).value;
      var o := Run(Database.Initial(), true, conv, [e1, e2]);
      && o.events == [HealthCheck(Up, true), HealthCheck(Up, false), Read(Returned(Some(text))),
                      Insert(v, Returned(true)), Close]
      && o.fields.table == [Database.Row(1, v)] && o.fields.messageId == 2
  {
    var v := BuildValues(Some(text), conv).value;
    var f1 := Database.DbFields(Up, true, true, 1, []);
    var f2 := f1.(messageId := 2, table := [Database.Row(1, v)]);
    var read := Read(Returned(Some(text)));
    assert Database.Commits(f1, v, e2.insert);
    assert Iteration(Database.Initial(), true, conv, e1) == Step(f1, [HealthCheck(Up, true)], false);
    assert Iteration(f1, true, conv, e2) ==
      Step(f2, [HealthCheck(Up, false), read, Insert(v, Returned(true))], false);
    assert [e1, e2][0] == e1 && [e1, e2][1..] == [e2];
    assert [e2][0] == e2 && [e2][1..] == [];
    assert Run(f2, true, conv, []) == Outcome(f2, [Close]);
    assert Run(f1, true, conv, [e2]) ==
      Outcome(f2, [HealthCheck(Up, false), read, Insert(v, Returned(true))] + [Close]);
  }

  /** A database that is still unreachable at the second health check: that
      check reports ("down", False), so the loop reads and inserts; with
      self.connection still None and no dictCursor, the rollback in the
      except clause raises AttributeError and the loop ends, whatever
      iterations would have followed. */
  lemma UnreachableDatabaseEndsLoopAtFirstInsert(conv: Converters, e1: IterationInputs, e2: IterationInputs,
                                                 more: seq<IterationInputs>, text: string)
    requires e1.ensure.connect == Database.ConnectRaises && e2.ensure.connect == Database.ConnectRaises
    requires e2.read == Serial.Line(text)
    requires BuildValues(Some(text), conv).Returned?
    ensures var v := BuildValues(Some(text), conv).value;
      var o := Run(Database.Initial(), true, conv, [e1, e2] + more);
      && o.events == [HealthCheck(Down, true), HealthCheck(Down, false), Read(Returned(Some(text))),
                      Insert(v, Raised(AttributeError)), Close]
      && o.fields.table == []
  {
    var v := BuildValues(Some(text), conv).value;
    var f1 := Database.DbFields(Down, false, false, 1, []);
    var all := [e1, e2] + more;
    assert all[0] == e1 && all[1..][0] == e2 && all[1..][1..] == more;
    var s1 := Iteration(Database.Initial(), true, conv, e1);
    assert s1 == Step(f1, [HealthCheck(Down, true)], false);
    RunAfterStep(Database.Initial(), true, conv, all, s1);
    var s2 := Iteration(f1, true, conv, e2);
    assert s2.raised && s2.fields == f1 && s2.events ==
      [HealthCheck(Down, false), Read(Returned(Some(text))), Insert(v, Raised(AttributeError))];
    RunAfterStep(f1, true, conv, all[1..], s2);
  }
}
