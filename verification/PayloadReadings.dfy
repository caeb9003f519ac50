/**
 * What a reader finds in a whole control payload: `ControlPayload` in
 * apps/reb-native-vm-fixture/main.cpp.
 */
module PayloadReadings {
  import opened Outcomes
  import opened Decimals
  import opened OwnedVm
  import opened NativeRecorder
  import opened HelperText
  import opened HelperControl
  import opened HelperProcess
  import opened HelperReadings
  import J = Json

  function ResultNamed(name: J.Json): Option<RecordResult> {
    if name == J.Quoted("recorded") then Some(Recorded)
    else if name == J.Quoted("stale_generation") then Some(StaleGeneration)
    else if name == J.Quoted("exhausted") then Some(Exhausted)
    else if name == J.Quoted("disabled") then Some(Disabled)
    else if name == J.Quoted("expired") then Some(Expired)
    else if name == J.Quoted("wrong_document") then Some(WrongDocument)
    else if name == J.Quoted("malformed") then Some(Malformed)
    else if name == J.Quoted("full") then Some(Full)
    else None
  }

  ghost predicate ShowsStats(j: J.Json, s: Stats) {
    && Says(j, "attempted", s.attempted) && Says(j, "recorded", s.recorded) && Says(j, "full", s.full)
    && Says(j, "malformed", s.malformed) && Says(j, "wrong_document", s.wrongDocument)
    && Says(j, "stale_generation", s.staleGeneration) && Says(j, "exhausted", s.exhausted)
    && Says(j, "expired", s.expired) && Says(j, "partial", s.partial)
  }

  /** What the payload says of the options. */
  ghost predicate ShowsScope(j: J.Json, o: Options) {
    && J.Get(j, "schema") == J.Quoted("reb-owned-vm-helper-v1")
    && J.Get(j, "fixture") == J.Quoted(if o.arch == Stack then "stack" else "register")
    && J.Get(j, "program_id") == J.Quoted(if o.arch == Stack then "owned-stack-v1" else "owned-register-v1")
    && J.Get(j, "fixture_revision") == J.Bare("1")
    && Says(j, "session_id", o.session) && Says(j, "document_id", o.document)
    && Says(j, "invocation_id", o.invocation) && Says(j, "run_generation", o.runGeneration)
  }

  /** The machine as it is now, and the step just recorded, if one was. */
  ghost predicate ShowsHelper(j: J.Json, h: Helper, state: string, result: Option<RecordResult>)
    requires PrintableHelper(h, result)
  {
    && J.Get(j, "state") == J.Quoted(state)
    && Says(j, "executed_count", h.fixture.executed) && Says(j, "retained_count", h.recorder.stats.recorded)
    && ShowsSnapshot(J.Get(j, "snapshot"), h.fixture.state)
    && (if result == Some(Recorded)
        then ShowsEntry(J.Get(j, "transition"), h.recorder.entries[|h.recorder.entries| - 1])
        else J.Get(j, "transition") == J.Bare("null"))
    && (if result.Some? then ResultNamed(J.Get(j, "recorder_result")) == result
        else J.Get(j, "recorder_result") == J.Bare("null"))
    && ShowsStats(J.Get(j, "stats"), h.recorder.stats)
    && J.Get(j, "tick_units") == J.Quoted("monotonic-nanoseconds")
  }

  // The value the text writes.

  const STATS_NAMES: seq<string> :=
    ["attempted", "recorded", "full", "malformed", "wrong_document", "stale_generation", "exhausted", "expired",
     "partial"]

  function StatsFields(s: Stats): seq<J.Field> {
    J.Fields(STATS_NAMES,
             [NumberJson(s.attempted), NumberJson(s.recorded), NumberJson(s.full), NumberJson(s.malformed),
              NumberJson(s.wrongDocument), NumberJson(s.staleGeneration), NumberJson(s.exhausted),
              NumberJson(s.expired), NumberJson(s.partial)])
  }

  function Fixture(o: Options): string { if o.arch.Stack? then "stack" else "register" }

  function Program(o: Options): string { if o.arch.Stack? then "owned-stack-v1" else "owned-register-v1" }

  function TransitionJson(h: Helper, result: Option<RecordResult>): J.Json
    requires PrintableHelper(h, result)
  {
    if result == Some(Recorded) then EntryJson(h.recorder.entries[|h.recorder.entries| - 1]) else J.Bare("null")
  }

  function ResultJson(result: Option<RecordResult>): J.Json {
    if result.Some? then J.Quoted(ResultText(result.value)) else J.Bare("null")
  }

  /** The names of the fields, in the order they are printed. */
  const NAMES: seq<string> :=
    ["schema", "fixture", "program_id", "fixture_revision", "session_id", "document_id", "invocation_id",
     "run_generation", "state", "executed_count", "retained_count", "snapshot", "transition", "recorder_result",
     "stats", "tick_units"]

  function ScopeValues(o: Options): seq<J.Json> {
    [J.Quoted(SCHEMA), J.Quoted(Fixture(o)), J.Quoted(Program(o)), J.Bare("1"),
     NumberJson(o.session), NumberJson(o.document), NumberJson(o.invocation), NumberJson(o.runGeneration)]
  }

  function HelperValues(h: Helper, state: string, result: Option<RecordResult>): seq<J.Json>
    requires PrintableHelper(h, result)
  {
    [J.Quoted(state), NumberJson(h.fixture.executed), NumberJson(h.recorder.stats.recorded),
     SnapshotJson(h.fixture.state), TransitionJson(h, result), ResultJson(result),
     J.Record(StatsFields(h.recorder.stats)), J.Quoted(UNIT)]
  }

  function PayloadValues(o: Options, h: Helper, state: string, result: Option<RecordResult>): (values: seq<J.Json>)
    requires PrintableHelper(h, result)
    ensures |values| == |NAMES|
  {
    ScopeValues(o) + HelperValues(h, state, result)
  }

  const SCHEMA := "reb-owned-vm-helper-v1"
  const UNIT := "monotonic-nanoseconds"

  function PayloadFields(o: Options, h: Helper, state: string, result: Option<RecordResult>): seq<J.Field>
    requires PrintableHelper(h, result)
  {
    J.Fields(NAMES, PayloadValues(o, h, state, result))
  }

  function PayloadJson(o: Options, h: Helper, state: string, result: Option<RecordResult>): J.Json
    requires PrintableHelper(h, result)
  {
    J.Record(PayloadFields(o, h, state, result))
  }

  // The text is that value.

  lemma ProgramLinks()
    ensures "" + J.Opening("schema", "\"") == "{\"schema\":\"" && J.Link("\"", "fixture", "\"") == "\",\"fixture\":\""
    ensures J.Link("\"", "program_id", "\"") == "\",\"program_id\":\""
    ensures J.Link("\"", "fixture_revision", "") == "\",\"fixture_revision\":"
  {
  }

  lemma SchemaText()
    ensures "{\"schema\":\"" + SCHEMA + "\",\"fixture\":\"" == "{\"schema\":\"reb-owned-vm-helper-v1\",\"fixture\":\""
  {
  }

  lemma ProgramIsWritten(fields: seq<J.Field>, o: Options)
    requires |fields| == 16
    requires fields[0] == Name("schema", SCHEMA) && fields[1] == Name("fixture", Fixture(o))
    requires fields[2] == Name("program_id", Program(o)) && fields[3] == J.Field("fixture_revision", J.Bare("1"))
    ensures J.Written("", fields, 4, ProgramText(o), "")
  {
    ProgramLinks();
    var fixture, program := Fixture(o), Program(o);
    QuotedText(SCHEMA);
    QuotedText(fixture);
    QuotedText(program);
    BareText("1");
    hide J.Render, J.Written, J.Opening, J.Link;
    var t := "{\"schema\":\"" + SCHEMA;
    J.Begins("", fields, "{\"schema\":\"", "\"", SCHEMA, "\"");
    J.Continues("", fields, 1, t, "\"", "\",\"fixture\":\"", "\"", fixture, "\"");
    t := t + "\",\"fixture\":\"" + fixture;
    J.Continues("", fields, 2, t, "\"", "\",\"program_id\":\"", "\"", program, "\"");
    t := t + "\",\"program_id\":\"" + program;
    J.Continues("", fields, 3, t, "\"", "\",\"fixture_revision\":", "", "1", "");
    SchemaText();
    Splits(t, "\",\"fixture_revision\":", "1", "\",\"fixture_revision\":1");
  }

  lemma ScopeLinks()
    ensures J.Link("", "session_id", "\"") == ",\"session_id\":\""
    ensures J.Link("\"", "document_id", "\"") == "\",\"document_id\":\""
    ensures J.Link("\"", "invocation_id", "\"") == "\",\"invocation_id\":\""
    ensures J.Link("\"", "run_generation", "\"") == "\",\"run_generation\":\""
  {
  }

  /** One more quoted field behind `front` and the text of the fields since. */
  lemma QuotedFollows(before: string, fields: seq<J.Field>, k: nat, front: string, since: string, end: string,
                      link: string, text: string)
    requires 0 < k < |fields| && J.Written(before, fields, k, front + since, end)
    requires fields[k].value == J.Quoted(text) && link == J.Link(end, fields[k].name, "\"")
    ensures J.Written(before, fields, k + 1, front + (since + link + text), "\"")
  {
    QuotedText(text);
    J.Continues(before, fields, k, front + since, end, link, "\"", text, "\"");
    hide J.Written, J.Link, J.Render;
    assert front + since + link + text == front + (since + link + text);
  }

  lemma ScopeIsWritten(fields: seq<J.Field>, front: string, o: Options)
    requires |fields| == 16 && J.Written("", fields, 4, front, "")
    requires fields[4] == Number("session_id", o.session) && fields[5] == Number("document_id", o.document)
    requires fields[6] == Number("invocation_id", o.invocation)
    requires fields[7] == Number("run_generation", o.runGeneration)
    ensures J.Written("", fields, 8, front + ScopeText(o), "\"")
  {
    ScopeLinks();
    var session, document := Text(o.session), Text(o.document);
    var invocation, generation := Text(o.invocation), Text(o.runGeneration);
    hide J.Written, J.Link, Text;
    assert front + "" == front && "" + ",\"session_id\":\"" == ",\"session_id\":\"";
    QuotedFollows("", fields, 4, front, "", "", ",\"session_id\":\"", session);
    var t := ",\"session_id\":\"" + session;
    QuotedFollows("", fields, 5, front, t, "\"", "\",\"document_id\":\"", document);
    t := t + "\",\"document_id\":\"" + document;
    Splits(t, "\",\"invocation_id\":\"", "", "\",\"invocation_id\":\"");
    QuotedFollows("", fields, 6, front, t, "\"", "\",\"invocation_id\":\"", invocation);
    t := t + "\",\"invocation_id\":\"" + invocation;
    QuotedFollows("", fields, 7, front, t, "\"", "\",\"run_generation\":\"", generation);
  }

  lemma ProgressLinks()
    ensures J.Link("\"", "state", "\"") == "\",\"state\":\""
    ensures J.Link("\"", "executed_count", "\"") == "\",\"executed_count\":\""
    ensures J.Link("\"", "retained_count", "\"") == "\",\"retained_count\":\""
    ensures J.Link("\"", "snapshot", "") == "\",\"snapshot\":"
  {
  }

  lemma ProgressIsWritten(fields: seq<J.Field>, front: string, h: Helper, state: string, snapshot: string)
    requires |fields| == 16 && J.Written("", fields, 8, front, "\"")
    requires fields[8] == Name("state", state) && fields[9] == Number("executed_count", h.fixture.executed)
    requires fields[10] == Number("retained_count", h.recorder.stats.recorded)
    requires fields[11].name == "snapshot" && J.Render(fields[11].value) == snapshot
    ensures J.Written("", fields, 12, front + ProgressText(h, state) + snapshot, "")
  {
    ProgressLinks();
    var executed, retained := Text(h.fixture.executed), Text(h.recorder.stats.recorded);
    assert snapshot == "" + snapshot + "";
    hide J.Written, J.Link, Text, J.Render;
    assert front + "" == front && "" + "\",\"state\":\"" == "\",\"state\":\"";
    QuotedFollows("", fields, 8, front, "", "\"", "\",\"state\":\"", state);
    var t := "\",\"state\":\"" + state;
    QuotedFollows("", fields, 9, front, t, "\"", "\",\"executed_count\":\"", executed);
    t := t + "\",\"executed_count\":\"" + executed;
    QuotedFollows("", fields, 10, front, t, "\"", "\",\"retained_count\":\"", retained);
    t := t + "\",\"retained_count\":\"" + retained;
    J.Continues("", fields, 11, front + t, "\"", "\",\"snapshot\":", "", snapshot, "");
    Splits(front, t, "\",\"snapshot\":", t + "\",\"snapshot\":");
  }

  lemma CounterLinks()
    ensures ",\"stats\":" + J.Opening("attempted", "\"") == ",\"stats\":{\"attempted\":\""
    ensures J.Link("\"", "recorded", "\"") == "\",\"recorded\":\"" && J.Link("\"", "full", "\"") == "\",\"full\":\""
  {
  }

  lemma MoreCounterLinks()
    ensures J.Link("\"", "malformed", "\"") == "\",\"malformed\":\""
    ensures J.Link("\"", "wrong_document", "\"") == "\",\"wrong_document\":\""
  {
  }

  lemma LossLinks()
    ensures J.Link("\"", "stale_generation", "\"") == "\",\"stale_generation\":\""
    ensures J.Link("\"", "exhausted", "\"") == "\",\"exhausted\":\""
    ensures J.Link("\"", "expired", "\"") == "\",\"expired\":\""
    ensures J.Link("\"", "partial", "\"") == "\",\"partial\":\""
  {
  }

  lemma CountersAreWritten(fields: seq<J.Field>, s: Stats)
    requires CounterFields(fields, s)
    ensures J.Written(",\"stats\":", fields, 5, CountersText(s), "\"")
  {
    var before := ",\"stats\":";
    CounterLinks();
    MoreCounterLinks();
    QuotedText(Text(s.attempted));
    hide J.Written, J.Link, J.Opening, J.Render, Text;
    J.Begins(before, fields, ",\"stats\":{\"attempted\":\"", "\"", Text(s.attempted), "\"");
    var t := ",\"stats\":{\"attempted\":\"" + Text(s.attempted);
    QuotedContinues(before, fields, 1, t, "\",\"recorded\":\"", Text(s.recorded));
    t := t + "\",\"recorded\":\"" + Text(s.recorded);
    QuotedContinues(before, fields, 2, t, "\",\"full\":\"", Text(s.full));
    t := t + "\",\"full\":\"" + Text(s.full);
    QuotedContinues(before, fields, 3, t, "\",\"malformed\":\"", Text(s.malformed));
    t := t + "\",\"malformed\":\"" + Text(s.malformed);
    QuotedContinues(before, fields, 4, t, "\",\"wrong_document\":\"", Text(s.wrongDocument));
  }

  predicate CounterFields(fields: seq<J.Field>, s: Stats) {
    && |fields| == 9 && fields[0] == Number("attempted", s.attempted) && fields[1] == Number("recorded", s.recorded)
    && fields[2] == Number("full", s.full) && fields[3] == Number("malformed", s.malformed)
    && fields[4] == Number("wrong_document", s.wrongDocument)
  }

  predicate LossFields(fields: seq<J.Field>, s: Stats) {
    && |fields| == 9 && fields[5] == Number("stale_generation", s.staleGeneration)
    && fields[6] == Number("exhausted", s.exhausted) && fields[7] == Number("expired", s.expired)
    && fields[8] == Number("partial", s.partial)
  }

  lemma StatsFieldsAre(s: Stats)
    ensures CounterFields(StatsFields(s), s) && LossFields(StatsFields(s), s)
  {
    hide NumberJson;
  }

  lemma QuotedContinues(before: string, fields: seq<J.Field>, k: nat, sofar: string, link: string, text: string)
    requires 0 < k < |fields| && J.Written(before, fields, k, sofar, "\"")
    requires fields[k].value == J.Quoted(text) && link == J.Link("\"", fields[k].name, "\"")
    ensures J.Written(before, fields, k + 1, sofar + link + text, "\"")
  {
    QuotedText(text);
    J.Continues(before, fields, k, sofar, "\"", link, "\"", text, "\"");
  }

  /** The four counters of lost records, without the end of the text. */
  function LossHead(s: Stats): string {
    "\",\"stale_generation\":\"" + Text(s.staleGeneration) + "\",\"exhausted\":\"" + Text(s.exhausted)
    + "\",\"expired\":\"" + Text(s.expired) + "\",\"partial\":\"" + Text(s.partial)
  }

  lemma LossIsWritten(fields: seq<J.Field>, s: Stats, front: string)
    requires LossFields(fields, s) && J.Written(",\"stats\":", fields, 5, front, "\"")
    ensures J.Written(",\"stats\":", fields, 9, front + LossHead(s), "\"")
  {
    var before := ",\"stats\":";
    LossLinks();
    hide J.Written, J.Link, Text;
    assert front + "" == front && "" + "\",\"stale_generation\":\"" == "\",\"stale_generation\":\"";
    QuotedFollows(before, fields, 5, front, "", "\"", "\",\"stale_generation\":\"", Text(s.staleGeneration));
    var t := "\",\"stale_generation\":\"" + Text(s.staleGeneration);
    QuotedFollows(before, fields, 6, front, t, "\"", "\",\"exhausted\":\"", Text(s.exhausted));
    t := t + "\",\"exhausted\":\"" + Text(s.exhausted);
    QuotedFollows(before, fields, 7, front, t, "\"", "\",\"expired\":\"", Text(s.expired));
    t := t + "\",\"expired\":\"" + Text(s.expired);
    QuotedFollows(before, fields, 8, front, t, "\"", "\",\"partial\":\"", Text(s.partial));
  }

  const UNITS := ",\"tick_units\":\"monotonic-nanoseconds\"}"

  lemma EndText()
    ensures "\"}" + UNITS == "\"},\"tick_units\":\"monotonic-nanoseconds\"}"
  {
  }

  lemma LossTextEnds(s: Stats)
    ensures LossText(s) == LossHead(s) + ("\"}" + UNITS)
  {
    EndText();
    hide Text, UNITS;
  }

  lemma StatsAreWritten(s: Stats)
    ensures CountersText(s) + LossText(s) == ",\"stats\":" + J.Render(J.Record(StatsFields(s))) + UNITS
  {
    var fields := StatsFields(s);
    StatsFieldsAre(s);
    hide J.Written, J.Render, J.Record, CountersText, LossText, LossHead, StatsFields, CounterFields, LossFields, UNITS;
    CountersAreWritten(fields, s);
    LossIsWritten(fields, s, CountersText(s));
    LossTextEnds(s);
    assert |fields| == 9 by { NineFields(fields, s); }
    J.Ends(",\"stats\":", fields, CountersText(s) + LossHead(s), "\"", "\"}");
    J.Regroups(CountersText(s), LossHead(s), "\"}", UNITS);
  }

  lemma NineFields(fields: seq<J.Field>, s: Stats)
    requires CounterFields(fields, s)
    ensures |fields| == 9
  {
  }

  lemma TailLinks()
    ensures J.Link("", "transition", "") == ",\"transition\":"
    ensures J.Link("", "recorder_result", "") == ",\"recorder_result\":"
  {
  }

  lemma EndLinks()
    ensures J.Link("", "stats", "") == ",\"stats\":" && J.Link("", "tick_units", "\"") == ",\"tick_units\":\""
  {
  }

  lemma UnitsEnd(t: string)
    ensures t + ",\"tick_units\":\"" + UNIT + "\"}" == t + UNITS
  {
    assert ",\"tick_units\":\"" + (UNIT + "\"}") == UNITS;
    J.Regroups(t, ",\"tick_units\":\"", UNIT, "\"}");
  }

  lemma TailFollows(fields: seq<J.Field>, front: string, transition: string, result: string, stats: string)
    requires |fields| == 16 && J.Written("", fields, 12, front, "")
    requires fields[12].name == "transition" && J.Render(fields[12].value) == transition
    requires fields[13].name == "recorder_result" && J.Render(fields[13].value) == result
    requires fields[14].name == "stats" && J.Render(fields[14].value) == stats
    requires fields[15] == Name("tick_units", UNIT)
    ensures J.Render(J.Record(fields))
         == front + ",\"transition\":" + transition + ",\"recorder_result\":" + result
            + ",\"stats\":" + stats + UNITS
  {
    TailLinks();
    EndLinks();
    assert transition == "" + transition + "" && result == "" + result + "" && stats == "" + stats + "";
    QuotedText(UNIT);
    hide J.Render, J.Written, J.Link, J.Record, UNIT, UNITS;
    J.Continues("", fields, 12, front, "", ",\"transition\":", "", transition, "");
    var t := front + ",\"transition\":" + transition;
    J.Continues("", fields, 13, t, "", ",\"recorder_result\":", "", result, "");
    t := t + ",\"recorder_result\":" + result;
    J.Continues("", fields, 14, t, "", ",\"stats\":", "", stats, "");
    t := t + ",\"stats\":" + stats;
    J.Continues("", fields, 15, t, "", ",\"tick_units\":\"", "\"", UNIT, "\"");
    J.Ends("", fields, t + ",\"tick_units\":\"" + UNIT, "\"", "\"}");
    UnitsEnd(t);
  }

  lemma OutcomeIsWritten(result: Option<RecordResult>)
    ensures OutcomeText(result) == ",\"recorder_result\":" + J.Render(ResultJson(result))
  {
  }

  lemma TransitionIsWritten(h: Helper, result: Option<RecordResult>)
    requires PrintableHelper(h, result)
    ensures TransitionText(h, result) == J.Render(TransitionJson(h, result))
  {
    if result == Some(Recorded) {
      EntryIsWritten(h.recorder.entries[|h.recorder.entries| - 1]);
      hide EntryText, EntryJson, J.Render;
    }
  }

  lemma ProgramFields(o: Options, h: Helper, state: string, result: Option<RecordResult>)
    requires PrintableHelper(h, result)
    ensures var fields := PayloadFields(o, h, state, result);
            && |fields| == 16 && fields[0] == Name("schema", SCHEMA) && fields[1] == Name("fixture", Fixture(o))
            && fields[2] == Name("program_id", Program(o)) && fields[3] == J.Field("fixture_revision", J.Bare("1"))
  {
    hide HelperValues, NumberJson, Fixture, Program, SCHEMA, UNIT;
  }

  lemma ScopeFields(o: Options, h: Helper, state: string, result: Option<RecordResult>)
    requires PrintableHelper(h, result)
    ensures var fields := PayloadFields(o, h, state, result);
            && |fields| == 16
            && fields[4] == Number("session_id", o.session) && fields[5] == Number("document_id", o.document)
            && fields[6] == Number("invocation_id", o.invocation)
            && fields[7] == Number("run_generation", o.runGeneration)
  {
    hide HelperValues, NumberJson, Fixture, Program, SCHEMA, UNIT;
  }

  lemma ProgressFields(o: Options, h: Helper, state: string, result: Option<RecordResult>)
    requires PrintableHelper(h, result)
    ensures var fields := PayloadFields(o, h, state, result);
            && |fields| == 16 && fields[8] == Name("state", state)
                && fields[9] == Number("executed_count", h.fixture.executed)
            && fields[10] == Number("retained_count", h.recorder.stats.recorded)
            && fields[11] == J.Field("snapshot", SnapshotJson(h.fixture.state))
  {
    hide SnapshotJson, TransitionJson, ResultJson, StatsFields, J.Record, NumberJson, Fixture, Program, SCHEMA, UNIT;
  }

  lemma HeadPartIsWritten(o: Options, h: Helper, state: string, result: Option<RecordResult>)
    requires PrintableHelper(h, result)
    ensures J.Written("", PayloadFields(o, h, state, result), 12,
                      HeadPart(o, h, state) + SnapshotText(h.fixture.state), "")
  {
    hide J.Written, J.Render, SnapshotText, SnapshotJson, Text, NAMES, SCHEMA, Name, Number, PayloadValues;
    hide ProgramText, ScopeText, ProgressText, Fixture, Program, PayloadFields;
    var fields := PayloadFields(o, h, state, result);
    SnapshotIsWritten(h.fixture.state);
    ProgramFields(o, h, state, result);
    ScopeFields(o, h, state, result);
    ProgressFields(o, h, state, result);
    ProgramIsWritten(fields, o);
    ScopeIsWritten(fields, ProgramText(o), o);
    ProgressIsWritten(fields, ProgramText(o) + ScopeText(o), h, state, SnapshotText(h.fixture.state));
  }

  lemma TailFields(o: Options, h: Helper, state: string, result: Option<RecordResult>)
    requires PrintableHelper(h, result)
    ensures var fields := PayloadFields(o, h, state, result);
            && |fields| == 16 && fields[12] == J.Field("transition", TransitionJson(h, result))
            && fields[13] == J.Field("recorder_result", ResultJson(result))
            && fields[14] == J.Field("stats", J.Record(StatsFields(h.recorder.stats)))
            && fields[15] == Name("tick_units", UNIT)
  {
    hide SnapshotJson, TransitionJson, ResultJson, StatsFields, J.Record, NumberJson, Fixture, Program, SCHEMA, UNIT;
  }

  lemma PayloadIsWritten(o: Options, h: Helper, state: string, result: Option<RecordResult>)
    requires PrintableHelper(h, result)
    ensures PayloadText(o, h, state, result) == J.Render(PayloadJson(o, h, state, result))
  {
    hide J.Written, J.Render, J.Record, SnapshotText, SnapshotJson, TransitionJson, TransitionText, ResultJson;
    hide StatsFields, HeadPart, OutcomeText, CountersText, LossText, UNIT, UNITS, PayloadFields;
    var fields, stats := PayloadFields(o, h, state, result), J.Render(J.Record(StatsFields(h.recorder.stats)));
    var front := HeadPart(o, h, state) + SnapshotText(h.fixture.state);
    var transition, outcome := TransitionText(h, result), J.Render(ResultJson(result));
    HeadPartIsWritten(o, h, state, result);
    TailFields(o, h, state, result);
    TransitionIsWritten(h, result);
    StatsAreWritten(h.recorder.stats);
    OutcomeIsWritten(result);
    TailFollows(fields, front, transition, outcome, stats);
    TailRegroups(front + ",\"transition\":" + transition, OutcomeText(result), CountersText(h.recorder.stats),
        LossText(h.recorder.stats), ",\"recorder_result\":", outcome, ",\"stats\":", stats, UNITS);
  }

  lemma TailRegroups(t: string, a: string, b: string, c: string, p: string, x: string, q: string, y: string, z: string)
    requires a == p + x && b + c == q + y + z
    ensures t + (a + b + c) == t + p + x + q + y + z
  {
    J.Regroups("", a, b, c);
    J.Regroups(t, p, x, b + c);
    J.Regroups(t + p + x, q, y, z);
    J.Regroups("", q, y, z);
    assert "" + a + b + c == a + b + c && "" + q + y + z == q + y + z;
    assert "" + (a + (b + c)) == a + (b + c);
  }

  // Reading it.

  lemma StatsNames()
    ensures forall i | 0 <= i < 9 :: J.Plain(STATS_NAMES[i])
    ensures forall i, k | 0 <= i < k < 9 :: STATS_NAMES[i] != STATS_NAMES[k]
  {
  }

  lemma StatsAreClean(s: Stats)
    ensures J.Clean(J.Record(StatsFields(s)))
  {
    StatsNames();
    forall n ensures J.Clean(NumberJson(n)) { NumberIsClean(n); }
    hide J.Clean, J.Plain, J.Fields, J.Record, NumberJson, STATS_NAMES;
    J.CleanRecord(StatsFields(s));
  }

  lemma RestIsClean(h: Helper, result: Option<RecordResult>)
    requires PrintableHelper(h, result)
    ensures J.Clean(TransitionJson(h, result)) && J.Clean(ResultJson(result))
  {
    hide EntryJson;
    if result == Some(Recorded) {
      EntryIsClean(h.recorder.entries[|h.recorder.entries| - 1]);
    }
    assert J.Clean(J.Bare("null"));
    if result.Some? {
      ResultIsClean(result.value);
    }
    hide J.Clean, ResultText;
  }

  lemma ResultIsClean(r: RecordResult)
    ensures J.Clean(J.Quoted(ResultText(r)))
  {
  }

  lemma NamesArePlain()
    ensures forall i | 0 <= i < 16 :: J.Plain(NAMES[i])
  {
    FirstNamesArePlain();
    LastNamesArePlain();
    hide J.Plain;
  }

  lemma FirstNamesArePlain()
    ensures forall i | 0 <= i < 8 :: J.Plain(NAMES[i])
  {
  }

  lemma LastNamesArePlain()
    ensures forall i | 8 <= i < 16 :: J.Plain(NAMES[i])
  {
  }

  lemma NamesDiffer()
    ensures forall i, k | 0 <= i < k < 16 :: NAMES[i] != NAMES[k]
  {
  }

  lemma ProgramIsClean(o: Options)
    ensures J.Clean(J.Quoted(Fixture(o))) && J.Clean(J.Quoted(Program(o)))
  {
  }

  lemma ConstantsAreClean()
    ensures J.Clean(J.Quoted(SCHEMA)) && J.Clean(J.Bare("1")) && J.Clean(J.Quoted(UNIT))
  {
  }

  lemma ScopeIsClean(o: Options)
    ensures forall i | 0 <= i < 8 :: J.Clean(ScopeValues(o)[i])
  {
    hide NumberJson, J.Clean, Fixture, Program, SCHEMA;
    ConstantsAreClean();
    ProgramIsClean(o);
    forall n ensures J.Clean(NumberJson(n)) { NumberIsClean(n); }
  }

  lemma HelperIsClean(h: Helper, state: string, result: Option<RecordResult>)
    requires PrintableHelper(h, result) && J.Plain(state)
    ensures forall i | 0 <= i < 8 :: J.Clean(HelperValues(h, state, result)[i])
  {
    assert J.Clean(J.Quoted(state));
    hide NumberJson, SnapshotJson, TransitionJson, ResultJson, StatsFields, J.Record, J.Clean, J.Plain, UNIT;
    hide PrintableStep, Printable;
    ConstantsAreClean();
    NumberIsClean(h.fixture.executed);
    NumberIsClean(h.recorder.stats.recorded);
    StatsAreClean(h.recorder.stats);
    RestIsClean(h, result);
    SnapshotIsClean(h.fixture.state);
  }

  lemma ValuesAreClean(o: Options, h: Helper, state: string, result: Option<RecordResult>)
    requires PrintableHelper(h, result) && J.Plain(state)
    ensures forall i | 0 <= i < 16 :: J.Clean(PayloadValues(o, h, state, result)[i])
  {
    assert |ScopeValues(o)| == 8;
    ScopeIsClean(o);
    HelperIsClean(h, state, result);
    hide ScopeValues, HelperValues, J.Clean, J.Plain;
  }

  lemma PayloadIsClean(o: Options, h: Helper, state: string, result: Option<RecordResult>)
    requires PrintableHelper(h, result) && J.Plain(state)
    ensures J.Clean(PayloadJson(o, h, state, result))
  {
    NamesArePlain();
    ValuesAreClean(o, h, state, result);
    hide PayloadValues, J.Fields, J.Record, J.Clean, J.Plain, NAMES;
    J.CleanRecord(PayloadFields(o, h, state, result));
  }

  lemma StatsAreShown(s: Stats)
    ensures ShowsStats(J.Record(StatsFields(s)), s)
  {
    var j, fields := J.Record(StatsFields(s)), StatsFields(s);
    StatsNames();
    StatsFieldsAre(s);
    hide J.Get, J.Record, J.Fields, NumberJson, Says, STATS_NAMES;
    FieldsAreHeld(fields);
    NumberIsSaid(j, "attempted", s.attempted);
    NumberIsSaid(j, "recorded", s.recorded);
    NumberIsSaid(j, "full", s.full);
    NumberIsSaid(j, "malformed", s.malformed);
    NumberIsSaid(j, "wrong_document", s.wrongDocument);
    NumberIsSaid(j, "stale_generation", s.staleGeneration);
    NumberIsSaid(j, "exhausted", s.exhausted);
    NumberIsSaid(j, "expired", s.expired);
    NumberIsSaid(j, "partial", s.partial);
  }

  lemma PartsOfPayload(o: Options, h: Helper, state: string, result: Option<RecordResult>, k: nat, name: string)
    requires PrintableHelper(h, result) && k < 16 && NAMES[k] == name
    ensures J.Get(PayloadJson(o, h, state, result), name) == PayloadValues(o, h, state, result)[k]
  {
    NamesDiffer();
    assert |NAMES| == 16;
    hide PayloadValues, J.Fields, J.Record, J.Get, NAMES;
    J.NamedValue(NAMES, PayloadValues(o, h, state, result), k);
  }

  lemma ProgramParts(o: Options, h: Helper, state: string, result: Option<RecordResult>)
    requires PrintableHelper(h, result)
    ensures var j := PayloadJson(o, h, state, result);
            && J.Get(j, "schema") == J.Quoted(SCHEMA) && J.Get(j, "fixture") == J.Quoted(Fixture(o))
            && J.Get(j, "program_id") == J.Quoted(Program(o)) && J.Get(j, "fixture_revision") == J.Bare("1")
  {
    hide PayloadJson, J.Get, NumberJson, SnapshotJson, TransitionJson, ResultJson, StatsFields, J.Record;
    hide Fixture, Program, SCHEMA, UNIT;
    PartsOfPayload(o, h, state, result, 0, "schema");
    PartsOfPayload(o, h, state, result, 1, "fixture");
    PartsOfPayload(o, h, state, result, 2, "program_id");
    PartsOfPayload(o, h, state, result, 3, "fixture_revision");
  }

  lemma ScopeParts(o: Options, h: Helper, state: string, result: Option<RecordResult>)
    requires PrintableHelper(h, result)
    ensures var j := PayloadJson(o, h, state, result);
            && J.Get(j, "session_id") == NumberJson(o.session) && J.Get(j, "document_id") == NumberJson(o.document)
            && J.Get(j, "invocation_id") == NumberJson(o.invocation)
            && J.Get(j, "run_generation") == NumberJson(o.runGeneration)
  {
    hide PayloadJson, J.Get, NumberJson, SnapshotJson, TransitionJson, ResultJson, StatsFields, J.Record;
    hide Fixture, Program, SCHEMA, UNIT;
    PartsOfPayload(o, h, state, result, 4, "session_id");
    PartsOfPayload(o, h, state, result, 5, "document_id");
    PartsOfPayload(o, h, state, result, 6, "invocation_id");
    PartsOfPayload(o, h, state, result, 7, "run_generation");
  }

  lemma HelperParts(o: Options, h: Helper, state: string, result: Option<RecordResult>)
    requires PrintableHelper(h, result)
    ensures var j := PayloadJson(o, h, state, result);
            && J.Get(j, "state") == J.Quoted(state) && J.Get(j, "executed_count") == NumberJson(h.fixture.executed)
            && J.Get(j, "retained_count") == NumberJson(h.recorder.stats.recorded)
            && J.Get(j, "snapshot") == SnapshotJson(h.fixture.state)
            && J.Get(j, "transition") == TransitionJson(h, result)
            && J.Get(j, "recorder_result") == ResultJson(result)
            && J.Get(j, "stats") == J.Record(StatsFields(h.recorder.stats))
            && J.Get(j, "tick_units") == J.Quoted(UNIT)
  {
    hide PayloadJson, J.Get, NumberJson, SnapshotJson, TransitionJson, ResultJson, StatsFields, J.Record;
    hide Fixture, Program, SCHEMA, UNIT;
    PartsOfPayload(o, h, state, result, 8, "state");
    PartsOfPayload(o, h, state, result, 9, "executed_count");
    PartsOfPayload(o, h, state, result, 10, "retained_count");
    PartsOfPayload(o, h, state, result, 11, "snapshot");
    PartsOfPayload(o, h, state, result, 12, "transition");
    PartsOfPayload(o, h, state, result, 13, "recorder_result");
    PartsOfPayload(o, h, state, result, 14, "stats");
    PartsOfPayload(o, h, state, result, 15, "tick_units");
  }

  lemma ScopeIsShown(o: Options, h: Helper, state: string, result: Option<RecordResult>)
    requires PrintableHelper(h, result)
    ensures ShowsScope(PayloadJson(o, h, state, result), o)
  {
    var j := PayloadJson(o, h, state, result);
    hide PayloadJson, J.Get, NumberJson, Says;
    ProgramParts(o, h, state, result);
    ScopeParts(o, h, state, result);
    NumberIsSaid(j, "session_id", o.session);
    NumberIsSaid(j, "document_id", o.document);
    NumberIsSaid(j, "invocation_id", o.invocation);
    NumberIsSaid(j, "run_generation", o.runGeneration);
  }

  lemma ResultIsNamed(r: RecordResult)
    ensures ResultNamed(J.Quoted(ResultText(r))) == Some(r)
  {
  }

  lemma HelperIsShown(o: Options, h: Helper, state: string, result: Option<RecordResult>)
    requires PrintableHelper(h, result)
    ensures ShowsHelper(PayloadJson(o, h, state, result), h, state, result)
  {
    var j := PayloadJson(o, h, state, result);
    HelperParts(o, h, state, result);
    hide PayloadJson, J.Get, NumberJson, Says, SnapshotJson, ShowsSnapshot, ShowsEntry, EntryJson, StatsFields;
    hide J.Record, ShowsStats, ResultNamed, ResultText;
    NumberIsSaid(j, "executed_count", h.fixture.executed);
    NumberIsSaid(j, "retained_count", h.recorder.stats.recorded);
    SnapshotIsShown(h.fixture.state);
    StatsAreShown(h.recorder.stats);
    if result == Some(Recorded) {
      EntryIsShown(h.recorder.entries[|h.recorder.entries| - 1]);
    }
    if result.Some? {
      ResultIsNamed(result.value);
    }
  }

  /**
   * Every control payload is one JSON value, and its fields say whose session it is, the
   * state of the reply, the machine, the counters, and the step just recorded, if one was.
   */
  lemma PayloadIsReadable(o: Options, h: Helper, state: string, result: Option<RecordResult>)
    requires PrintableHelper(h, result) && J.Plain(state)
    ensures J.Whole(PayloadText(o, h, state, result)).Some?
    ensures var j := J.Whole(PayloadText(o, h, state, result)).value;
            ShowsScope(j, o) && ShowsHelper(j, h, state, result)
  {
    PayloadIsWritten(o, h, state, result);
    PayloadIsClean(o, h, state, result);
    J.WholeReadsBack(PayloadJson(o, h, state, result));
    ScopeIsShown(o, h, state, result);
    HelperIsShown(o, h, state, result);
    hide ShowsScope, ShowsHelper, PayloadJson, PayloadText, J.Whole, J.Render, J.Clean, J.Plain;
  }
}
