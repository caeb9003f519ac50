/**
 * What a reader finds in the helper's payloads (apps/reb-native-vm-fixture/main.cpp):
 * the printed text is one JSON value, and each of its fields holds the number, name or
 * list the process had.
 */
module HelperReadings {
  import opened Outcomes
  import opened Decimals
  import opened OwnedVm
  import opened NativeRecorder
  import opened HelperText
  import J = Json

  // The reader's side: what a JSON value says.

  ghost predicate Says(j: J.Json, name: string, n: nat) {
    && J.Get(j, name).Quoted? && AllDigits(J.Get(j, name).text) && ValueOf(J.Get(j, name).text) == n
  }

  predicate SaysFlag(j: J.Json, name: string, flag: bool) {
    J.Get(j, name) == J.Bare(if flag then "true" else "false")
  }

  function EvidenceNamed(name: J.Json): Option<Evidence> {
    if name == J.Quoted("observed") then Some(Observed)
    else if name == J.Quoted("inferred") then Some(Inferred)
    else if name == J.Quoted("unknown") then Some(Unknown)
    else None
  }

  function PlaceNamed(name: J.Json): Option<Place> {
    if name == J.Quoted("immediate") then Some(Immediate)
    else if name == J.Quoted("register") then Some(Registers)
    else if name == J.Quoted("stack") then Some(StackSlots)
    else if name == J.Quoted("memory") then Some(Memory)
    else None
  }

  ghost predicate ShowsValue(j: J.Json, v: Value) {
    Says(j, "bits", v.bits) && EvidenceNamed(J.Get(j, "evidence")) == Some(v.evidence)
  }

  ghost predicate ShowsCell(j: J.Json, c: Cell) {
    Says(j, "guest_address", c.address) && ShowsValue(J.Get(j, "value"), c.value)
  }

  ghost predicate ShowsOperand(j: J.Json, o: Operand) {
    && PlaceNamed(J.Get(j, "location")) == Some(o.place) && Says(j, "index", o.index)
    && ShowsValue(J.Get(j, "value"), o.value)
  }

  ghost predicate ShowsEffect(j: J.Json, e: Effect) {
    && J.Get(j, "access") == J.Quoted(if e.access == Read then "read" else "write")
    && PlaceNamed(J.Get(j, "location")) == Some(e.place) && Says(j, "index", e.index)
    && ShowsValue(J.Get(j, "value"), e.value)
  }

  /** The active slots in order, and no others. */
  ghost predicate ShowsSnapshot(j: J.Json, s: Snapshot)
    requires Printable(s)
  {
    && Says(j, "pc", s.pc) && EvidenceNamed(J.Get(j, "pc_evidence")) == Some(s.pcEvidence)
    && SaysFlag(j, "partial", s.partial) && SaysFlag(j, "halted", s.halted)
    && var registers, stack, memory :=
         J.Elements(J.Get(j, "registers")), J.Elements(J.Get(j, "stack")), J.Elements(J.Get(j, "memory"));
       && |registers| == s.registerCount && |stack| == s.stackCount && |memory| == s.memoryCount
       && (forall i | 0 <= i < s.registerCount :: ShowsValue(registers[i], s.registers[i]))
       && (forall i | 0 <= i < s.stackCount :: ShowsValue(stack[i], s.stack[i]))
       && (forall i | 0 <= i < s.memoryCount :: ShowsCell(memory[i], s.memory[i]))
  }

  ghost predicate ShowsEntry(j: J.Json, e: Entry)
    requires PrintableStep(e.step)
  {
    && Says(j, "sequence", e.sequence) && Says(j, "tick", e.tick)
    && J.Get(j, "opcode").Bare? && AllDigits(J.Get(j, "opcode").word)
    && ValueOf(J.Get(j, "opcode").word) == e.step.opcode
    && EvidenceNamed(J.Get(j, "opcode_evidence")) == Some(e.step.opcodeEvidence)
    && SaysFlag(j, "partial", e.step.partial)
    && ShowsSnapshot(J.Get(j, "before"), e.step.before) && ShowsSnapshot(J.Get(j, "after"), e.step.after)
    && var operands, effects := J.Elements(J.Get(j, "operands")), J.Elements(J.Get(j, "effects"));
       && |operands| == e.step.operandCount && |effects| == e.step.effectCount
       && (forall i | 0 <= i < e.step.operandCount :: ShowsOperand(operands[i], e.step.operands[i]))
       && (forall i | 0 <= i < e.step.effectCount :: ShowsEffect(effects[i], e.step.effects[i]))
  }

  // The values the texts write.

  function NumberJson(n: nat): J.Json { J.Quoted(Text(n)) }

  function EvidenceJson(e: Evidence): J.Json { J.Quoted(EvidenceText(e)) }

  function FlagJson(flag: bool): J.Json { J.Bare(BoolText(flag)) }

  function Number(name: string, n: nat): J.Field { J.Field(name, NumberJson(n)) }

  function Name(name: string, text: string): J.Field { J.Field(name, J.Quoted(text)) }

  function ValueFields(v: Value): seq<J.Field> {
    [Number("bits", v.bits), J.Field("evidence", EvidenceJson(v.evidence))]
  }

  function ValueJson(v: Value): J.Json { J.Record(ValueFields(v)) }

  function CellFields(c: Cell): seq<J.Field> {
    [Number("guest_address", c.address), J.Field("value", ValueJson(c.value))]
  }

  function CellJson(c: Cell): J.Json { J.Record(CellFields(c)) }

  function OperandFields(o: Operand): seq<J.Field> {
    [Name("location", PlaceText(o.place)), Number("index", o.index), J.Field("value", ValueJson(o.value))]
  }

  function OperandJson(o: Operand): J.Json { J.Record(OperandFields(o)) }

  function EffectFields(e: Effect): seq<J.Field> {
    [Name("access", AccessText(e.access)), Name("location", PlaceText(e.place)), Number("index", e.index),
     J.Field("value", ValueJson(e.value))]
  }

  function EffectJson(e: Effect): J.Json { J.Record(EffectFields(e)) }

  function Mapped<T>(items: seq<T>, n: nat, json: T -> J.Json): (values: seq<J.Json>)
    requires n <= |items|
    ensures |values| == n && forall i | 0 <= i < n :: values[i] == json(items[i])
  {
    seq(n, i requires 0 <= i < n => json(items[i]))
  }

  const SNAPSHOT_NAMES: seq<string> := ["pc", "pc_evidence", "partial", "halted", "registers", "stack", "memory"]

  function SnapshotValues(s: Snapshot): seq<J.Json>
    requires Printable(s)
  {
    [NumberJson(s.pc), EvidenceJson(s.pcEvidence), FlagJson(s.partial), FlagJson(s.halted),
     J.List(Mapped(s.registers, s.registerCount, ValueJson)), J.List(Mapped(s.stack, s.stackCount, ValueJson)),
     J.List(Mapped(s.memory, s.memoryCount, CellJson))]
  }

  function SnapshotFields(s: Snapshot): seq<J.Field>
    requires Printable(s)
  {
    J.Fields(SNAPSHOT_NAMES, SnapshotValues(s))
  }

  function SnapshotJson(s: Snapshot): J.Json
    requires Printable(s)
  {
    J.Record(SnapshotFields(s))
  }

  const ENTRY_NAMES: seq<string> :=
    ["sequence", "tick", "opcode", "opcode_evidence", "partial", "operands", "effects", "before", "after"]

  function EntryValues(e: Entry): seq<J.Json>
    requires PrintableStep(e.step)
  {
    [NumberJson(e.sequence), NumberJson(e.tick), J.Bare(Text(e.step.opcode)), EvidenceJson(e.step.opcodeEvidence),
     FlagJson(e.step.partial), J.List(Mapped(e.step.operands, e.step.operandCount, OperandJson)),
     J.List(Mapped(e.step.effects, e.step.effectCount, EffectJson)), SnapshotJson(e.step.before),
     SnapshotJson(e.step.after)]
  }

  function EntryFields(e: Entry): seq<J.Field>
    requires PrintableStep(e.step)
  {
    J.Fields(ENTRY_NAMES, EntryValues(e))
  }

  function EntryJson(e: Entry): J.Json
    requires PrintableStep(e.step)
  {
    J.Record(EntryFields(e))
  }

  // They are clean: no quotation mark inside a text.

  lemma DigitsArePlain(s: string)
    requires AllDigits(s)
    ensures J.Plain(s) && (s != "" ==> J.Word(s))
  {
  }

  lemma NumberIsClean(n: nat)
    ensures J.Clean(NumberJson(n)) && J.Clean(J.Bare(Text(n)))
  {
    DigitsArePlain(Text(n));
  }

  lemma NamesAreClean(e: Evidence, p: Place, a: Access, b: bool)
    ensures J.Clean(EvidenceJson(e)) && J.Clean(J.Quoted(PlaceText(p)))
    ensures J.Clean(J.Quoted(AccessText(a))) && J.Clean(FlagJson(b))
  {
  }

  lemma ValueIsClean(v: Value)
    ensures J.Clean(ValueJson(v))
  {
    NumberIsClean(v.bits);
    NamesAreClean(v.evidence, Memory, Read, true);
    J.CleanRecord(ValueFields(v));
  }

  lemma PartsAreClean(c: Cell, o: Operand, e: Effect)
    ensures J.Clean(CellJson(c)) && J.Clean(OperandJson(o)) && J.Clean(EffectJson(e))
  {
    ValueIsClean(c.value);
    ValueIsClean(o.value);
    ValueIsClean(e.value);
    NumberIsClean(c.address);
    NumberIsClean(o.index);
    NumberIsClean(e.index);
    NamesAreClean(Observed, o.place, Read, true);
    NamesAreClean(Observed, e.place, e.access, true);
    hide Text, J.Clean, ValueJson, EvidenceText, PlaceText, AccessText;
    J.CleanRecord(CellFields(c));
    J.CleanRecord(OperandFields(o));
    J.CleanRecord(EffectFields(e));
  }

  lemma BanksAreClean(s: Snapshot)
    requires Printable(s)
    ensures J.Clean(J.List(Mapped(s.registers, s.registerCount, ValueJson)))
    ensures J.Clean(J.List(Mapped(s.stack, s.stackCount, ValueJson)))
    ensures J.Clean(J.List(Mapped(s.memory, s.memoryCount, CellJson)))
  {
    forall v ensures J.Clean(ValueJson(v)) { ValueIsClean(v); }
    forall c ensures J.Clean(CellJson(c)) { PartsAreClean(c, NO_OPERAND, NO_EFFECT); }
    hide J.Clean, ValueJson, CellJson;
    J.CleanList(Mapped(s.registers, s.registerCount, ValueJson));
    J.CleanList(Mapped(s.stack, s.stackCount, ValueJson));
    J.CleanList(Mapped(s.memory, s.memoryCount, CellJson));
  }

  lemma SnapshotValuesAreClean(s: Snapshot)
    requires Printable(s)
    ensures forall i | 0 <= i < 7 :: J.Clean(SnapshotValues(s)[i])
  {
    hide J.Clean, NumberJson, EvidenceJson, FlagJson, Mapped, J.List;
    NumberIsClean(s.pc);
    NamesAreClean(s.pcEvidence, Memory, Read, s.partial);
    NamesAreClean(s.pcEvidence, Memory, Read, s.halted);
    BanksAreClean(s);
  }

  lemma SnapshotNames()
    ensures forall i | 0 <= i < 7 :: J.Plain(SNAPSHOT_NAMES[i])
    ensures forall i, k | 0 <= i < k < 7 :: SNAPSHOT_NAMES[i] != SNAPSHOT_NAMES[k]
  {
  }

  lemma SnapshotIsClean(s: Snapshot)
    requires Printable(s)
    ensures J.Clean(SnapshotJson(s))
  {
    SnapshotValuesAreClean(s);
    SnapshotNames();
    hide J.Clean, J.Plain, SnapshotValues, SNAPSHOT_NAMES, J.Fields, J.Record;
    J.CleanRecord(SnapshotFields(s));
  }

  lemma ListsAreClean(e: Entry)
    requires PrintableStep(e.step)
    ensures J.Clean(J.List(Mapped(e.step.operands, e.step.operandCount, OperandJson)))
    ensures J.Clean(J.List(Mapped(e.step.effects, e.step.effectCount, EffectJson)))
  {
    forall o ensures J.Clean(OperandJson(o)) { PartsAreClean(NO_CELL, o, NO_EFFECT); }
    forall f ensures J.Clean(EffectJson(f)) { PartsAreClean(NO_CELL, NO_OPERAND, f); }
    hide J.Clean, OperandJson, EffectJson;
    J.CleanList(Mapped(e.step.operands, e.step.operandCount, OperandJson));
    J.CleanList(Mapped(e.step.effects, e.step.effectCount, EffectJson));
  }

  lemma EntryValuesAreClean(e: Entry)
    requires PrintableStep(e.step)
    ensures forall i | 0 <= i < 9 :: J.Clean(EntryValues(e)[i])
  {
    hide J.Clean, NumberJson, EvidenceJson, FlagJson, Text, Mapped, J.List, SnapshotJson;
    NumberIsClean(e.sequence);
    NumberIsClean(e.tick);
    NumberIsClean(e.step.opcode);
    NamesAreClean(e.step.opcodeEvidence, Memory, Read, e.step.partial);
    SnapshotIsClean(e.step.before);
    SnapshotIsClean(e.step.after);
    ListsAreClean(e);
  }

  lemma EntryNames()
    ensures forall i | 0 <= i < 9 :: J.Plain(ENTRY_NAMES[i])
    ensures forall i, k | 0 <= i < k < 9 :: ENTRY_NAMES[i] != ENTRY_NAMES[k]
  {
  }

  lemma EntryIsClean(e: Entry)
    requires PrintableStep(e.step)
    ensures J.Clean(EntryJson(e))
  {
    EntryValuesAreClean(e);
    EntryNames();
    hide J.Clean, J.Plain, EntryValues, ENTRY_NAMES, J.Fields, J.Record;
    J.CleanRecord(EntryFields(e));
  }

  // The texts are those values.

  lemma QuotedText(text: string)
    ensures J.Render(J.Quoted(text)) == "\"" + text + "\""
  {
  }

  lemma ValueIsWritten(v: Value)
    ensures ValueText(v) == J.Render(ValueJson(v))
  {
    var fields := ValueFields(v);
    var bits, evidence := Text(v.bits), EvidenceText(v.evidence);
    hide Text, EvidenceText, J.Render;
    QuotedText(bits);
    QuotedText(evidence);
    var t := "{\"bits\":\"" + bits;
    J.Begins("", fields, "{\"bits\":\"", "\"", bits, "\"");
    J.Continues("", fields, 1, t, "\"", "\",\"evidence\":\"", "\"", evidence, "\"");
    J.Ends("", fields, t + "\",\"evidence\":\"" + evidence, "\"", "\"}");
  }

  lemma CellIsWritten(c: Cell)
    ensures CellText(c) == J.Render(CellJson(c))
  {
    var fields := CellFields(c);
    var address, value := Text(c.address), ValueText(c.value);
    ValueIsWritten(c.value);
    hide Text, ValueText, ValueJson, J.Render;
    QuotedText(address);
    var t := "{\"guest_address\":\"" + address;
    J.Begins("", fields, "{\"guest_address\":\"", "\"", address, "\"");
    assert value == "" + value + "";
    J.Continues("", fields, 1, t, "\"", "\",\"value\":", "", value, "");
    J.Ends("", fields, t + "\",\"value\":" + value, "", "}");
  }

  lemma OperandIsWritten(o: Operand)
    ensures OperandText(o) == J.Render(OperandJson(o))
  {
    var fields := OperandFields(o);
    var place, index, value := PlaceText(o.place), Text(o.index), ValueText(o.value);
    ValueIsWritten(o.value);
    hide Text, PlaceText, ValueText, ValueJson, J.Render;
    QuotedText(place);
    QuotedText(index);
    assert value == "" + value + "";
    var t := "{\"location\":\"" + place;
    J.Begins("", fields, "{\"location\":\"", "\"", place, "\"");
    J.Continues("", fields, 1, t, "\"", "\",\"index\":\"", "\"", index, "\"");
    t := t + "\",\"index\":\"" + index;
    J.Continues("", fields, 2, t, "\"", "\",\"value\":", "", value, "");
    J.Ends("", fields, t + "\",\"value\":" + value, "", "}");
  }

  lemma EffectIsWritten(e: Effect)
    ensures EffectText(e) == J.Render(EffectJson(e))
  {
    var fields := EffectFields(e);
    var access, place, index, value := AccessText(e.access), PlaceText(e.place), Text(e.index), ValueText(e.value);
    ValueIsWritten(e.value);
    hide Text, AccessText, PlaceText, ValueText, ValueJson, J.Render;
    QuotedText(access);
    QuotedText(place);
    QuotedText(index);
    assert value == "" + value + "";
    var t := "{\"access\":\"" + access;
    J.Begins("", fields, "{\"access\":\"", "\"", access, "\"");
    J.Continues("", fields, 1, t, "\"", "\",\"location\":\"", "\"", place, "\"");
    t := t + "\",\"location\":\"" + place;
    J.Continues("", fields, 2, t, "\"", "\",\"index\":\"", "\"", index, "\"");
    t := t + "\",\"index\":\"" + index;
    J.Continues("", fields, 3, t, "\"", "\",\"value\":", "", value, "");
    J.Ends("", fields, t + "\",\"value\":" + value, "", "}");
  }

  /** Texts separated by commas are an array's items. */
  lemma {:induction false} ListIsWritten<T>(items: seq<T>, n: nat, show: T -> string, json: T -> J.Json)
    requires n <= |items| && forall x :: show(x) == J.Render(json(x))
    ensures "[" + Listed(items, n, show) + "]" == J.Render(J.List(Mapped(items, n, json)))
  {
    ItemsAreWritten(items, n, show, json);
  }

  lemma {:induction false} ItemsAreWritten<T>(items: seq<T>, n: nat, show: T -> string, json: T -> J.Json)
    requires n <= |items| && forall x :: show(x) == J.Render(json(x))
    ensures Listed(items, n, show) == J.RenderItems(J.ItemsOf(Mapped(items, n, json)))
  {
    if n > 0 {
      ItemsAreWritten(items, n - 1, show, json);
      var front, last := Mapped(items, n - 1, json), json(items[n - 1]);
      assert Mapped(items, n, json) == front + [last];
      J.OneMoreItem(front, last);
      hide J.Render, J.RenderItems;
      assert front == [] ==> Listed(items, n - 1, show) == "";
      assert "" + show(items[n - 1]) == show(items[n - 1]) && "" + "" == "";
    }
  }

  lemma HeadLinks()
    ensures "" + J.Opening("pc", "\"") == "{\"pc\":\""
    ensures J.Link("\"", "pc_evidence", "\"") == "\",\"pc_evidence\":\""
    ensures J.Link("\"", "partial", "") == "\",\"partial\":" && J.Link("", "halted", "") == ",\"halted\":"
  {
  }

  lemma BankLinks()
    ensures J.Link("", "registers", "[") == ",\"registers\":["
    ensures J.Link("]", "stack", "[") == "],\"stack\":[" && J.Link("]", "memory", "[") == "],\"memory\":["
  {
  }

  lemma HeadIsWritten(fields: seq<J.Field>, s: Snapshot)
    requires |fields| == 7 && fields[0] == Number("pc", s.pc)
    requires fields[1] == J.Field("pc_evidence", EvidenceJson(s.pcEvidence))
    requires fields[2] == J.Field("partial", FlagJson(s.partial))
    requires fields[3] == J.Field("halted", FlagJson(s.halted))
    ensures J.Written("", fields, 4, HeadText(s), "")
  {
    var pc, evidence, partial, halted :=
        Text(s.pc), EvidenceText(s.pcEvidence), BoolText(s.partial), BoolText(s.halted);
    HeadLinks();
    QuotedText(pc);
    QuotedText(evidence);
    BareText(partial);
    BareText(halted);
    hide Text, EvidenceText, BoolText, J.Render, J.Written, J.Opening, J.Link;
    var t := "{\"pc\":\"" + pc;
    J.Begins("", fields, "{\"pc\":\"", "\"", pc, "\"");
    J.Continues("", fields, 1, t, "\"", "\",\"pc_evidence\":\"", "\"", evidence, "\"");
    t := t + "\",\"pc_evidence\":\"" + evidence;
    J.Continues("", fields, 2, t, "\"", "\",\"partial\":", "", partial, "");
    t := t + "\",\"partial\":" + partial;
    J.Continues("", fields, 3, t, "", ",\"halted\":", "", halted, "");
  }

  /** The names and values of a snapshot's fields. */
  lemma SnapshotFieldsAre(s: Snapshot)
    requires Printable(s)
    ensures var fields := SnapshotFields(s);
            && |fields| == 7 && fields[0] == Number("pc", s.pc)
            && fields[1] == J.Field("pc_evidence", EvidenceJson(s.pcEvidence))
            && fields[2] == J.Field("partial", FlagJson(s.partial))
            && fields[3] == J.Field("halted", FlagJson(s.halted))
            && fields[4] == J.Field("registers", J.List(Mapped(s.registers, s.registerCount, ValueJson)))
            && fields[5] == J.Field("stack", J.List(Mapped(s.stack, s.stackCount, ValueJson)))
            && fields[6] == J.Field("memory", J.List(Mapped(s.memory, s.memoryCount, CellJson)))
  {
    hide NumberJson, EvidenceJson, FlagJson, Mapped, J.List;
  }

  lemma BareText(text: string)
    ensures J.Render(J.Bare(text)) == "" + text + ""
  {
  }

  lemma BanksAreWritten(s: Snapshot)
    requires Printable(s)
    ensures J.Render(J.List(Mapped(s.registers, s.registerCount, ValueJson)))
         == "[" + Listed(s.registers, s.registerCount, ValueText) + "]"
    ensures J.Render(J.List(Mapped(s.stack, s.stackCount, ValueJson)))
         == "[" + Listed(s.stack, s.stackCount, ValueText) + "]"
    ensures J.Render(J.List(Mapped(s.memory, s.memoryCount, CellJson)))
         == "[" + Listed(s.memory, s.memoryCount, CellText) + "]"
  {
    forall v ensures ValueText(v) == J.Render(ValueJson(v)) { ValueIsWritten(v); }
    forall c ensures CellText(c) == J.Render(CellJson(c)) { CellIsWritten(c); }
    hide ValueText, CellText, ValueJson, CellJson, J.Render, J.List, Mapped, Listed;
    ListIsWritten(s.registers, s.registerCount, ValueText, ValueJson);
    ListIsWritten(s.stack, s.stackCount, ValueText, ValueJson);
    ListIsWritten(s.memory, s.memoryCount, CellText, CellJson);
  }

  /** The ends of the lists joined to what follows them. */
  lemma BanksRegroup(head: string, registers: string, stack: string, memory: string)
    ensures head + ",\"registers\":[" + registers + "]" + ",\"stack\":[" + stack + "]" + ",\"memory\":[" + memory + "]}"
         == head + ",\"registers\":[" + registers + "],\"stack\":[" + stack + "],\"memory\":[" + memory + "]}"
  {
    var t := head + ",\"registers\":[" + registers;
    Splits(t, "]", ",\"stack\":[", "],\"stack\":[");
    Splits(t + "],\"stack\":[" + stack, "]", ",\"memory\":[", "],\"memory\":[");
  }

  lemma BanksFollow(fields: seq<J.Field>, head: string, registers: string, stack: string, memory: string)
    requires |fields| == 7 && J.Written("", fields, 4, head, "")
    requires fields[4].name == "registers" && J.Render(fields[4].value) == "[" + registers + "]"
    requires fields[5].name == "stack" && J.Render(fields[5].value) == "[" + stack + "]"
    requires fields[6].name == "memory" && J.Render(fields[6].value) == "[" + memory + "]"
    ensures J.Render(J.Record(fields))
         == head + ",\"registers\":[" + registers + "],\"stack\":[" + stack + "],\"memory\":[" + memory + "]}"
  {
    BankLinks();
    hide J.Render, J.Written, J.Opening, J.Link, J.Record;
    var t := head + ",\"registers\":[" + registers;
    J.Continues("", fields, 4, head, "", ",\"registers\":[", "[", registers, "]");
    J.Continues("", fields, 5, t, "]", "],\"stack\":[", "[", stack, "]");
    t := t + "],\"stack\":[" + stack;
    J.Continues("", fields, 6, t, "]", "],\"memory\":[", "[", memory, "]");
    J.Ends("", fields, t + "],\"memory\":[" + memory, "]", "]}");
  }

  lemma SnapshotIsWritten(s: Snapshot)
    requires Printable(s)
    ensures SnapshotText(s) == J.Render(SnapshotJson(s))
  {
    var registers, stack := Listed(s.registers, s.registerCount, ValueText), Listed(s.stack, s.stackCount, ValueText);
    var memory := Listed(s.memory, s.memoryCount, CellText);
    BanksAreWritten(s);
    SnapshotFieldsAre(s);
    hide HeadText, Listed, NumberJson, EvidenceJson, FlagJson, Mapped, J.Render, J.Written, J.List, SnapshotFields;
    HeadIsWritten(SnapshotFields(s), s);
    BanksFollow(SnapshotFields(s), HeadText(s), registers, stack, memory);
    BanksRegroup(HeadText(s), registers, stack, memory);
    hide J.Record;
  }

  lemma Splits(before: string, a: string, b: string, ab: string)
    requires ab == a + b
    ensures before + a + b == before + ab
  {
  }

  lemma EntryHeadLinks()
    ensures "" + J.Opening("sequence", "\"") == "{\"sequence\":\""
    ensures J.Link("\"", "tick", "\"") == "\",\"tick\":\"" && J.Link("\"", "opcode", "") == "\",\"opcode\":"
    ensures J.Link("", "opcode_evidence", "\"") == ",\"opcode_evidence\":\""
    ensures J.Link("\"", "partial", "") == "\",\"partial\":"
  {
  }

  lemma EntryHeadIsWritten(fields: seq<J.Field>, e: Entry)
    requires |fields| == 9 && fields[0] == Number("sequence", e.sequence) && fields[1] == Number("tick", e.tick)
    requires fields[2] == J.Field("opcode", J.Bare(Text(e.step.opcode)))
    requires fields[3] == J.Field("opcode_evidence", EvidenceJson(e.step.opcodeEvidence))
    requires fields[4] == J.Field("partial", FlagJson(e.step.partial))
    ensures J.Written("", fields, 5, EntryHeadText(e), "")
  {
    var sequence, tick, opcode := Text(e.sequence), Text(e.tick), Text(e.step.opcode);
    var evidence, partial := EvidenceText(e.step.opcodeEvidence), BoolText(e.step.partial);
    EntryHeadLinks();
    QuotedText(sequence);
    QuotedText(tick);
    BareText(opcode);
    QuotedText(evidence);
    BareText(partial);
    hide Text, EvidenceText, BoolText, J.Render, J.Written, J.Opening, J.Link;
    var t := "{\"sequence\":\"" + sequence;
    J.Begins("", fields, "{\"sequence\":\"", "\"", sequence, "\"");
    J.Continues("", fields, 1, t, "\"", "\",\"tick\":\"", "\"", tick, "\"");
    t := t + "\",\"tick\":\"" + tick;
    J.Continues("", fields, 2, t, "\"", "\",\"opcode\":", "", opcode, "");
    t := t + "\",\"opcode\":" + opcode;
    J.Continues("", fields, 3, t, "", ",\"opcode_evidence\":\"", "\"", evidence, "\"");
    t := t + ",\"opcode_evidence\":\"" + evidence;
    J.Continues("", fields, 4, t, "\"", "\",\"partial\":", "", partial, "");
  }

  lemma EntryListsAreWritten(e: Entry)
    requires PrintableStep(e.step)
    ensures J.Render(J.List(Mapped(e.step.operands, e.step.operandCount, OperandJson)))
         == "[" + Listed(e.step.operands, e.step.operandCount, OperandText) + "]"
    ensures J.Render(J.List(Mapped(e.step.effects, e.step.effectCount, EffectJson)))
         == "[" + Listed(e.step.effects, e.step.effectCount, EffectText) + "]"
  {
    forall o ensures OperandText(o) == J.Render(OperandJson(o)) { OperandIsWritten(o); }
    forall f ensures EffectText(f) == J.Render(EffectJson(f)) { EffectIsWritten(f); }
    hide OperandText, EffectText, OperandJson, EffectJson, J.Render, J.List, Mapped, Listed;
    ListIsWritten(e.step.operands, e.step.operandCount, OperandText, OperandJson);
    ListIsWritten(e.step.effects, e.step.effectCount, EffectText, EffectJson);
  }

  lemma EntryFieldsAre(e: Entry)
    requires PrintableStep(e.step)
    ensures var fields := EntryFields(e);
            && |fields| == 9 && fields[0] == Number("sequence", e.sequence) && fields[1] == Number("tick", e.tick)
            && fields[2] == J.Field("opcode", J.Bare(Text(e.step.opcode)))
            && fields[3] == J.Field("opcode_evidence", EvidenceJson(e.step.opcodeEvidence))
            && fields[4] == J.Field("partial", FlagJson(e.step.partial))
            && fields[5] == J.Field("operands", J.List(Mapped(e.step.operands, e.step.operandCount, OperandJson)))
            && fields[6] == J.Field("effects", J.List(Mapped(e.step.effects, e.step.effectCount, EffectJson)))
            && fields[7] == J.Field("before", SnapshotJson(e.step.before))
            && fields[8] == J.Field("after", SnapshotJson(e.step.after))
  {
    hide NumberJson, EvidenceJson, FlagJson, Text, Mapped, J.List, SnapshotJson;
  }

  lemma EntryLinks()
    ensures J.Link("", "operands", "[") == ",\"operands\":[" && J.Link("]", "effects", "[") == "],\"effects\":["
    ensures J.Link("]", "before", "") == "],\"before\":" && J.Link("", "after", "") == ",\"after\":"
  {
  }

  lemma EntryRestFollows(fields: seq<J.Field>, head: string, operands: string, effects: string, before: string,
                         after: string)
    requires |fields| == 9 && J.Written("", fields, 5, head, "")
    requires fields[5].name == "operands" && J.Render(fields[5].value) == "[" + operands + "]"
    requires fields[6].name == "effects" && J.Render(fields[6].value) == "[" + effects + "]"
    requires fields[7].name == "before" && J.Render(fields[7].value) == before
    requires fields[8].name == "after" && J.Render(fields[8].value) == after
    ensures J.Render(J.Record(fields))
         == head + ",\"operands\":[" + operands + "],\"effects\":[" + effects + "],\"before\":" + before
            + ",\"after\":" + after + "}"
  {
    EntryLinks();
    assert before == "" + before + "" && after == "" + after + "";
    hide J.Render, J.Written, J.Opening, J.Link, J.Record;
    var t := head + ",\"operands\":[" + operands;
    J.Continues("", fields, 5, head, "", ",\"operands\":[", "[", operands, "]");
    J.Continues("", fields, 6, t, "]", "],\"effects\":[", "[", effects, "]");
    t := t + "],\"effects\":[" + effects;
    J.Continues("", fields, 7, t, "]", "],\"before\":", "", before, "");
    t := t + "],\"before\":" + before;
    J.Continues("", fields, 8, t, "", ",\"after\":", "", after, "");
    J.Ends("", fields, t + ",\"after\":" + after, "", "}");
  }

  lemma EntryIsWritten(e: Entry)
    requires PrintableStep(e.step)
    ensures EntryText(e) == J.Render(EntryJson(e))
  {
    EntryListsAreWritten(e);
    EntryFieldsAre(e);
    hide EntryHeadText, Listed, NumberJson, EvidenceJson, FlagJson, Text, Mapped, J.Render, J.Written, J.List;
    hide SnapshotText, SnapshotJson, EntryFields;
    SnapshotIsWritten(e.step.before);
    SnapshotIsWritten(e.step.after);
    EntryHeadIsWritten(EntryFields(e), e);
    EntryRestFollows(EntryFields(e), EntryHeadText(e), Listed(e.step.operands, e.step.operandCount, OperandText),
        Listed(e.step.effects, e.step.effectCount, EffectText), SnapshotText(e.step.before),
        SnapshotText(e.step.after));
    hide J.Record;
  }

  // Reading them.

  lemma NumberIsSaid(j: J.Json, name: string, n: nat)
    requires J.Get(j, name) == NumberJson(n)
    ensures Says(j, name, n)
  {
    ParseOfPrint(n);
  }

  lemma FieldsAreHeld(fields: seq<J.Field>)
    requires forall i, k | 0 <= i < k < |fields| :: fields[i].name != fields[k].name
    ensures forall k | 0 <= k < |fields| :: J.Get(J.Record(fields), fields[k].name) == fields[k].value
  {
    forall k | 0 <= k < |fields| ensures J.Get(J.Record(fields), fields[k].name) == fields[k].value {
      J.RecordHolds(fields, k);
    }
  }

  lemma ValueIsShown(v: Value)
    ensures ShowsValue(ValueJson(v), v)
  {
    var j, fields := ValueJson(v), ValueFields(v);
    FieldsAreHeld(fields);
    assert fields[0].name == "bits" && fields[1].name == "evidence";
    hide J.Get, J.Record, Text;
    NumberIsSaid(j, "bits", v.bits);
  }

  lemma CellIsShown(c: Cell)
    ensures ShowsCell(CellJson(c), c)
  {
    var j, fields := CellJson(c), CellFields(c);
    FieldsAreHeld(fields);
    ValueIsShown(c.value);
    assert fields[0].name == "guest_address" && fields[1].name == "value";
    hide J.Get, J.Record, Text, ValueJson;
    NumberIsSaid(j, "guest_address", c.address);
  }

  lemma OperandIsShown(o: Operand)
    ensures ShowsOperand(OperandJson(o), o)
  {
    var j, fields := OperandJson(o), OperandFields(o);
    FieldsAreHeld(fields);
    ValueIsShown(o.value);
    assert fields[0].name == "location" && fields[1].name == "index" && fields[2].name == "value";
    hide J.Get, J.Record, Text, ValueJson;
    NumberIsSaid(j, "index", o.index);
  }

  lemma EffectIsShown(e: Effect)
    ensures ShowsEffect(EffectJson(e), e)
  {
    var j, fields := EffectJson(e), EffectFields(e);
    FieldsAreHeld(fields);
    ValueIsShown(e.value);
    assert fields[0].name == "access" && fields[1].name == "location";
    assert fields[2].name == "index" && fields[3].name == "value";
    hide J.Get, J.Record, Text, ValueJson;
    NumberIsSaid(j, "index", e.index);
  }

  /** Where the fields of a printed snapshot are. */
  lemma SnapshotParts(s: Snapshot)
    requires Printable(s)
    ensures var j := SnapshotJson(s);
            && J.Get(j, "pc") == NumberJson(s.pc) && J.Get(j, "pc_evidence") == EvidenceJson(s.pcEvidence)
            && J.Get(j, "partial") == FlagJson(s.partial) && J.Get(j, "halted") == FlagJson(s.halted)
            && J.Get(j, "registers") == J.List(Mapped(s.registers, s.registerCount, ValueJson))
            && J.Get(j, "stack") == J.List(Mapped(s.stack, s.stackCount, ValueJson))
            && J.Get(j, "memory") == J.List(Mapped(s.memory, s.memoryCount, CellJson))
  {
    SnapshotFieldsAre(s);
    SnapshotNames();
    hide J.Get, J.Record, J.List, Mapped, NumberJson, EvidenceJson, FlagJson, SNAPSHOT_NAMES, J.Fields, SnapshotValues;
    FieldsAreHeld(SnapshotFields(s));
  }

  lemma BanksAreShown(s: Snapshot)
    requires Printable(s)
    ensures var registers, stack, memory :=
              J.Elements(J.List(Mapped(s.registers, s.registerCount, ValueJson))),
              J.Elements(J.List(Mapped(s.stack, s.stackCount, ValueJson))),
              J.Elements(J.List(Mapped(s.memory, s.memoryCount, CellJson)));
            && |registers| == s.registerCount && |stack| == s.stackCount && |memory| == s.memoryCount
            && (forall i | 0 <= i < s.registerCount :: ShowsValue(registers[i], s.registers[i]))
            && (forall i | 0 <= i < s.stackCount :: ShowsValue(stack[i], s.stack[i]))
            && (forall i | 0 <= i < s.memoryCount :: ShowsCell(memory[i], s.memory[i]))
  {
    forall v ensures ShowsValue(ValueJson(v), v) { ValueIsShown(v); }
    forall c ensures ShowsCell(CellJson(c), c) { CellIsShown(c); }
    J.ListHolds(Mapped(s.registers, s.registerCount, ValueJson));
    J.ListHolds(Mapped(s.stack, s.stackCount, ValueJson));
    J.ListHolds(Mapped(s.memory, s.memoryCount, CellJson));
    hide J.List, J.Elements, ValueJson, CellJson, ShowsValue, ShowsCell;
  }

  lemma SnapshotIsShown(s: Snapshot)
    requires Printable(s)
    ensures ShowsSnapshot(SnapshotJson(s), s)
  {
    SnapshotParts(s);
    BanksAreShown(s);
    EvidenceIsNamed(s.pcEvidence);
    hide J.Get, SnapshotJson, J.List, J.Elements, Mapped, Text, ShowsValue, ShowsCell;
    hide Says, EvidenceNamed, EvidenceJson, NumberJson;
    NumberIsSaid(SnapshotJson(s), "pc", s.pc);
  }

  lemma EntryParts(e: Entry)
    requires PrintableStep(e.step)
    ensures var j := EntryJson(e);
            && J.Get(j, "sequence") == NumberJson(e.sequence) && J.Get(j, "tick") == NumberJson(e.tick)
            && J.Get(j, "opcode") == J.Bare(Text(e.step.opcode))
            && J.Get(j, "opcode_evidence") == EvidenceJson(e.step.opcodeEvidence)
            && J.Get(j, "partial") == FlagJson(e.step.partial)
            && J.Get(j, "operands") == J.List(Mapped(e.step.operands, e.step.operandCount, OperandJson))
            && J.Get(j, "effects") == J.List(Mapped(e.step.effects, e.step.effectCount, EffectJson))
            && J.Get(j, "before") == SnapshotJson(e.step.before) && J.Get(j, "after") == SnapshotJson(e.step.after)
  {
    EntryFieldsAre(e);
    EntryNames();
    hide J.Get, J.Record, J.List, Mapped, NumberJson, EvidenceJson, FlagJson, Text, SnapshotJson;
    hide ENTRY_NAMES, J.Fields, EntryValues;
    FieldsAreHeld(EntryFields(e));
  }

  lemma EntryListsAreShown(e: Entry)
    requires PrintableStep(e.step)
    ensures var operands, effects :=
              J.Elements(J.List(Mapped(e.step.operands, e.step.operandCount, OperandJson))),
              J.Elements(J.List(Mapped(e.step.effects, e.step.effectCount, EffectJson)));
            && |operands| == e.step.operandCount && |effects| == e.step.effectCount
            && (forall i | 0 <= i < e.step.operandCount :: ShowsOperand(operands[i], e.step.operands[i]))
            && (forall i | 0 <= i < e.step.effectCount :: ShowsEffect(effects[i], e.step.effects[i]))
  {
    forall o ensures ShowsOperand(OperandJson(o), o) { OperandIsShown(o); }
    forall f ensures ShowsEffect(EffectJson(f), f) { EffectIsShown(f); }
    J.ListHolds(Mapped(e.step.operands, e.step.operandCount, OperandJson));
    J.ListHolds(Mapped(e.step.effects, e.step.effectCount, EffectJson));
    hide J.List, J.Elements, OperandJson, EffectJson, ShowsOperand, ShowsEffect;
  }

  lemma EvidenceIsNamed(e: Evidence)
    ensures EvidenceNamed(EvidenceJson(e)) == Some(e)
  {
  }

  lemma EntryIsShown(e: Entry)
    requires PrintableStep(e.step)
    ensures ShowsEntry(EntryJson(e), e)
  {
    EntryParts(e);
    EntryListsAreShown(e);
    SnapshotIsShown(e.step.before);
    SnapshotIsShown(e.step.after);
    ParseOfPrint(e.step.opcode);
    EvidenceIsNamed(e.step.opcodeEvidence);
    hide J.Get, EntryJson, SnapshotJson, J.List, J.Elements, Mapped, Text, ShowsOperand, ShowsEffect, ShowsSnapshot;
    hide Says, EvidenceNamed, EvidenceJson, NumberJson;
    NumberIsSaid(EntryJson(e), "sequence", e.sequence);
    NumberIsSaid(EntryJson(e), "tick", e.tick);
  }

  /** A printed snapshot is one JSON value that says what the snapshot held. */
  lemma SnapshotIsReadable(s: Snapshot)
    requires Printable(s)
    ensures J.Whole(SnapshotText(s)).Some? && ShowsSnapshot(J.Whole(SnapshotText(s)).value, s)
  {
    SnapshotIsWritten(s);
    SnapshotIsClean(s);
    J.WholeReadsBack(SnapshotJson(s));
    SnapshotIsShown(s);
    hide ShowsSnapshot, SnapshotJson, SnapshotText, J.Whole, J.Render, J.Clean;
  }

  /** A printed record is one JSON value that says what was recorded. */
  lemma EntryIsReadable(e: Entry)
    requires PrintableStep(e.step)
    ensures J.Whole(EntryText(e)).Some? && ShowsEntry(J.Whole(EntryText(e)).value, e)
  {
    EntryIsWritten(e);
    EntryIsClean(e);
    J.WholeReadsBack(EntryJson(e));
    EntryIsShown(e);
    hide ShowsEntry, EntryJson, EntryText, J.Whole, J.Render, J.Clean;
  }
}
