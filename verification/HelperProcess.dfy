/**
 * The helper process as it runs: `ControlMain`, `Respond` and `ControlPayload` in
 * apps/reb-native-vm-fixture/main.cpp, over the mutable fixture and recorder. The
 * bytes on the wire are those of the session function, and every payload fits.
 */
module HelperProcess {
  import opened Outcomes
  import opened LittleEndian
  import P = HelperProtocol
  import opened OwnedVm
  import opened NativeRecorder
  import opened Decimals
  import opened HelperText
  import opened HelperControl

  // ---------------------------------------------------------------- payload text

  function ProgramText(o: Options): string {
    "{\"schema\":\"reb-owned-vm-helper-v1\",\"fixture\":\"" + (if o.arch.Stack? then "stack" else "register")
    + "\",\"program_id\":\"" + (if o.arch.Stack? then "owned-stack-v1" else "owned-register-v1")
        + "\",\"fixture_revision\":1"
  }

  function ScopeText(o: Options): string {
    ",\"session_id\":\"" + Text(o.session) + "\",\"document_id\":\"" + Text(o.document) + "\",\"invocation_id\":\""
    + Text(o.invocation) + "\",\"run_generation\":\"" + Text(o.runGeneration)
  }

  function ProgressText(h: Helper, state: string): string {
    "\",\"state\":\"" + state + "\",\"executed_count\":\"" + Text(h.fixture.executed)
    + "\",\"retained_count\":\"" + Text(h.recorder.stats.recorded) + "\",\"snapshot\":"
  }

  function ResultText(r: RecordResult): string {
    match r
    case Recorded => "recorded"
    case StaleGeneration => "stale_generation"
    case Exhausted => "exhausted"
    case Disabled => "disabled"
    case Expired => "expired"
    case WrongDocument => "wrong_document"
    case Malformed => "malformed"
    case Full => "full"
  }

  function OutcomeText(result: Option<RecordResult>): string {
    ",\"recorder_result\":" + if result.Some? then "\"" + ResultText(result.value) + "\"" else "null"
  }

  function CountersText(s: Stats): string {
    ",\"stats\":{\"attempted\":\"" + Text(s.attempted) + "\",\"recorded\":\"" + Text(s.recorded)
    + "\",\"full\":\"" + Text(s.full)
    + "\",\"malformed\":\"" + Text(s.malformed) + "\",\"wrong_document\":\"" + Text(s.wrongDocument)
  }

  function LossText(s: Stats): string {
    "\",\"stale_generation\":\"" + Text(s.staleGeneration) + "\",\"exhausted\":\"" + Text(s.exhausted)
    + "\",\"expired\":\"" + Text(s.expired) + "\",\"partial\":\"" + Text(s.partial)
        + "\"},\"tick_units\":\"monotonic-nanoseconds\"}"
  }

  /** What printing relies on: shaped storage, and a last entry when one was just recorded. */
  predicate PrintableHelper(h: Helper, result: Option<RecordResult>) {
    && Printable(h.fixture.state)
    && (result == Some(Recorded) ==>
          h.recorder.entries != [] && PrintableStep(h.recorder.entries[|h.recorder.entries| - 1].step))
  }

  function TransitionText(h: Helper, result: Option<RecordResult>): string
    requires PrintableHelper(h, result)
  {
    if result == Some(Recorded) then EntryText(h.recorder.entries[|h.recorder.entries| - 1]) else "null"
  }

  function HeadPart(o: Options, h: Helper, state: string): string {
    ProgramText(o) + ScopeText(o) + ProgressText(h, state)
  }

  function TailPart(h: Helper, result: Option<RecordResult>): string {
    OutcomeText(result) + CountersText(h.recorder.stats) + LossText(h.recorder.stats)
  }

  function PayloadText(o: Options, h: Helper, state: string, result: Option<RecordResult>): string
    requires PrintableHelper(h, result)
  {
    HeadPart(o, h, state) + SnapshotText(h.fixture.state) + ",\"transition\":" + TransitionText(h, result)
        + TailPart(h, result)
  }

  // ---------------------------------------------------------------- every payload fits

  predicate FitsStats(s: Stats) {
    && Fits(s.attempted) && Fits(s.recorded) && Fits(s.full) && Fits(s.malformed) && Fits(s.wrongDocument)
    && Fits(s.staleGeneration) && Fits(s.exhausted) && Fits(s.expired) && Fits(s.partial)
  }

  predicate FitsOptions(o: Options) {
    Fits(o.session) && Fits(o.document) && Fits(o.invocation) && Fits(o.runGeneration)
  }

  predicate FitsHelper(h: Helper, result: Option<RecordResult>) {
    && PrintableHelper(h, result)
    && FitsSnapshot(h.fixture.state) && Fits(h.fixture.executed) && FitsStats(h.recorder.stats)
    && (result == Some(Recorded) ==> FitsEntry(h.recorder.entries[|h.recorder.entries| - 1]))
  }

  lemma ScopeLength(o: Options)
    requires FitsOptions(o)
    ensures |ProgramText(o)| <= 120 && |ScopeText(o)| <= 160
  {
    U64Length(o.session);
    U64Length(o.document);
    U64Length(o.invocation);
    U64Length(o.runGeneration);
  }

  lemma ProgressLength(h: Helper, state: string)
    requires Fits(h.fixture.executed) && FitsStats(h.recorder.stats) && |state| <= 7
    ensures |ProgressText(h, state)| <= 120
  {
    U64Length(h.fixture.executed);
    U64Length(h.recorder.stats.recorded);
  }

  lemma CountersLength(s: Stats)
    requires FitsStats(s)
    ensures |CountersText(s)| <= 200
  {
    U64Length(s.attempted);
    U64Length(s.recorded);
    U64Length(s.full);
    U64Length(s.malformed);
    U64Length(s.wrongDocument);
  }

  lemma LossLength(s: Stats)
    requires FitsStats(s)
    ensures |LossText(s)| <= 200
  {
    U64Length(s.staleGeneration);
    U64Length(s.exhausted);
    U64Length(s.expired);
    U64Length(s.partial);
  }

  lemma HeadPartLength(o: Options, h: Helper, state: string)
    requires FitsOptions(o) && Fits(h.fixture.executed) && FitsStats(h.recorder.stats) && |state| <= 7
    ensures |HeadPart(o, h, state)| <= 400
  {
    ScopeLength(o);
    ProgressLength(h, state);
    assert |HeadPart(o, h, state)| == |ProgramText(o)| + |ScopeText(o)| + |ProgressText(h, state)|;
  }

  lemma TailPartLength(h: Helper, result: Option<RecordResult>)
    requires FitsStats(h.recorder.stats)
    ensures |TailPart(h, result)| <= 440
  {
    CountersLength(h.recorder.stats);
    LossLength(h.recorder.stats);
    assert |OutcomeText(result)| <= 40;
    assert |TailPart(h, result)|
        == |OutcomeText(result)| + |CountersText(h.recorder.stats)| + |LossText(h.recorder.stats)|;
  }

  lemma TransitionLength(h: Helper, result: Option<RecordResult>)
    requires FitsHelper(h, result)
    ensures |TransitionText(h, result)| <= 5342
  {
    if result == Some(Recorded) {
      EntryBound(h.recorder.entries[|h.recorder.entries| - 1]);
    }
  }

  lemma {:induction false} PayloadPieces(o: Options, h: Helper, state: string, result: Option<RecordResult>)
    requires PrintableHelper(h, result)
    ensures |PayloadText(o, h, state, result)| ==
            |HeadPart(o, h, state)| + |SnapshotText(h.fixture.state)| + 14 + |TransitionText(h, result)|
                + |TailPart(h, result)|
  {
  }

  /** Whatever the machine words hold, a control payload stays far below the buffer. */
  lemma PayloadBound(o: Options, h: Helper, state: string, result: Option<RecordResult>)
    requires FitsOptions(o) && FitsHelper(h, result) && |state| <= 7
    ensures |PayloadText(o, h, state, result)| <= 8004 < MAX_PAYLOAD_BYTES
  {
    PayloadPieces(o, h, state, result);
    HeadPartLength(o, h, state);
    SnapshotBound(h.fixture.state);
    TransitionLength(h, result);
    TailPartLength(h, result);
  }

  lemma {:induction false} RegisterFits(k: nat)
    requires k < |PCS|
    ensures FitsSnapshot(Expected(Register, k))
  {
  }

  lemma {:induction false} StackFits(k: nat)
    requires k < |PCS|
    ensures FitsSnapshot(Expected(Stack, k))
  {
  }

  lemma ExpectedFits(arch: Architecture, k: nat)
    requires k < |PCS|
    ensures FitsSnapshot(Expected(arch, k))
  {
    hide FitsSnapshot;
    if arch.Register? {
      RegisterFits(k);
    } else {
      StackFits(k);
    }
  }

  predicate SmallDecoded(d: Decoded) {
    && d.opcode <= 8 && |d.operands| <= MAX_OPERANDS && |d.effects| <= MAX_EFFECTS
    && (forall o <- d.operands :: o.index <= 16 && o.value.bits <= 12)
    && (forall e <- d.effects :: e.index <= 16 && e.value.bits <= 12)
  }

  /** The values one instruction can touch. */
  predicate SmallState(arch: Architecture, s: Snapshot)
    requires Shaped(s)
  {
    var slots := if arch.Stack? then s.stack else s.registers;
    && slots[0].bits <= 12 && slots[1].bits <= 12 && slots[2].bits <= 12 && s.memory[0].value.bits <= 12
    && (s.pc == 2 ==> slots[0].bits + slots[1].bits <= 12)
  }

  lemma ExpectedIsSmall(arch: Architecture, k: nat)
    requires k < 9
    ensures SmallState(arch, Expected(arch, k))
  {
  }

  lemma DecodedIsSmall(arch: Architecture, s: Snapshot)
    requires Shaped(s) && SmallState(arch, s) && Decode(arch, s).Some?
    ensures SmallDecoded(Decode(arch, s).value)
  {
  }

  lemma AssembledFits(s: Snapshot, d: Decoded, sequence: nat, tick: nat)
    requires FitsSnapshot(s) && FitsSnapshot(d.next) && SmallDecoded(d) && Fits(sequence) && Fits(tick)
    ensures FitsEntry(Entry(sequence, tick, Assemble(s, d)))
  {
    var step := Assemble(s, d);
    forall o | o in step.operands ensures Fits(o.index) && FitsValue(o.value) {
      var i :| 0 <= i < |step.operands| && step.operands[i] == o;
      assert i < |d.operands| ==> step.operands[..|d.operands|][i] == d.operands[i];
    }
    forall e | e in step.effects ensures Fits(e.index) && FitsValue(e.value) {
      var i :| 0 <= i < |step.effects| && step.effects[i] == e;
      assert i < |d.effects| ==> step.effects[..|d.effects|][i] == d.effects[i];
    }
  }

  lemma RunEntryFits(arch: Architecture, e: Entry, i: nat)
    requires IsEntryFor(arch, e, i) && Fits(e.tick)
    ensures FitsEntry(e)
  {
    RunIsExpected(arch, i);
    ExpectedFits(arch, i);
    ExpectedFits(arch, i + 1);
    if arch.Register? {
      RegisterStep(i);
    } else {
      StackStep(i);
    }
    ExpectedIsSmall(arch, i);
    DecodedIsSmall(arch, Expected(arch, i));
    hide Decode, Expected, SmallState, SmallDecoded, FitsEntry, FitsSnapshot;
    AssembledFits(Expected(arch, i), Decode(arch, Expected(arch, i)).value, e.sequence, e.tick);
  }

  lemma RunFits(arch: Architecture, k: nat)
    requires k <= 9
    ensures FitsSnapshot(Run(arch, k).state) && Run(arch, k).executed == k
  {
    RunIsExpected(arch, k);
    ExpectedFits(arch, k);
  }

  /** The last recorded entry, when a reply prints one. */
  ghost predicate LastEntryIs(h: Helper, arch: Architecture, k: nat) {
    k > 0 && |h.recorder.entries| == k && IsEntryFor(arch, h.recorder.entries[k - 1], k - 1)
        && Fits(h.recorder.entries[k - 1].tick)
  }

  lemma TrackedParts(o: Options, h: Helper, k: nat)
    requires Tracks(o, h, k)
    ensures k <= 9 && h.fixture == Run(o.arch, k) && FitsStats(h.recorder.stats)
    ensures k > 0 ==> LastEntryIs(h, o.arch, k)
  {
  }

  lemma FitsArePrintable(s: Snapshot, e: Entry)
    ensures FitsSnapshot(s) ==> Printable(s)
    ensures FitsEntry(e) ==> PrintableStep(e.step)
  {
  }

  lemma {:induction false} PartsFit(h: Helper, arch: Architecture, k: nat, result: Option<RecordResult>)
    requires k <= 9 && h.fixture == Run(arch, k) && FitsStats(h.recorder.stats)
    requires result == Some(Recorded) ==> LastEntryIs(h, arch, k)
    ensures FitsHelper(h, result)
  {
    hide FitsSnapshot, FitsEntry, IsEntryFor, Printable, PrintableStep, Run, FitsStats;
    RunFits(arch, k);
    RunCountFits(k);
    if result == Some(Recorded) {
      var e := h.recorder.entries[k - 1];
      RunEntryFits(arch, e, k - 1);
      FitsArePrintable(h.fixture.state, e);
    } else {
      SnapshotIsPrintable(h.fixture.state);
    }
  }

  lemma SnapshotIsPrintable(s: Snapshot)
    ensures FitsSnapshot(s) ==> Printable(s)
  {
  }

  lemma RunCountFits(k: nat)
    requires k <= 9
    ensures Fits(k)
  {
  }

  lemma TrackedFits(o: Options, h: Helper, k: nat, result: Option<RecordResult>)
    requires Tracks(o, h, k) && (result == Some(Recorded) ==> k > 0)
    ensures FitsHelper(h, result)
  {
    TrackedParts(o, h, k);
    PartsFit(h, o.arch, k, result);
  }

  // ---------------------------------------------------------------- the running process

  datatype Message = Message(header: seq<Byte>, payload: string)

  /** The wire form of one reply: a header naming status, identifier and size, then the payload. */
  function MessageFor(o: Options, status: P.Status, id: nat, h: Helper, state: string,
        result: Option<RecordResult>): Message
    requires PrintableHelper(h, result)
  {
    var payload := PayloadText(o, h, state, result);
    Message(P.HeaderBytes(status, id, |payload|), payload)
  }

  method PrintParts(out: PayloadBuffer, head: string, snapshot: Snapshot, entry: Option<Entry>, tail: string)
    requires out.Valid() && Printable(snapshot) && (entry.Some? ==> PrintableStep(entry.value.step))
    modifies out, out.bytes
    ensures out.Valid()
    ensures var transition := if entry.Some? then EntryText(entry.value) else "null";
            out.Contents()
                == Push(old(out.Contents()), head + SnapshotText(snapshot) + ",\"transition\":" + transition + tail)
  {
    ghost var start := out.Contents();
    assert "" + head == head;
    ghost var text := out.Emit(head, start, "");
    PrintSnapshot(out, snapshot);
    PushJoins(start, text, SnapshotText(snapshot));
    text := text + SnapshotText(snapshot);
    text := out.Emit(",\"transition\":", start, text);
    if entry.Some? {
      PrintEntry(out, entry.value);
      PushJoins(start, text, EntryText(entry.value));
      text := text + EntryText(entry.value);
    } else {
      text := out.Emit("null", start, text);
    }
    text := out.Emit(tail, start, text);
  }

  lemma PushFits(text: string)
    requires |text| <= MAX_PAYLOAD_BYTES
    ensures Push(Sink("", true), text) == Sink(text, true)
  {
    assert "" + text == text;
  }

  method Deliver(status: P.Status, id: nat, buffer: PayloadBuffer, ghost text: string)
        returns (message: Option<Message>)
    requires buffer.Valid() && buffer.Contents() == Push(Sink("", true), text)
    ensures message == if |text| <= MAX_PAYLOAD_BYTES then Some(Message(P.HeaderBytes(status, id, |text|), text))
        else None
  {
    if !buffer.good || buffer.length > MAX_PAYLOAD_BYTES {
      return None;
    }
    assert |text| <= MAX_PAYLOAD_BYTES;
    PushFits(text);
    var payload := buffer.bytes[..buffer.length];
    assert payload == buffer.Contents().view;
    var header := P.ResponseHeader(status, id, |payload|);
    return Some(Message(header, payload));
  }

  /** `Respond` without the pipe: refuses only a payload that does not fit. */
  method Respond(o: Options, status: P.Status, id: nat, h: Helper, state: string, result: Option<RecordResult>)
    returns (message: Option<Message>)
    requires FitsOptions(o) && FitsHelper(h, result) && |state| <= 7
    ensures message == Some(MessageFor(o, status, id, h, state, result))
  {
    var buffer := new PayloadBuffer();
    var last := if result == Some(Recorded) then Some(h.recorder.entries[|h.recorder.entries| - 1]) else None;
    PrintParts(buffer, HeadPart(o, h, state), h.fixture.state, last, TailPart(h, result));
    ghost var text := PayloadText(o, h, state, result);
    PayloadBound(o, h, state, result);
    message := Deliver(status, id, buffer, text);
  }

  /** The mutable process behind a session. */
  class Process {
    const options: Options
    const fixture: OwnedVmFixture
    const recorder: NativeVmRecorder
    var lastId: nat
    var lastNow: nat

    constructor (options: Options)
      ensures this.options == options && fresh(fixture) && fresh(recorder)
      ensures State() == Helper(Run(options.arch, 0), Create(MAX_RECORDS), 0, 0)
    {
      this.options := options;
      fixture := new OwnedVmFixture(options.arch);
      recorder := new NativeVmRecorder(MAX_RECORDS);
      lastId, lastNow := 0, 0;
    }

    function State(): Helper
      reads this, fixture, recorder
    {
      Helper(fixture.Contents(), recorder.Contents(), lastId, lastNow)
    }

    method Start(now: nat) returns (ok: bool)
      requires State() == Helper(Run(options.arch, 0), Create(MAX_RECORDS), 0, 0)
      modifies this, fixture, recorder
      ensures ok <==> Startup(options, now).Some?
      ensures ok ==> State() == Startup(options, now).value
    {
      lastNow := now;
      if now == 0 || now + Lifetime(options) > MAX_U64 {
        return false;
      }
      ok := recorder.EnableScope(Scope(options.session, options.document, options.invocation,
          now + Lifetime(options)), now);
    }

    /** One frame through the guards and, at most, one instruction. */
    method HandleRequest(bytes: RequestFrame, now: nat)
          returns (request: P.Request, status: P.Status, result: Option<RecordResult>)
      modifies this, fixture, recorder
      ensures Handled(State(), status, result) == Handle(options, old(State()), bytes, now)
      ensures request == P.Decoded(bytes).0
    {
      result := None;
      var ok;
      request, ok := P.DecodeRequest(bytes);
      if !ok {
        status := P.Malformed;
      } else if request.requestId == 0 || request.requestId <= lastId {
        status := P.RequestId;
      } else {
        lastId := request.requestId;
        if request.requestId == MAX_U64 {
          status := P.ResourceLimit;
        } else if request.generation != options.runGeneration {
          status := P.StaleGeneration;
        } else if request.executedCount != fixture.executed {
          status := P.CountMismatch;
        } else if P.ClockExpired(now, lastNow, recorder.scope.expiresAt) {
          status := P.Expired;
        } else {
          lastNow := now;
          status := P.Ok;
          if request.operation == P.Close {
            status := P.Closed;
          } else if request.operation == P.ExecuteOne {
            status, result := Execute(now);
          }
        }
      }
    }

    method Execute(now: nat) returns (status: P.Status, result: Option<RecordResult>)
      requires lastNow == now
      modifies fixture, recorder
      ensures Handled(State(), status, result) == Dispatch(options, old(State()), now)
    {
      var before := fixture.Contents();
      var outcome, step := fixture.ExecuteOne();
      status, result := ExecuteStatusCode(outcome), None;
      if outcome.Committed? {
        CommittedIsShaped(before);
        var recorded := recorder.RecordStep(options.document, recorder.generation, now, step.value);
        result := Some(recorded);
      }
    }
  }

  function MessageOf(o: Options, r: Reply): Message
    requires PrintableHelper(r.helper, r.result)
  {
    MessageFor(o, r.status, r.request.requestId, r.helper, r.state, r.result)
  }

  type Rendering = (Message, Reply) -> bool

  ghost function Renders(o: Options): Rendering {
    (m: Message, r: Reply) => PrintableHelper(r.helper, r.result) && m == MessageOf(o, r)
  }

  /** The messages of a session's replies, in order. */
  ghost predicate AreMessages(renders: Rendering, wire: seq<Message>, replies: seq<Reply>) {
    && |wire| == |replies|
    && forall i | 0 <= i < |wire| :: renders(wire[i], replies[i])
  }

  /** What one reply must satisfy for its message to fit and the process to go on. */
  ghost predicate StepFits(inv: (Helper, nat) -> bool, k: nat, reply: Reply) {
    && FitsHelper(reply.helper, reply.result) && |reply.state| <= 7
    && (!Terminal(reply) ==> inv(reply.helper, After(k, reply)))
  }

  lemma LiveStepFits(o: Options, h: Helper, k: nat, frame: RequestFrame, now: nat)
    requires Live(o)(h, k)
    ensures StepFits(Live(o), k, ReplyTo(o, h, frame, now))
  {
    hide HelperControl.Tracks, HelperControl.Handle, HelperControl.Answer, FitsHelper;
    LiveSteps(o, h, k, frame, now);
    var reply := ReplyTo(o, h, frame, now);
    TrackedFits(o, reply.helper, After(k, reply), reply.result);
  }

  method AnswerFrame(process: Process, frame: RequestFrame, now: nat) returns (reply: Reply)
    modifies process, process.fixture, process.recorder
    ensures reply == (PeerOf(process.options).reply)(old(process.State()), frame, now)
    ensures reply == ReplyTo(process.options, old(process.State()), frame, now) && process.State() == reply.helper
  {
    var request, status, result := process.HandleRequest(frame, now);
    var settled := Settle(status, process.fixture.Contents());
    reply := Reply(request, status, settled.state, result, process.State());
  }

  /** One turn of the loop, seen from the session. */
  lemma ServeTurns(peer: Peer, h: Helper, clock: nat -> nat, tick: nat, input: seq<Byte>, readError: bool,
        writable: nat)
    requires |input| >= P.REQUEST_BYTES
    ensures var frame := input[..P.REQUEST_BYTES];
            var reply := (peer.reply)(h, frame, clock(tick));
            var t := Serve(peer, h, clock, tick, input, readError, writable);
            if writable == 0 then t == Transcript([], 1)
            else if Terminal(reply) then t == Transcript([reply], Settle(reply.status, reply.helper.fixture).exitCode)
            else
              var next := if (peer.ticks)(h, frame) then tick + 1 else tick;
              var rest := Serve(peer, reply.helper, clock, next, input[P.REQUEST_BYTES..], readError, writable - 1);
              t == Transcript([reply] + rest.replies, rest.exitCode)
  {
  }

  /** What is already on the wire, and what the session still has to say. */
  ghost predicate Continues(whole: Transcript, said: seq<Reply>, t: Transcript) {
    whole.replies == said + t.replies && whole.exitCode == t.exitCode
  }

  ghost predicate AlwaysFits(peer: Peer, inv: (Helper, nat) -> bool) {
    forall h, k, frame: RequestFrame, now | inv(h, k) :: StepFits(inv, k, (peer.reply)(h, frame, now))
  }

  lemma FitsHere(peer: Peer, inv: (Helper, nat) -> bool, h: Helper, k: nat, frame: RequestFrame, now: nat)
    requires AlwaysFits(peer, inv) && inv(h, k)
    ensures var reply := (peer.reply)(h, frame, now);
            && FitsHelper(reply.helper, reply.result) && PrintableHelper(reply.helper, reply.result)
                && |reply.state| <= 7
            && (!Terminal(reply) ==> inv(reply.helper, After(k, reply)))
  {
    assert StepFits(inv, k, (peer.reply)(h, frame, now));
  }

  /** Handle one frame and put its reply into wire form; the process can always do both. */
  method Turn(process: Process, frame: RequestFrame, now: nat, ghost peer: Peer, ghost inv: (Helper, nat) -> bool,
        ghost k: nat)
    returns (reply: Reply, message: Message)
    requires FitsOptions(process.options) && peer == PeerOf(process.options)
    requires AlwaysFits(peer, inv) && inv(process.State(), k)
    modifies process, process.fixture, process.recorder
    ensures reply == (peer.reply)(old(process.State()), frame, now) && process.State() == reply.helper
    ensures Renders(process.options)(message, reply)
    ensures !Terminal(reply) ==> inv(reply.helper, After(k, reply))
  {
    hide FitsHelper, PrintableHelper, PayloadText, HelperControl.ReplyTo, HelperControl.PeerOf, HelperControl.Settle;
    FitsHere(peer, inv, process.State(), k, frame, now);
    reply := AnswerFrame(process, frame, now);
    var built := Respond(process.options, reply.status, reply.request.requestId, reply.helper, reply.state,
        reply.result);
    message := built.value;
    assert message == MessageOf(process.options, reply);
  }

  datatype Round =
    | Broken
    | Retired(reply: Reply, message: Message, exitCode: nat)
    | Going(reply: Reply, message: Message, tick: nat)

  /** What one round contributes to a session, and the session that is left. */
  ghost predicate RoundOf(round: Round, session: Transcript, rest: Transcript) {
    match round
    case Broken => session == Transcript([], 1)
    case Retired(reply, _, exitCode) => session == Transcript([reply], exitCode)
    case Going(reply, _, _) => session == Transcript([reply] + rest.replies, rest.exitCode)
  }

  method DoRound(process: Process, clock: nat -> nat, tick: nat, input: seq<Byte>, readError: bool, left: nat,
                 ghost peer: Peer, ghost inv: (Helper, nat) -> bool, ghost k: nat)
    returns (round: Round)
    requires |input| >= P.REQUEST_BYTES
    requires FitsOptions(process.options) && peer == PeerOf(process.options)
    requires AlwaysFits(peer, inv) && inv(process.State(), k)
    modifies process, process.fixture, process.recorder
    ensures round.Broken? || Renders(process.options)(round.message, round.reply)
    ensures round.Going? ==>
        left > 0 && process.State() == round.reply.helper && inv(process.State(), After(k, round.reply))
    ensures RoundOf(round, Serve(peer, old(process.State()), clock, tick, input, readError, left),
                    if round.Going?
                        then Serve(peer, process.State(), clock, round.tick, input[P.REQUEST_BYTES..], readError,
                            left - 1)
                    else Transcript([], 0))
  {
    var frame: RequestFrame := input[..P.REQUEST_BYTES];
    var consulted := Consults(process, frame);
    ServeTurns(peer, process.State(), clock, tick, input, readError, left);
    var reply, message := Turn(process, frame, clock(tick), peer, inv, k);
    if left == 0 {
      return Broken;
    }
    var settled := Settle(reply.status, reply.helper.fixture);
    if settled.terminal {
      return Retired(reply, message, settled.exitCode);
    }
    return Going(reply, message, if consulted then tick + 1 else tick);
  }

  lemma RoundContinues(whole: Transcript, said: seq<Reply>, round: Round, session: Transcript, rest: Transcript)
    requires Continues(whole, said, session) && RoundOf(round, session, rest)
    ensures match round
            case Broken => whole == Transcript(said, 1)
            case Retired(reply, _, exitCode) => whole == Transcript(said + [reply], exitCode)
            case Going(reply, _, _) => Continues(whole, said + [reply], rest)
  {
    assert said + [] == said;
    if round.Going? {
      assert said + ([round.reply] + rest.replies) == (said + [round.reply]) + rest.replies;
    }
  }

  lemma SessionStarts(whole: Transcript)
    ensures Continues(whole, [], whole)
  {
    assert whole.replies == [] + whole.replies;
  }

  /** Without a whole frame left, everything the session says has been said. */
  lemma SessionStops(whole: Transcript, said: seq<Reply>, peer: Peer, h: Helper, clock: nat -> nat, tick: nat,
                     rest: seq<Byte>, readError: bool, left: nat)
    requires |rest| < P.REQUEST_BYTES && Continues(whole, said, Serve(peer, h, clock, tick, rest, readError, left))
    ensures whole == Transcript(said, if rest == [] && !readError then 0 else 2)
  {
    assert said + [] == said;
  }

  /** The request loop, from the first request on. */
  method ServeRequests(process: Process, clock: nat -> nat, input: seq<Byte>, readError: bool, writable: nat,
                       ghost peer: Peer, ghost inv: (Helper, nat) -> bool, ghost k: nat)
    returns (wire: seq<Message>, exitCode: nat, ghost replies: seq<Reply>)
    requires FitsOptions(process.options) && inv(process.State(), k)
    requires peer == PeerOf(process.options) && AlwaysFits(peer, inv)
    modifies process, process.fixture, process.recorder
    ensures Transcript(replies, exitCode) == Serve(peer, old(process.State()), clock, 1, input, readError, writable)
    ensures AreMessages(Renders(process.options), wire, replies)
  {
    hide Renders, AlwaysFits, HelperControl.PeerOf, HelperControl.Serve, FitsOptions, RoundOf, Continues;
    wire, replies := [], [];
    var tick, rest, left: nat := 1, input, writable;
    ghost var committed := k;
    ghost var session := Serve(peer, process.State(), clock, tick, input, readError, writable);
    ghost var whole := session;
    SessionStarts(whole);
    while |rest| >= P.REQUEST_BYTES
      invariant inv(process.State(), committed)
      invariant AreMessages(Renders(process.options), wire, replies)
      invariant session == Serve(peer, process.State(), clock, tick, rest, readError, left)
      invariant Continues(whole, replies, session)
      decreases |rest|
    {
      var round := DoRound(process, clock, tick, rest, readError, left, peer, inv, committed);
      if round.Broken? {
        RoundContinues(whole, replies, round, session, Transcript([], 0));
        return wire, 1, replies;
      }
      wire := wire + [round.message];
      if round.Retired? {
        RoundContinues(whole, replies, round, session, Transcript([], 0));
        replies := replies + [round.reply];
        return wire, round.exitCode, replies;
      }
      tick, rest, left := round.tick, rest[P.REQUEST_BYTES..], left - 1;
      ghost var remaining := Serve(peer, process.State(), clock, tick, rest, readError, left);
      RoundContinues(whole, replies, round, session, remaining);
      replies, committed, session := replies + [round.reply], After(committed, round.reply), remaining;
    }
    exitCode := if rest == [] && !readError then 0 else 2;
    SessionStops(whole, replies, peer, process.State(), clock, tick, rest, readError, left);
  }

  /** Whether answering this frame will take a clock reading. */
  method Consults(process: Process, frame: RequestFrame) returns (consulted: bool)
    ensures consulted == (PeerOf(process.options).ticks)(process.State(), frame)
  {
    consulted := ReadsClock(process.options, process.State(), frame);
  }

  lemma StartupIsLive(o: Options, now: nat)
    requires ValidOptions(o) && Startup(o, now).Some?
    ensures Live(o)(Startup(o, now).value, 0)
    ensures FitsHelper(Startup(o, now).value, None) && PrintableHelper(Startup(o, now).value, None)
  {
    StartupTracks(o, now);
    TrackedFits(o, Startup(o, now).value, 0, None);
  }

  /**
   * The whole process: the greeting, then exactly the session's replies as messages.
   * `writable` counts the messages the peer takes before its end of the pipe closes.
   */
  method ControlMain(o: Options, clock: nat -> nat, input: seq<Byte>, readError: bool, writable: nat)
    returns (wire: seq<Message>, exitCode: nat, ghost replies: seq<Reply>)
    requires ValidOptions(o)
    ensures Startup(o, clock(0)).None? || writable == 0 ==> wire == [] && exitCode == 1
    ensures Startup(o, clock(0)).Some? && writable > 0 ==>
              var h := Startup(o, clock(0)).value;
              && Transcript(replies, exitCode) == Serve(PeerOf(o), h, clock, 1, input, readError, writable - 1)
              && PrintableHelper(h, None)
              && wire != [] && wire[0] == MessageFor(o, P.Ok, 0, h, "paused", None)
              && AreMessages(Renders(o), wire[1..], replies)
  {
    hide PrintableHelper, FitsHelper, MessageFor, Renders, HelperControl.PeerOf, HelperControl.Startup,
        HelperControl.Serve;
    replies := [];
    var process := new Process(o);
    var ok := process.Start(clock(0));
    if !ok {
      return [], 1, [];
    }
    StartupIsLive(o, clock(0));
    var greeting := Respond(o, P.Ok, 0, process.State(), "paused", None);
    if greeting.None? || writable == 0 {
      return [], 1, [];
    }
    var rest;
    rest, exitCode, replies := ServeFrom(process, clock, input, readError, writable - 1);
    wire := [greeting.value] + rest;
    assert wire[1..] == rest;
  }

  method ServeFrom(process: Process, clock: nat -> nat, input: seq<Byte>, readError: bool, writable: nat)
    returns (wire: seq<Message>, exitCode: nat, ghost replies: seq<Reply>)
    requires ValidOptions(process.options) && Startup(process.options, clock(0)) == Some(process.State())
    modifies process, process.fixture, process.recorder
    ensures Transcript(replies, exitCode) ==
            Serve(PeerOf(process.options), old(process.State()), clock, 1, input, readError, writable)
    ensures AreMessages(Renders(process.options), wire, replies)
  {
    ghost var o := process.options;
    StartupIsLive(o, clock(0));
    LiveAlwaysFits(o);
    wire, exitCode, replies := ServeRequests(process, clock, input, readError, writable, PeerOf(o), Live(o), 0);
  }

  lemma LiveAlwaysFits(o: Options)
    ensures AlwaysFits(PeerOf(o), Live(o))
  {
    forall h, k, frame: RequestFrame, now | Live(o)(h, k)
      ensures StepFits(Live(o), k, (PeerOf(o).reply)(h, frame, now)) {
      LiveStepFits(o, h, k, frame, now);
    }
  }
}
