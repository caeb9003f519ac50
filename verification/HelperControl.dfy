/**
 * The guarded one-step helper: `ControlMain`, `Settle`, `Respond` and `ReadRequest`
 * in apps/reb-native-vm-fixture/main.cpp, over the protocol, the interpreter and the
 * recorder. A session is a function of the request bytes and the clock readings.
 */
module HelperControl {
  import opened Outcomes
  import opened LittleEndian
  import P = HelperProtocol
  import opened OwnedVm
  import opened NativeRecorder

  const MAX_LIFETIME_MS: nat := 60000

  datatype Options = Options(arch: Architecture, session: nat, document: nat, invocation: nat,
                             runGeneration: nat, lifetimeMs: nat)

  /** What argument parsing admits: nonzero canonical uint64 values and a bounded lifetime. */
  predicate ValidOptions(o: Options) {
    && 0 < o.session <= MAX_U64 && 0 < o.document <= MAX_U64 && 0 < o.invocation <= MAX_U64
    && 0 < o.runGeneration <= MAX_U64 && 0 < o.lifetimeMs <= MAX_LIFETIME_MS
  }

  /** The process: interpreter, recorder, the last admitted identifier and the last clock reading. */
  datatype Helper = Helper(fixture: Fixture, recorder: Recorder, lastId: nat, lastNow: nat)

  function Deadline(h: Helper): nat { h.recorder.scope.expiresAt }

  function Lifetime(o: Options): nat { o.lifetimeMs * 1000000 }

  /** None when the clock cannot carry the lifetime; the process then exits at once. */
  function Startup(o: Options, now: nat): Option<Helper> {
    if now == 0 || now + Lifetime(o) > MAX_U64 then None
    else
      var scope := Scope(o.session, o.document, o.invocation, now + Lifetime(o));
      var (recorder, ok) := Enable(Create(MAX_RECORDS), scope, now);
      if ok then Some(Helper(Run(o.arch, 0), recorder, 0, now)) else None
  }

  datatype Handled = Handled(helper: Helper, status: P.Status, result: Option<RecordResult>)

  function ExecuteStatusCode(s: ExecuteStatus): P.Status {
    match s
    case Committed => P.Ok
    case Halted => P.Halted
    case Budget => P.ResourceLimit
    case InvalidState => P.FixtureError
  }

  /** Whether a request passes identifier, generation and count guards, so that the clock is read. */
  predicate Admissible(o: Options, h: Helper, r: P.Request) {
    && h.lastId < r.requestId < MAX_U64
    && r.generation == o.runGeneration && r.executedCount == h.fixture.executed
  }

  predicate ReadsClock(o: Options, h: Helper, bytes: seq<Byte>)
    requires |bytes| == P.REQUEST_BYTES
  {
    var (r, ok) := P.Decoded(bytes);
    ok && Admissible(o, h, r)
  }

  /** One interpreter step, recorded with the reading that admitted it. */
  function Dispatch(o: Options, h: Helper, now: nat): Handled {
    var next := h.(lastNow := now);
    var status := StatusOf(h.fixture);
    if status.Committed? then
      CommittedIsShaped(h.fixture);
      var (recorder, result) := Record(h.recorder, o.document, h.recorder.generation, now, InstructionOf(h.fixture));
      Handled(next.(fixture := Stepped(h.fixture), recorder := recorder), P.Ok, Some(result))
    else Handled(next, ExecuteStatusCode(status), None)
  }

  lemma {:induction false} CommittedIsShaped(f: Fixture)
    requires StatusOf(f).Committed?
    ensures ShapedStep(InstructionOf(f))
  {
    assert Shaped(f.state) by { assert f.state == Expected(f.arch, f.executed); }
    assert Shaped(Decode(f.arch, f.state).value.next);
  }

  function Handle(o: Options, h: Helper, bytes: seq<Byte>, now: nat): Handled
    requires |bytes| == P.REQUEST_BYTES
  {
    var (r, ok) := P.Decoded(bytes);
    if !ok then Handled(h, P.Malformed, None)
    else if r.requestId == 0 || r.requestId <= h.lastId then Handled(h, P.RequestId, None)
    else
      // Even a rejected request consumes its identifier.
      var taken := h.(lastId := r.requestId);
      if r.requestId == MAX_U64 then Handled(taken, P.ResourceLimit, None)
      else if r.generation != o.runGeneration then Handled(taken, P.StaleGeneration, None)
      else if r.executedCount != h.fixture.executed then Handled(taken, P.CountMismatch, None)
      else if P.ClockExpired(now, h.lastNow, Deadline(h)) then Handled(taken, P.Expired, None)
      else
        match r.operation
        case Close => Handled(taken.(lastNow := now), P.Closed, None)
        case Inspect => Handled(taken.(lastNow := now), P.Ok, None)
        case ExecuteOne => Dispatch(o, taken, now)
  }

  datatype Settlement = Settlement(state: string, terminal: bool, exitCode: nat)

  /** What a status tells the peer and the request loop. */
  function Settle(status: P.Status, fixture: Fixture): Settlement {
    match status
    case Malformed => Settlement("failed", true, 2)
    case FixtureError => Settlement("failed", true, 2)
    case ResourceLimit => Settlement("failed", true, 0)
    case Expired => Settlement("expired", true, 0)
    case Closed => Settlement("stopped", true, 0)
    case Ok => Settlement(Resting(fixture), false, 0)
    case StaleGeneration => Settlement(Resting(fixture), false, 0)
    case CountMismatch => Settlement(Resting(fixture), false, 0)
    case RequestId => Settlement(Resting(fixture), false, 0)
    case Halted => Settlement(Resting(fixture), false, 0)
  }

  function Resting(fixture: Fixture): string {
    if fixture.state.halted then "halted" else "paused"
  }

  datatype Reply = Reply(request: P.Request, status: P.Status, state: string, result: Option<RecordResult>,
        helper: Helper)

  function ReplyTo(o: Options, h: Helper, bytes: seq<Byte>, now: nat): Reply
    requires |bytes| == P.REQUEST_BYTES
  {
    var handled := Handle(o, h, bytes, now);
    Reply(P.Decoded(bytes).0, handled.status, Settle(handled.status, handled.helper.fixture).state, handled.result,
        handled.helper)
  }

  type RequestFrame = bytes: seq<Byte> | |bytes| == P.REQUEST_BYTES witness seq(P.REQUEST_BYTES, _ => 0)

  /** One process as its request loop sees it: how it answers, and whether that reads the clock. */
  datatype Peer = Peer(reply: (Helper, RequestFrame, nat) -> Reply, ticks: (Helper, RequestFrame) -> bool)

  function PeerOf(o: Options): Peer {
    Peer((h: Helper, bytes: RequestFrame, now: nat) => ReplyTo(o, h, bytes, now),
         (h: Helper, bytes: RequestFrame) => ReadsClock(o, h, bytes))
  }

  datatype Transcript = Transcript(replies: seq<Reply>, exitCode: nat)

  /**
   * The request loop. `readError` says how the input ends after its bytes; `clock`
   * gives successive readings from `tick` on; `writable` is how many replies the
   * peer still takes before its end of the pipe closes.
   */
  function Serve(peer: Peer, h: Helper, clock: nat -> nat, tick: nat, input: seq<Byte>, readError: bool,
        writable: nat): Transcript
    decreases |input|
  {
    if |input| < P.REQUEST_BYTES then Transcript([], if input == [] && !readError then 0 else 2)
    else
      var frame := input[..P.REQUEST_BYTES];
      var reply := (peer.reply)(h, frame, clock(tick));
      var settled := Settle(reply.status, reply.helper.fixture);
      if writable == 0 then Transcript([], 1)
      else if settled.terminal then Transcript([reply], settled.exitCode)
      else
        var rest := Serve(peer, reply.helper, clock, if (peer.ticks)(h, frame) then tick + 1 else tick,
                          input[P.REQUEST_BYTES..], readError, writable - 1);
        Transcript([reply] + rest.replies, rest.exitCode)
  }

  // ---------------------------------------------------------------- the invariant of every session

  ghost predicate IsEntryFor(arch: Architecture, e: Entry, i: nat) {
    i < 9 && StatusOf(Run(arch, i)).Committed? && e.sequence == i + 1 && e.step == InstructionOf(Run(arch, i))
  }

  /** The recorder holds the first `k` instructions, with readings that never go back. */
  ghost predicate RecorderTracks(o: Options, r: Recorder, k: nat) {
    && r.enabled && r.capacity == MAX_RECORDS && |r.entries| == k
    && r.scope.document == o.document && r.scope.session == o.session && r.scope.invocation == o.invocation
    && r.stats == NO_STATS.(attempted := k, recorded := k)
    && (forall i | 0 <= i < k :: IsEntryFor(o.arch, r.entries[i], i) && 0 < r.entries[i].tick <= r.lastTick)
    && (forall i, j | 0 <= i < j < k :: r.entries[i].tick <= r.entries[j].tick)
  }

  /** `k` instructions have been committed, every one of them recorded, inside the deadline. */
  ghost predicate Tracks(o: Options, h: Helper, k: nat) {
    && k <= 9 && h.fixture == Run(o.arch, k)
    && RecorderTracks(o, h.recorder, k)
    && h.recorder.lastTick <= h.lastNow < h.recorder.scope.expiresAt <= MAX_U64
  }

  lemma StartupTracks(o: Options, now: nat)
    requires ValidOptions(o)
    ensures Startup(o, now).Some? <==> now != 0 && now + Lifetime(o) <= MAX_U64
    ensures Startup(o, now).Some? ==> Tracks(o, Startup(o, now).value, 0) && Startup(o, now).value.lastId == 0
  {
  }

  lemma RecordAccepts(r: Recorder, now: nat, step: Instruction)
    requires ShapedStep(step) && ValidStep(step) && !IsPartial(step)
    requires r.enabled && r.lastTick <= now < r.scope.expiresAt && |r.entries| < r.capacity
    requires r.stats.attempted < MAX_U64 && r.stats.recorded < MAX_U64
    ensures Record(r, r.scope.document, r.generation, now, step) ==
            (r.(lastTick := now, entries := r.entries + [Entry(r.stats.attempted + 1, now, step)],
                stats := r.stats.(attempted := r.stats.attempted + 1, recorded := r.stats.recorded + 1)), Recorded)
  {
  }

  lemma {:induction false} EntriesGrow(o: Options, r: Recorder, k: nat, e: Entry)
    requires RecorderTracks(o, r, k) && IsEntryFor(o.arch, e, k) && 0 < e.tick && r.lastTick <= e.tick
    ensures RecorderTracks(o, r.(lastTick := e.tick, entries := r.entries + [e],
                                 stats := r.stats.(attempted := k + 1, recorded := k + 1)), k + 1)
  {
    hide IsEntryFor;
    var entries := r.entries + [e];
    forall i | 0 <= i < k + 1 ensures IsEntryFor(o.arch, entries[i], i) && 0 < entries[i].tick <= e.tick {
      assert i < k ==> entries[i] == r.entries[i];
    }
    forall i, j | 0 <= i < j < k + 1 ensures entries[i].tick <= entries[j].tick {
      assert entries[i] == r.entries[i];
      assert j < k ==> entries[j] == r.entries[j];
    }
  }

  lemma RecordTracks(o: Options, r: Recorder, k: nat, now: nat)
    requires k < 9 && RecorderTracks(o, r, k) && 0 < now && r.lastTick <= now < r.scope.expiresAt
    ensures StatusOf(Run(o.arch, k)).Committed? && ShapedStep(InstructionOf(Run(o.arch, k)))
    ensures var (recorder, result) := Record(r, o.document, r.generation, now, InstructionOf(Run(o.arch, k)));
            result == Recorded && RecorderTracks(o, recorder, k + 1) && recorder.lastTick == now
                && recorder.scope == r.scope
  {
    ProgramStepsAreValid(o.arch, k);
    var step := InstructionOf(Run(o.arch, k));
    RecordAccepts(r, now, step);
    EntriesGrow(o, r, k, Entry(k + 1, now, step));
  }

  lemma DispatchTracks(o: Options, h: Helper, k: nat, now: nat)
    requires Tracks(o, h, k) && !P.ClockExpired(now, h.lastNow, Deadline(h))
    ensures var d := Dispatch(o, h, now);
            && d.helper.lastId == h.lastId && Deadline(d.helper) == Deadline(h)
            && if k < 9 then d.status == P.Ok && d.result == Some(Recorded) && Tracks(o, d.helper, k + 1)
               else
                 && d.status == P.Halted && d.result == None
                 && Tracks(o, d.helper, k) && d.helper.recorder == h.recorder
  {
    if k < 9 {
      RecordTracks(o, h.recorder, k, now);
    } else {
      RunIsExpected(o.arch, k);
    }
  }

  /** What one handled frame does to a tracked helper. */
  ghost predicate HandledWell(o: Options, h: Helper, k: nat, r: P.Request, ok: bool, handled: Handled) {
    && Deadline(handled.helper) == Deadline(h)
    && (handled.result.Some? ==>
          && handled.status == P.Ok && handled.result == Some(Recorded)
          && ok && r.operation == P.ExecuteOne && Admissible(o, h, r) && r.executedCount == k
          && k < 9 && Tracks(o, handled.helper, k + 1))
    && (handled.result.None? ==> Tracks(o, handled.helper, k) && handled.helper.recorder == h.recorder)
    && (handled.helper.lastId < MAX_U64 || Settle(handled.status, handled.helper.fixture).terminal)
    && handled.helper.lastId == (if ok && r.requestId > h.lastId then r.requestId else h.lastId)
    && (handled.status.Malformed? || handled.status.RequestId? <==> handled.helper.lastId == h.lastId)
  }

  /** Every frame that does not dispatch leaves interpreter and recorder alone. */
  lemma {:induction false} HandleGuards(o: Options, h: Helper, bytes: seq<Byte>, now: nat)
    requires |bytes| == P.REQUEST_BYTES && h.lastId < MAX_U64 && h.lastNow < Deadline(h)
    ensures var (r, ok) := P.Decoded(bytes);
            var handled := Handle(o, h, bytes, now);
            var lastId := if ok && r.requestId > h.lastId then r.requestId else h.lastId;
            var passes := ok && Admissible(o, h, r) && !P.ClockExpired(now, h.lastNow, Deadline(h));
            if passes && r.operation.ExecuteOne? then handled == Dispatch(o, h.(lastId := r.requestId), now)
            else
              && handled.result.None?
              && handled.helper == h.(lastId := lastId, lastNow := if passes then now else h.lastNow)
              && (lastId < MAX_U64 || Settle(handled.status, h.fixture).terminal)
              && (handled.status.Malformed? || handled.status.RequestId? <==> lastId == h.lastId)
  {
    P.FrameOfBytes(bytes);
  }

  lemma StaysTracked(o: Options, h: Helper, k: nat, id: nat, now: nat)
    requires Tracks(o, h, k) && h.lastNow <= now < Deadline(h)
    ensures Tracks(o, h.(lastId := id, lastNow := now), k)
  {
  }

  lemma GuardedWell(o: Options, h: Helper, k: nat, r: P.Request, ok: bool, handled: Handled, now: nat)
    requires Tracks(o, h, k) && h.lastNow <= now < Deadline(h) && handled.result.None?
    requires var lastId := if ok && r.requestId > h.lastId then r.requestId else h.lastId;
             && handled.helper == h.(lastId := lastId, lastNow := now)
             && (lastId < MAX_U64 || Settle(handled.status, h.fixture).terminal)
             && (handled.status.Malformed? || handled.status.RequestId? <==> lastId == h.lastId)
    ensures HandledWell(o, h, k, r, ok, handled)
  {
    StaysTracked(o, h, k, handled.helper.lastId, now);
  }

  lemma DispatchedWell(o: Options, h: Helper, k: nat, r: P.Request, now: nat)
    requires Tracks(o, h, k) && Admissible(o, h, r) && r.operation.ExecuteOne?
    requires !P.ClockExpired(now, h.lastNow, Deadline(h))
    ensures HandledWell(o, h, k, r, true, Dispatch(o, h.(lastId := r.requestId), now))
  {
    StaysTracked(o, h, k, r.requestId, h.lastNow);
    DispatchTracks(o, h.(lastId := r.requestId), k, now);
    RunIsExpected(o.arch, k);
    var d := Dispatch(o, h.(lastId := r.requestId), now);
    assert r.executedCount == k;
  }

  /** One frame: the interpreter moves by one committed instruction or not at all. */
  lemma HandleTracks(o: Options, h: Helper, k: nat, bytes: seq<Byte>, now: nat)
    requires |bytes| == P.REQUEST_BYTES && Tracks(o, h, k) && h.lastId < MAX_U64
    ensures HandledWell(o, h, k, P.Decoded(bytes).0, P.Decoded(bytes).1, Handle(o, h, bytes, now))
  {
    var (r, ok) := P.Decoded(bytes);
    HandleGuards(o, h, bytes, now);
    var passes := ok && Admissible(o, h, r) && !P.ClockExpired(now, h.lastNow, Deadline(h));
    if passes && r.operation.ExecuteOne? {
      DispatchedWell(o, h, k, r, now);
    } else {
      GuardedWell(o, h, k, r, ok, Handle(o, h, bytes, now), if passes then now else h.lastNow);
    }
  }

  // ---------------------------------------------------------------- whole sessions

  function Commits(replies: seq<Reply>, n: nat): nat
    requires n <= |replies|
  {
    if n == 0 then 0 else Commits(replies, n - 1) + (if replies[n - 1].result.Some? then 1 else 0)
  }

  lemma {:induction false} CommitsShift(first: Reply, rest: seq<Reply>, n: nat)
    requires n <= |rest|
    ensures Commits([first] + rest, n + 1) == (if first.result.Some? then 1 else 0) + Commits(rest, n)
  {
    if n == 0 {
      assert Commits([first] + rest, 0) == 0;
    } else {
      CommitsShift(first, rest, n - 1);
      assert ([first] + rest)[n] == rest[n - 1];
    }
  }

  function Terminal(r: Reply): bool { Settle(r.status, r.helper.fixture).terminal }

  function FrameAt(input: seq<Byte>, i: nat): seq<Byte>
    requires P.REQUEST_BYTES * (i + 1) <= |input|
  {
    input[P.REQUEST_BYTES * i..P.REQUEST_BYTES * (i + 1)]
  }

  function HelperBefore(h: Helper, replies: seq<Reply>, i: nat): Helper
    requires i <= |replies|
  {
    if i == 0 then h else replies[i - 1].helper
  }

  /** One reply to one frame. */
  ghost predicate Answer(o: Options, h: Helper, k: nat, frame: seq<Byte>, reply: Reply) {
    && |frame| == P.REQUEST_BYTES
    && (var (r, ok) := P.Decoded(frame);
        reply.request == r && HandledWell(o, h, k, r, ok, Handled(reply.helper, reply.status, reply.result)))
    && Tracks(o, reply.helper, k + (if reply.result.Some? then 1 else 0))
  }

  type Judgement = (Helper, nat, seq<Byte>, Reply) -> bool

  ghost function Judge(o: Options): Judgement {
    (h: Helper, k: nat, frame: seq<Byte>, reply: Reply) => Answer(o, h, k, frame, reply)
  }

  function After(k: nat, reply: Reply): nat { k + (if reply.result.Some? then 1 else 0) }

  /** The replies answer the frames of the input in order, and only the last may be terminal. */
  ghost predicate Answered(good: Judgement, h: Helper, k: nat, input: seq<Byte>, replies: seq<Reply>)
    decreases |replies|
  {
    replies != [] ==>
      && |input| >= P.REQUEST_BYTES
      && good(h, k, input[..P.REQUEST_BYTES], replies[0])
      && (|replies| > 1 ==> !Terminal(replies[0]))
      && Answered(good, replies[0].helper, After(k, replies[0]), input[P.REQUEST_BYTES..], replies[1..])
  }

  /** The `i`-th reply answers the `i`-th frame by one good step of the process before it. */
  ghost predicate AnsweredAt(good: Judgement, h: Helper, k: nat, input: seq<Byte>, replies: seq<Reply>, i: nat)
    requires i < |replies|
  {
    && P.REQUEST_BYTES * (i + 1) <= |input|
    && good(HelperBefore(h, replies, i), k + Commits(replies, i), FrameAt(input, i), replies[i])
    && (i + 1 < |replies| ==> !Terminal(replies[i]))
  }

  lemma {:induction false} EveryReplyAnswers(good: Judgement, h: Helper, k: nat, input: seq<Byte>, replies: seq<Reply>,
        i: nat)
    requires i < |replies| && Answered(good, h, k, input, replies)
    ensures AnsweredAt(good, h, k, input, replies, i)
    decreases i
  {
    if i == 0 {
      assert FrameAt(input, 0) == input[..P.REQUEST_BYTES];
    } else {
      var first, rest := replies[0], replies[1..];
      EveryReplyAnswers(good, first.helper, After(k, first), input[P.REQUEST_BYTES..], rest, i - 1);
      assert replies == [first] + rest;
      CommitsShift(first, rest, i - 1);
      assert FrameAt(input, i) == FrameAt(input[P.REQUEST_BYTES..], i - 1);
    }
  }

  /** One step good enough for a judgement, keeping an invariant while the process lives. */
  ghost predicate Sustains(inv: (Helper, nat) -> bool, good: Judgement, h: Helper, k: nat, frame: seq<Byte>,
        reply: Reply) {
    good(h, k, frame, reply) && (!Terminal(reply) ==> inv(reply.helper, After(k, reply)))
  }

  lemma ServeUnfolds(peer: Peer, h: Helper, clock: nat -> nat, tick: nat, input: seq<Byte>, readError: bool,
        writable: nat)
    returns (reply: Reply, tick': nat)
    requires |input| >= P.REQUEST_BYTES && writable > 0
    ensures reply == (peer.reply)(h, input[..P.REQUEST_BYTES], clock(tick))
    ensures Serve(peer, h, clock, tick, input, readError, writable).replies ==
            [reply] + if Terminal(reply) then []
                      else Serve(peer, reply.helper, clock, tick', input[P.REQUEST_BYTES..], readError,
                          writable - 1).replies
  {
    reply := (peer.reply)(h, input[..P.REQUEST_BYTES], clock(tick));
    tick' := if (peer.ticks)(h, input[..P.REQUEST_BYTES]) then tick + 1 else tick;
  }

  lemma ServeStep(inv: (Helper, nat) -> bool, good: Judgement, peer: Peer, h: Helper, k: nat,
                  clock: nat -> nat, tick: nat, input: seq<Byte>, readError: bool, writable: nat)
    returns (reply: Reply, tick': nat, rest: seq<Reply>)
    requires |input| >= P.REQUEST_BYTES && writable > 0 && inv(h, k)
    requires forall h', k', frame: RequestFrame, now | inv(h', k') ::
               Sustains(inv, good, h', k', frame, (peer.reply)(h', frame, now))
    ensures Serve(peer, h, clock, tick, input, readError, writable).replies == [reply] + rest
    ensures rest == if Terminal(reply) then []
                    else Serve(peer, reply.helper, clock, tick', input[P.REQUEST_BYTES..], readError,
                        writable - 1).replies
    ensures good(h, k, input[..P.REQUEST_BYTES], reply)
    ensures !Terminal(reply) ==> inv(reply.helper, After(k, reply))
  {
    reply, tick' := ServeUnfolds(peer, h, clock, tick, input, readError, writable);
    rest := if Terminal(reply) then []
            else Serve(peer, reply.helper, clock, tick', input[P.REQUEST_BYTES..], readError, writable - 1).replies;
    assert Sustains(inv, good, h, k, input[..P.REQUEST_BYTES], reply);
  }

  lemma AnsweredCons(good: Judgement, h: Helper, k: nat, input: seq<Byte>, reply: Reply, rest: seq<Reply>)
    requires |input| >= P.REQUEST_BYTES && good(h, k, input[..P.REQUEST_BYTES], reply)
    requires rest != [] ==> !Terminal(reply)
    requires Answered(good, reply.helper, After(k, reply), input[P.REQUEST_BYTES..], rest)
    ensures Answered(good, h, k, input, [reply] + rest)
  {
    assert ([reply] + rest)[1..] == rest;
  }

  lemma ServeStops(peer: Peer, h: Helper, clock: nat -> nat, tick: nat, input: seq<Byte>, readError: bool,
        writable: nat)
    requires |input| < P.REQUEST_BYTES || writable == 0
    ensures Serve(peer, h, clock, tick, input, readError, writable).replies == []
  {
  }

  lemma {:induction false} SessionAnswers(
      inv: (Helper, nat) -> bool, good: Judgement, peer: Peer, h: Helper, k: nat,
      clock: nat -> nat, tick: nat, input: seq<Byte>, readError: bool, writable: nat)
    requires inv(h, k)
    requires forall h', k', frame: RequestFrame, now | inv(h', k') ::
               Sustains(inv, good, h', k', frame, (peer.reply)(h', frame, now))
    ensures Answered(good, h, k, input, Serve(peer, h, clock, tick, input, readError, writable).replies)
    decreases |input|
  {
    if |input| < P.REQUEST_BYTES || writable == 0 {
      ServeStops(peer, h, clock, tick, input, readError, writable);
    } else {
      var reply, tick', rest := ServeStep(inv, good, peer, h, k, clock, tick, input, readError, writable);
      if !Terminal(reply) {
        SessionAnswers(inv, good, peer, reply.helper, After(k, reply), clock, tick', input[P.REQUEST_BYTES..],
            readError, writable - 1);
      }
      AnsweredCons(good, h, k, input, reply, rest);
    }
  }

  /** How a session ends: a terminal reply, a closed pipe, or the end of the input. */
  ghost predicate EndsWell(t: Transcript, frames: nat, leftover: bool, writable: nat) {
    var n := |t.replies|;
    var retired := n > 0 && Terminal(t.replies[n - 1]);
    && n <= frames && n <= writable
    && (n < frames ==> n == writable || retired)
    && t.exitCode == (if retired then Settle(t.replies[n - 1].status, t.replies[n - 1].helper.fixture).exitCode
                      else if n < frames then 1 else if leftover then 2 else 0)
  }

  lemma {:induction false} SessionEnds(
      peer: Peer, h: Helper, clock: nat -> nat, tick: nat, input: seq<Byte>, readError: bool, writable: nat)
    ensures EndsWell(Serve(peer, h, clock, tick, input, readError, writable), |input| / P.REQUEST_BYTES,
                     readError || |input| % P.REQUEST_BYTES != 0, writable)
    decreases |input|
  {
    if |input| >= P.REQUEST_BYTES && writable > 0 {
      var reply := (peer.reply)(h, input[..P.REQUEST_BYTES], clock(tick));
      var rest := input[P.REQUEST_BYTES..];
      assert |rest| / P.REQUEST_BYTES == |input| / P.REQUEST_BYTES - 1;
      assert |rest| % P.REQUEST_BYTES == |input| % P.REQUEST_BYTES;
      if !Terminal(reply) {
        var tick' := if (peer.ticks)(h, input[..P.REQUEST_BYTES]) then tick + 1 else tick;
        SessionEnds(peer, reply.helper, clock, tick', rest, readError, writable - 1);
      }
    }
  }

  ghost function Live(o: Options): (Helper, nat) -> bool {
    (h: Helper, k: nat) => Tracks(o, h, k) && h.lastId < MAX_U64
  }

  lemma ReplyTracks(o: Options, h: Helper, k: nat, frame: seq<Byte>, now: nat)
    requires Tracks(o, h, k) && h.lastId < MAX_U64 && |frame| == P.REQUEST_BYTES
    ensures var reply := ReplyTo(o, h, frame, now);
            && Answer(o, h, k, frame, reply) && Tracks(o, reply.helper, After(k, reply))
            && (!Terminal(reply) ==> reply.helper.lastId < MAX_U64)
  {
    hide Handle, RecorderTracks;
    HandleTracks(o, h, k, frame, now);
  }

  lemma {:induction false} LiveSteps(o: Options, h: Helper, k: nat, frame: seq<Byte>, now: nat)
    requires Live(o)(h, k) && |frame| == P.REQUEST_BYTES
    ensures Sustains(Live(o), Judge(o), h, k, frame, ReplyTo(o, h, frame, now))
    ensures Tracks(o, ReplyTo(o, h, frame, now).helper, After(k, ReplyTo(o, h, frame, now)))
  {
    ReplyTracks(o, h, k, frame, now);
    hide Answer, Tracks, ReplyTo, Terminal;
  }

  /**
   * The helper refines the plain interpreter on every frame stream and clock. After
   * each reply the process is the interpreter run by the commits so far; nothing but
   * a committed reply moves it; every commit is recorded, with readings that never
   * go back and stay below the deadline; and every complete frame gets one reply
   * until the first terminal reply or a closed pipe.
   */
  lemma {:induction false} SessionRefinesInterpreter(
      o: Options, now: nat, clock: nat -> nat, tick: nat, input: seq<Byte>, readError: bool, writable: nat)
    requires ValidOptions(o) && Startup(o, now).Some?
    ensures var h := Startup(o, now).value;
            var t := Serve(PeerOf(o), h, clock, tick, input, readError, writable);
            && EndsWell(t, |input| / P.REQUEST_BYTES, readError || |input| % P.REQUEST_BYTES != 0, writable)
            && (forall i | 0 <= i < |t.replies| ::
                  && AnsweredAt(Judge(o), h, 0, input, t.replies, i)
                  && t.replies[i].helper.fixture == Run(o.arch, Commits(t.replies, i + 1)))
  {
    hide RecorderTracks, Serve, AnsweredAt, Startup, Sustains, Answered, EndsWell, Run;
    StartupTracks(o, now);
    var h := Startup(o, now).value;
    LiveSustains(o);
    SessionAnswers(Live(o), Judge(o), PeerOf(o), h, 0, clock, tick, input, readError, writable);
    SessionEnds(PeerOf(o), h, clock, tick, input, readError, writable);
    var replies := Serve(PeerOf(o), h, clock, tick, input, readError, writable).replies;
    forall i | 0 <= i < |replies| ensures AnsweredAt(Judge(o), h, 0, input, replies, i)
                                          && replies[i].helper.fixture == Run(o.arch, Commits(replies, i + 1)) {
      EveryReplyAnswers(Judge(o), h, 0, input, replies, i);
      AnswerTracks(o, h, 0, input, replies, i);
    }
  }

  lemma LiveSustains(o: Options)
    ensures forall h, k, frame: RequestFrame, now | Live(o)(h, k) ::
              Sustains(Live(o), Judge(o), h, k, frame, (PeerOf(o).reply)(h, frame, now))
  {
    forall h, k, frame: RequestFrame, now | Live(o)(h, k)
      ensures Sustains(Live(o), Judge(o), h, k, frame, (PeerOf(o).reply)(h, frame, now)) {
      LiveSteps(o, h, k, frame, now);
    }
  }

  lemma {:induction false} AnswerTracks(o: Options, h: Helper, k: nat, input: seq<Byte>, replies: seq<Reply>, i: nat)
    requires i < |replies| && AnsweredAt(Judge(o), h, k, input, replies, i)
    ensures Tracks(o, replies[i].helper, k + Commits(replies, i + 1))
  {
    hide Tracks, HandledWell, P.Decoded, Run;
    assert Answer(o, HelperBefore(h, replies, i), k + Commits(replies, i), FrameAt(input, i), replies[i]);
  }

  lemma {:induction false} CommitsMonotone(replies: seq<Reply>, i: nat, j: nat)
    requires i <= j <= |replies|
    ensures Commits(replies, i) <= Commits(replies, j)
  {
    if i < j {
      CommitsMonotone(replies, i, j - 1);
    }
  }

  predicate ConsumesId(r: Reply) { !r.status.Malformed? && !r.status.RequestId? }

  /** What one answered frame says about identifiers and execution counts. */
  lemma {:induction false} AnswerFacts(o: Options, h: Helper, k: nat, input: seq<Byte>, replies: seq<Reply>, i: nat)
    requires i < |replies| && AnsweredAt(Judge(o), h, k, input, replies, i)
    ensures var before, r := HelperBefore(h, replies, i), replies[i];
            && before.lastId <= r.helper.lastId
            && (ConsumesId(r) ==> before.lastId < r.helper.lastId == r.request.requestId)
            && (r.result.Some? ==> r.request.executedCount == k + Commits(replies, i))
            && (r.helper.lastId < MAX_U64 || Terminal(r))
  {
    hide Tracks;
    assert Answer(o, HelperBefore(h, replies, i), k + Commits(replies, i), FrameAt(input, i), replies[i]);
  }

  /** No execution count is ever consumed twice: committed replies carry increasing counts. */
  lemma CountsAreConsumedOnce(o: Options, h: Helper, k: nat, input: seq<Byte>, replies: seq<Reply>, i: nat, j: nat)
    requires i < j < |replies|
    requires AnsweredAt(Judge(o), h, k, input, replies, i) && AnsweredAt(Judge(o), h, k, input, replies, j)
    requires replies[i].result.Some? && replies[j].result.Some?
    ensures replies[i].request.executedCount < replies[j].request.executedCount
  {
    hide AnsweredAt;
    AnswerFacts(o, h, k, input, replies, i);
    AnswerFacts(o, h, k, input, replies, j);
    CommitsMonotone(replies, i + 1, j);
  }

  lemma {:induction false} IdsNeverGoBack(o: Options, h: Helper, k: nat, input: seq<Byte>, replies: seq<Reply>, i: nat,
        j: nat)
    requires i <= j <= |replies|
    requires forall m | 0 <= m < |replies| :: AnsweredAt(Judge(o), h, k, input, replies, m)
    ensures HelperBefore(h, replies, i).lastId <= HelperBefore(h, replies, j).lastId
  {
    hide AnsweredAt;
    if i < j {
      IdsNeverGoBack(o, h, k, input, replies, i, j - 1);
      AnswerFacts(o, h, k, input, replies, j - 1);
    }
  }

  /** Identifiers that are consumed strictly increase, so a frame played again is refused. */
  lemma IdsAreConsumedOnce(o: Options, h: Helper, k: nat, input: seq<Byte>, replies: seq<Reply>, i: nat, j: nat)
    requires i < j < |replies|
    requires forall m | 0 <= m < |replies| :: AnsweredAt(Judge(o), h, k, input, replies, m)
    requires ConsumesId(replies[i]) && ConsumesId(replies[j])
    ensures replies[i].request.requestId < replies[j].request.requestId
  {
    hide AnsweredAt;
    AnswerFacts(o, h, k, input, replies, i);
    AnswerFacts(o, h, k, input, replies, j);
    IdsNeverGoBack(o, h, k, input, replies, i + 1, j);
  }

  /** A live helper always has a next identifier; it can dispatch unless only the last one is left. */
  lemma LiveHelpersHaveANextId(o: Options, h: Helper, k: nat, input: seq<Byte>, replies: seq<Reply>, i: nat)
    requires i < |replies| && AnsweredAt(Judge(o), h, k, input, replies, i) && !Terminal(replies[i])
    ensures replies[i].helper.lastId < MAX_U64
    ensures (exists r: P.Request :: Admissible(o, replies[i].helper, r)) <==> replies[i].helper.lastId < MAX_U64 - 1
  {
    AnswerFacts(o, h, k, input, replies, i);
    var helper := replies[i].helper;
    if helper.lastId < MAX_U64 - 1 {
      assert Admissible(o, helper,
          P.Request(P.ExecuteOne, helper.lastId + 1, o.runGeneration, helper.fixture.executed));
    }
  }
}
