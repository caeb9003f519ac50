/**
 * What the guarded helper answers, frame by frame and field by field: the number on the
 * wire is that of the first guard that fails (`ControlMain` and `Settle` in
 * apps/reb-native-vm-fixture/main.cpp).
 */
module HelperAnswers {
  import opened Outcomes
  import opened LittleEndian
  import P = HelperProtocol
  import opened OwnedVm
  import opened NativeRecorder
  import opened HelperControl

  /** A well-formed frame: its magic, its version, and nothing in the reserved field. */
  function Formed(operation: nat, id: nat, generation: nat, count: nat): seq<Byte> {
    P.Frame(0x314D_5652, 1, operation, id, generation, count, 0)
  }

  predicate Words(id: nat, generation: nat, count: nat) {
    id < U64_LIMIT && generation < U64_LIMIT && count < U64_LIMIT
  }

  lemma FormedIsDecoded(operation: nat, id: nat, generation: nat, count: nat)
    requires 1 <= operation <= 3 && Words(id, generation, count)
    ensures |Formed(operation, id, generation, count)| == 40
    ensures var (r, ok) := P.Decoded(Formed(operation, id, generation, count));
            && ok && r.requestId == id && r.generation == generation && r.executedCount == count
            && r.operation == (if operation == 1 then P.Inspect else if operation == 2 then P.ExecuteOne else P.Close)
  {
    P.DecodeOfFrame(0x314D_5652, 1, operation, id, generation, count, 0);
    FrameLength(0x314D_5652, 1, operation, id, generation, count, 0);
  }

  lemma FrameLength(magic: nat, version: nat, operation: nat, id: nat, generation: nat, count: nat, reserved: nat)
    ensures |P.Frame(magic, version, operation, id, generation, count, reserved)| == 40
  {
    hide Digits;
  }

  /**
   * A well-formed frame is answered by the first guard that fails: 4 for an identifier
   * not above the last one, 7 for the highest one, 2 for another generation, 3 for
   * another count of commits, 5 for a clock that stopped, went back or reached the
   * deadline, 9 for a close, 6 for a step of a halted machine, and 0 otherwise.
   */
  lemma FrameIsAnswered(o: Options, h: Helper, k: nat, operation: nat, id: nat, generation: nat, count: nat, now: nat)
    requires Tracks(o, h, k) && h.lastId < MAX_U64
    requires 1 <= operation <= 3 && Words(id, generation, count)
    ensures |Formed(operation, id, generation, count)| == P.REQUEST_BYTES
    ensures var reply := ReplyTo(o, h, Formed(operation, id, generation, count), now);
            && P.StatusCode(reply.status) ==
               (if id <= h.lastId then 4
                else if id == 0xFFFF_FFFF_FFFF_FFFF then 7
                else if generation != o.runGeneration then 2
                else if count != k then 3
                else if now == 0 || now < h.lastNow || h.recorder.scope.expiresAt <= now then 5
                else if operation == 3 then 9
                else if operation == 2 && k == 9 then 6 else 0)
            && (reply.result == if P.StatusCode(reply.status) == 0 && operation == 2 then Some(Recorded) else None)
            && reply.helper.fixture.executed == (if reply.result.Some? then k + 1 else k)
            && reply.request.requestId == id
            && reply.helper.lastId == (if id <= h.lastId then h.lastId else id)
  {
    hide P.Decoded, P.Frame, RecorderTracks, Record, Enable, Run, Formed;
    FormedIsDecoded(operation, id, generation, count);
    var bytes := Formed(operation, id, generation, count);
    HandleTracks(o, h, k, bytes, now);
    RunIsExpected(o.arch, k);
    ExecutedSoFar(o.arch, k);
    ExecutedSoFar(o.arch, k + 1);
    hide HandledWell;
  }

  lemma ExecutedSoFar(arch: Architecture, k: nat)
    ensures Run(arch, k).executed == if k < 9 then k else 9
  {
    RunIsExpected(arch, k);
  }

  /** Any other frame is answered 1, and the process is as it was. */
  lemma MalformedIsAnswered(o: Options, h: Helper, magic: nat, version: nat, operation: nat, id: nat, generation: nat,
                            count: nat, reserved: nat, now: nat)
    requires magic < U32_LIMIT && version < U16_LIMIT && operation < U16_LIMIT
    requires Words(id, generation, count) && reserved < U64_LIMIT
    requires magic != 0x314D_5652 || version != 1 || reserved != 0 || operation == 0 || operation > 3
    ensures var bytes := P.Frame(magic, version, operation, id, generation, count, reserved);
            && |bytes| == P.REQUEST_BYTES
            && var reply := ReplyTo(o, h, bytes, now);
               P.StatusCode(reply.status) == 1 && reply.helper == h && reply.result == None
  {
    hide P.Decoded, P.Frame;
    P.DecodeOfFrame(magic, version, operation, id, generation, count, reserved);
    FrameLength(magic, version, operation, id, generation, count, reserved);
  }

  /**
   * What the answer says of the machine, and whether another frame is read: 1 and 8 end
   * the process with exit code 2; 5, 7 and 9 end it with 0; after 0, 2, 3, 4 and 6 it
   * goes on with the rest of the input, having read the clock for 0 and 6.
   */
  lemma AnswerDecidesTheSession(
      o: Options, h: Helper, k: nat, clock: nat -> nat, tick: nat, input: seq<Byte>, readError: bool, writable: nat)
    requires Tracks(o, h, k) && h.lastId < MAX_U64 && |input| >= P.REQUEST_BYTES && writable > 0
    ensures var reply := ReplyTo(o, h, input[..P.REQUEST_BYTES], clock(tick));
            var code, t := P.StatusCode(reply.status), Serve(PeerOf(o), h, clock, tick, input, readError, writable);
            && reply.state == (if code == 1 || code == 7 || code == 8 then "failed"
                               else if code == 5 then "expired"
                               else if code == 9 then "stopped"
                               else if reply.helper.fixture.executed == 9 then "halted" else "paused")
            && (code == 1 || code == 8 ==> t == Transcript([reply], 2))
            && (code == 5 || code == 7 || code == 9 ==> t == Transcript([reply], 0))
            && (code == 0 || code == 2 || code == 3 || code == 4 || code == 6 ==>
                  var later := if code == 0 || code == 6 then tick + 1 else tick;
                  var rest := input[P.REQUEST_BYTES..];
                  var session := Serve(PeerOf(o), reply.helper, clock, later, rest, readError, writable - 1);
                  t == Transcript([reply] + session.replies, session.exitCode))
  {
    hide P.Decoded, RecorderTracks, Run, Dispatch;
    var frame := input[..P.REQUEST_BYTES];
    var reply := ReplyTo(o, h, frame, clock(tick));
    ReplyTracks(o, h, k, frame, clock(tick));
    HaltedAtNine(o, reply.helper, After(k, reply));
    ClockIsRead(o, h, k, frame, clock(tick));
    hide Handle;
    var later := if (PeerOf(o).ticks)(h, frame) then tick + 1 else tick;
    var t := Serve(PeerOf(o), h, clock, tick, input, readError, writable);
    hide Tracks, Answer;
    if !Settle(reply.status, reply.helper.fixture).terminal {
      var rest := Serve(PeerOf(o), reply.helper, clock, later, input[P.REQUEST_BYTES..], readError, writable - 1);
      assert t == Transcript([reply] + rest.replies, rest.exitCode);
    }
  }

  lemma UnreadStatus(o: Options, h: Helper, frame: seq<Byte>, now: nat)
    requires |frame| == P.REQUEST_BYTES && !ReadsClock(o, h, frame)
    ensures var status := Handle(o, h, frame, now).status;
            status.Malformed? || status.RequestId? || status.ResourceLimit? || status.StaleGeneration?
                || status.CountMismatch?
  {
    P.FrameOfBytes(frame);
    hide P.Decoded, P.Frame, Dispatch;
  }

  lemma ReadStatus(o: Options, h: Helper, k: nat, frame: seq<Byte>, now: nat)
    requires Tracks(o, h, k) && |frame| == P.REQUEST_BYTES && ReadsClock(o, h, frame)
    ensures var status := Handle(o, h, frame, now).status;
            status.Ok? || status.Expired? || status.Closed? || status.Halted?
  {
    hide P.Decoded, RecorderTracks, Run, Record;
    RunIsExpected(o.arch, k);
  }

  lemma ClockIsRead(o: Options, h: Helper, k: nat, frame: seq<Byte>, now: nat)
    requires Tracks(o, h, k) && |frame| == P.REQUEST_BYTES
    ensures var code := P.StatusCode(ReplyTo(o, h, frame, now).status);
            && (code == 0 || code == 6 ==> ReadsClock(o, h, frame))
            && (code == 2 || code == 3 || code == 4 ==> !ReadsClock(o, h, frame))
  {
    hide P.Decoded, Handle, Tracks, ReadsClock;
    if ReadsClock(o, h, frame) {
      ReadStatus(o, h, k, frame, now);
    } else {
      UnreadStatus(o, h, frame, now);
    }
  }

  lemma HaltedAtNine(o: Options, h: Helper, k: nat)
    requires Tracks(o, h, k)
    ensures h.fixture.state.halted <==> h.fixture.executed == 9
  {
    RunIsExpected(o.arch, k);
  }

  /**
   * A process starts exactly when its clock reads above zero and has room for the
   * lifetime in nanoseconds; its deadline is that far off and nothing has happened.
   */
  lemma StartsExactly(o: Options, now: nat)
    requires ValidOptions(o)
    ensures var h, deadline := Startup(o, now), now + o.lifetimeMs * 1_000_000;
            && (h.Some? <==> 0 < now && deadline < 0x1_0000_0000_0000_0000)
            && (h.Some? ==> Deadline(h.value) == deadline && h.value.lastNow == now)
            && (h.Some? ==> h.value.lastId == 0 && h.value.fixture.executed == 0 && h.value.recorder.entries == [])
  {
    StartupTracks(o, now);
  }
}
