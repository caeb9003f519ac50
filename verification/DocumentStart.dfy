/**
 * The registry mirrored by class `DocumentStart` in tools/check-native-console.py:
 * records of armed scripts in a bounded ring, read by cursor and never drained.
 */
module DocumentStart {
  import opened Outcomes
  import Decimals

  const CAPACITY: nat := 128
  const PAGE: nat := 32
  const MAX_SCRIPTS: nat := 4
  const MAX_BYTES: nat := 4096
  const MAX_TOTAL: nat := 8192
  const FLOOD: nat := 200

  datatype Frame = Top | Child | OtherFrame

  /** An entry of an arm command; `bytes` is the length of its source in UTF-8. */
  datatype Entry = Entry(frame: Frame, bytes: nat, floods: bool, resistsClear: bool)

  datatype Kind = Injected | Report | RefusedDocument

  datatype Emission = Emission(script: nat, kind: Kind, text: string)

  datatype Record = Record(sequence: nat, emission: Emission)

  datatype Script = Script(id: nat, entry: Entry, records: nat, injected: nat, refused: nat)

  datatype Command = Malformed | Arm(scripts: Option<seq<Option<Entry>>>) | Clear | State(after: Option<nat>)
        | UnknownOperation

  datatype Output = Output(records: seq<Record>, nextSequence: nat, oldest: nat, retained: nat, dropped: nat)

  datatype Reply =
    | Okay(generation: nat, scripts: seq<Script>, output: Output)
    | Error(generation: nat, scripts: seq<Script>, text: string)
    | Unavailable

  function Min(a: int, b: int): int { if a < b then a else b }

  function Max(a: int, b: int): int { if a < b then b else a }

  // Counting.

  function Count(history: seq<Record>, script: nat): nat
    decreases |history|
  {
    if history == [] then 0
    else Count(history[..|history| - 1], script) + if history[|history| - 1].emission.script == script then 1 else 0
  }

  function CountKind(history: seq<Record>, script: nat, kind: Kind): nat
    decreases |history|
  {
    if history == [] then 0
    else
      var last := history[|history| - 1].emission;
      CountKind(history[..|history| - 1], script, kind) + if last.script == script && last.kind == kind then 1 else 0
  }

  function Total(scripts: seq<Script>): nat
    decreases |scripts|
  {
    if scripts == [] then 0 else Total(scripts[..|scripts| - 1]) + scripts[|scripts| - 1].records
  }

  lemma {:induction false} TotalOfUpdate(scripts: seq<Script>, i: nat, s: Script)
    requires i < |scripts|
    ensures Total(scripts[i := s]) == Total(scripts) - scripts[i].records + s.records
    decreases |scripts|
  {
    var n := |scripts| - 1;
    if i < n {
      assert scripts[i := s][..n] == scripts[..n][i := s];
      TotalOfUpdate(scripts[..n], i, s);
    } else {
      assert scripts[i := s][..n] == scripts[..n];
    }
  }

  lemma {:induction false} NothingRecorded(scripts: seq<Script>)
    requires forall s | s in scripts :: s.records == 0
    ensures Total(scripts) == 0
    decreases |scripts|
  {
    if scripts != [] {
      assert forall s | s in scripts[..|scripts| - 1] :: s in scripts;
      NothingRecorded(scripts[..|scripts| - 1]);
    }
  }

  /** A script's counters are what the history says about it. */
  ghost predicate Tallied(s: Script, history: seq<Record>) {
    && s.records == Count(history, s.id)
    && s.injected == CountKind(history, s.id, Injected) && s.refused == CountKind(history, s.id, RefusedDocument)
  }

  /** The record one more emission makes. */
  function Counted(s: Script, kind: Kind): (c: Script)
    ensures c.id == s.id && c.entry == s.entry && c.records == s.records + 1
  {
    s.(records := s.records + 1,
       injected := s.injected + (if kind == Injected then 1 else 0),
       refused := s.refused + (if kind == RefusedDocument then 1 else 0))
  }

  lemma OneMoreTally(s: Script, history: seq<Record>, r: Record)
    requires Tallied(s, history)
    ensures r.emission.script == s.id ==> Tallied(Counted(s, r.emission.kind), history + [r])
    ensures r.emission.script != s.id ==> Tallied(s, history + [r])
  {
    assert (history + [r])[..|history|] == history;
  }

  predicate DistinctIds(scripts: seq<Script>) {
    forall i, j | 0 <= i < j < |scripts| :: scripts[i].id != scripts[j].id
  }

  /** Sequence numbers are consecutive and end just before the next one. */
  ghost predicate Consecutive(history: seq<Record>, nextSequence: nat) {
    && |history| < nextSequence
    && forall i | 0 <= i < |history| :: history[i].sequence == nextSequence - |history| + i
  }

  /** The records since the last arm or clear, numbered from `mark`. */
  function Numbered(emissions: seq<Emission>, mark: nat): seq<Record> {
    seq(|emissions|, i requires 0 <= i < |emissions| => Record(mark + i, emissions[i]))
  }

  // Arming.

  function Sizes(entries: seq<Option<Entry>>): nat
    decreases |entries|
  {
    if entries == [] then 0
    else Sizes(entries[..|entries| - 1]) + match entries[|entries| - 1] case None => 0 case Some(e) => e.bytes
  }

  predicate GoodEntry(entry: Option<Entry>) {
    entry.Some? && entry.value.frame != OtherFrame && 0 < entry.value.bytes <= MAX_BYTES
  }

  ghost predicate Armable(scripts: Option<seq<Option<Entry>>>) {
    scripts.Some? && 1 <= |scripts.value| <= MAX_SCRIPTS && Admitted(scripts.value)
  }

  lemma {:induction false} SizesGrow(entries: seq<Option<Entry>>, k: nat)
    requires k <= |entries|
    ensures Sizes(entries[..k]) <= Sizes(entries)
    decreases |entries| - k
  {
    if k < |entries| {
      assert entries[..k + 1][..k] == entries[..k];
      SizesGrow(entries, k + 1);
    } else {
      assert entries[..k] == entries;
    }
  }

  predicate Admitted(entries: seq<Option<Entry>>)
    ensures Admitted(entries) ==> forall e | e in entries :: e.Some?
  {
    && (forall e | e in entries :: GoodEntry(e))
    && Sizes(entries) <= MAX_TOTAL
  }

  /** The first `at` entries are good, and the next one is refused with this text. */
  ghost predicate RefusedAt(entries: seq<Option<Entry>>, at: int, text: string) {
    && 0 <= at < |entries| && Admitted(entries[..at]) && !Admitted(entries[..at + 1])
    && text == if entries[at].Some? && entries[at].value.frame != OtherFrame
               then "Document-start snippet exceeds its source limit"
               else "A document-start rule matches frame top or child"
  }

  lemma AdmittedAreSome(entries: seq<Option<Entry>>)
    requires Admitted(entries)
    ensures forall e | e in entries :: e.Some?
  {
  }

  lemma NothingAdmitted(entries: seq<Option<Entry>>, first: nat)
    ensures Admitted(entries[..0]) && Sizes(entries[..0]) == 0 && Prepared(entries[..0], first) == []
  {
  }

  /** The loop over the entries: refusing one entry refuses them all. */
  lemma {:induction false} OneMoreAdmitted(entries: seq<Option<Entry>>, i: nat, first: nat)
    requires i < |entries| && Admitted(entries[..i])
    ensures Admitted(entries[..i + 1])
        <==> GoodEntry(entries[i]) && Sizes(entries[..i]) + entries[i].value.bytes <= MAX_TOTAL
    ensures GoodEntry(entries[i]) ==> Sizes(entries[..i + 1]) == Sizes(entries[..i]) + entries[i].value.bytes
    ensures !Admitted(entries[..i + 1]) ==> !Admitted(entries)
    ensures Admitted(entries[..i + 1]) ==>
      Prepared(entries[..i + 1], first)
          == Prepared(entries[..i], first) + [Script(first + i, entries[i].value, 0, 0, 0)]
  {
    hide GoodEntry;
    GoodIsSome(entries[i]);
    var more := entries[..i + 1];
    assert more[..i] == entries[..i] && more == entries[..i] + [entries[i]];
    SizesGrow(entries, i + 1);
    assert forall e | e in more :: e in entries;
    assert entries[i] in more;
  }

  lemma GoodIsSome(entry: Option<Entry>)
    ensures GoodEntry(entry) ==> entry.Some?
  {
  }

  const RAN := "Snippet ran before this document's own scripts"
  const KINDS := "kinds=string:12 return=4 digest=0f0f"

  function Flood(script: nat): (reports: seq<Emission>)
    ensures |reports| == FLOOD
    ensures forall k | 0 <= k < FLOOD :: reports[k] == Emission(script, Report, "flood-" + Decimals.Text(k))
  {
    seq(FLOOD, k requires 0 <= k < FLOOD => Emission(script, Report, "flood-" + Decimals.Text(k)))
  }

  /** What a new document makes of a script: one injection, then its reports. */
  function Burst(s: Script): seq<Emission> {
    [Emission(s.id, Injected, RAN)] + if s.entry.floods then Flood(s.id) else [Emission(s.id, Report, KINDS)]
  }

  function Bursts(scripts: seq<Script>): seq<Emission>
    decreases |scripts|
  {
    if scripts == [] then [] else Bursts(scripts[..|scripts| - 1]) + Burst(scripts[|scripts| - 1])
  }

  /** What an arm command may hold. */
  lemma ArmableMeans(scripts: Option<seq<Option<Entry>>>)
    ensures Armable(scripts) <==>
      && scripts.Some? && 1 <= |scripts.value| <= 4
      && (forall e | e in scripts.value ::
            e.Some? && (e.value.frame == Top || e.value.frame == Child) && 1 <= e.value.bytes <= 4096)
      && Sizes(scripts.value) <= 8192
  {
    if Armable(scripts) {
      forall e | e in scripts.value
        ensures e.Some? && (e.value.frame == Top || e.value.frame == Child) && 1 <= e.value.bytes <= 4096
      {
        assert GoodEntry(e);
      }
    }
  }

  lemma {:induction false} SizesAdd(a: seq<Option<Entry>>, b: seq<Option<Entry>>)
    ensures Sizes(a + b) == Sizes(a) + Sizes(b)
    ensures |b| == 1 && b[0].Some? ==> Sizes(b) == b[0].value.bytes
    decreases |b|
  {
    if b == [] {
      assert a + b == a;
    } else {
      var front := b[..|b| - 1];
      assert (a + b)[..|a + b| - 1] == a + front;
      SizesAdd(a, front);
      assert |b| == 1 ==> front == [];
    }
  }

  /** What a script records in a new document: one injection first, then 200 reports or one. */
  lemma BurstMeans(s: Script)
    ensures Burst(s) != []
        && Burst(s)[0] == Emission(s.id, Injected, "Snippet ran before this document's own scripts")
    ensures s.entry.floods ==> |Burst(s)| == 201 && forall k | 1 <= k < 201 ::
      Burst(s)[k] == Emission(s.id, Report, "flood-" + Decimals.Text(k - 1))
    ensures !s.entry.floods ==>
      |Burst(s)| == 2 && Burst(s)[1] == Emission(s.id, Report, "kinds=string:12 return=4 digest=0f0f")
  {
  }

  function Prepared(entries: seq<Option<Entry>>, first: nat): seq<Script>
    requires forall e | e in entries :: e.Some?
  {
    seq(|entries|, i requires 0 <= i < |entries| => Script(first + i, entries[i].value, 0, 0, 0))
  }

  // What the counters say after arming.

  lemma {:induction false} CountsJoin(a: seq<Record>, b: seq<Record>, script: nat, kind: Kind)
    ensures Count(a + b, script) == Count(a, script) + Count(b, script)
    ensures CountKind(a + b, script, kind) == CountKind(a, script, kind) + CountKind(b, script, kind)
    decreases |b|
  {
    if b == [] {
      assert a + b == a;
    } else {
      assert (a + b)[..|a + b| - 1] == a + b[..|b| - 1];
      CountsJoin(a, b[..|b| - 1], script, kind);
    }
  }

  /** Counting records that are all of one script, and all of one kind or of none. */
  lemma {:induction false} CountsOfOne(h: seq<Record>, from: nat, script: nat, kind: Kind)
    requires forall i | 0 <= i < |h| :: h[i].emission.script == from
    ensures Count(h, script) == if script == from then |h| else 0
    ensures script != from || (forall i | 0 <= i < |h| :: h[i].emission.kind != kind) ==>
      CountKind(h, script, kind) == 0
    decreases |h|
  {
    if h != [] {
      CountsOfOne(h[..|h| - 1], from, script, kind);
    }
  }

  lemma BurstKinds(s: Script)
    ensures forall k | 0 <= k < |Burst(s)| ::
              Burst(s)[k].script == s.id && Burst(s)[k].kind == if k == 0 then Injected else Report
  {
    BurstMeans(s);
    hide Burst, Decimals.Text;
  }

  lemma CountsOfBurst(s: Script, mark: nat, script: nat)
    ensures var h := Numbered(Burst(s), mark);
            && Count(h, script) == (if script != s.id then 0 else if s.entry.floods then 201 else 2)
            && CountKind(h, script, Injected) == (if script == s.id then 1 else 0)
            && CountKind(h, script, RefusedDocument) == 0
  {
    BurstMeans(s);
    BurstKinds(s);
    var h := Numbered(Burst(s), mark);
    hide Burst, Decimals.Text;
    CountsOfOne(h, s.id, script, RefusedDocument);
    var first, rest := h[..1], h[1..];
    assert h == first + rest;
    CountsOfOne(rest, s.id, script, Injected);
    CountsJoin(first, rest, script, Injected);
    assert first[..0] == [];
  }

  lemma NumberedJoins(a: seq<Emission>, b: seq<Emission>, mark: nat)
    ensures Numbered(a + b, mark) == Numbered(a, mark) + Numbered(b, mark + |a|)
  {
  }

  /** The counts of one more script's burst are added to those before. */
  lemma LastBurst(scripts: seq<Script>, mark: nat, script: nat)
    requires scripts != []
    ensures var front, last := Numbered(Bursts(scripts[..|scripts| - 1]), mark), scripts[|scripts| - 1];
            var h := Numbered(Bursts(scripts), mark);
            && Count(h, script) == Count(front, script)
                 + (if script != last.id then 0 else if last.entry.floods then 201 else 2)
            && CountKind(h, script, Injected)
                == CountKind(front, script, Injected) + (if script == last.id then 1 else 0)
            && CountKind(h, script, RefusedDocument) == CountKind(front, script, RefusedDocument)
  {
    var before, last := Bursts(scripts[..|scripts| - 1]), scripts[|scripts| - 1];
    NumberedJoins(before, Burst(last), mark);
    CountsOfBurst(last, mark + |before|, script);
    hide Burst, Count, CountKind, Numbered;
    CountsJoin(Numbered(before, mark), Numbered(Burst(last), mark + |before|), script, Injected);
    CountsJoin(Numbered(before, mark), Numbered(Burst(last), mark + |before|), script, RefusedDocument);
  }

  lemma {:induction false} CountsOfOthers(scripts: seq<Script>, mark: nat, script: nat)
    requires forall s | s in scripts :: s.id != script
    ensures var h := Numbered(Bursts(scripts), mark);
            Count(h, script) == CountKind(h, script, Injected) == CountKind(h, script, RefusedDocument) == 0
    decreases |scripts|
  {
    if scripts != [] {
      assert scripts[|scripts| - 1] in scripts;
      CountsOfOthers(scripts[..|scripts| - 1], mark, script);
      LastBurst(scripts, mark, script);
      hide Bursts, Numbered, Count, CountKind;
    }
  }

  /** Among bursts of scripts with different ids, each is counted for its own script. */
  lemma {:induction false} CountsOfBursts(scripts: seq<Script>, mark: nat, i: nat)
    requires DistinctIds(scripts) && i < |scripts|
    ensures var h, s := Numbered(Bursts(scripts), mark), scripts[i];
            && Count(h, s.id) == (if s.entry.floods then 201 else 2)
            && CountKind(h, s.id, Injected) == 1 && CountKind(h, s.id, RefusedDocument) == 0
    decreases |scripts|
  {
    var front := scripts[..|scripts| - 1];
    LastBurst(scripts, mark, scripts[i].id);
    hide Bursts, Numbered, Count, CountKind;
    if i < |front| {
      CountsOfBursts(front, mark, i);
    } else {
      CountsOfOthers(front, mark, scripts[i].id);
    }
  }

  /** Fresh counters: one injection, its reports, and no refused document. */
  ghost predicate JustRan(scripts: seq<Script>) {
    forall i | 0 <= i < |scripts| ::
      && scripts[i].records == (if scripts[i].entry.floods then 201 else 2)
      && scripts[i].injected == 1 && scripts[i].refused == 0
  }

  lemma CountersSay(prepared: seq<Script>, scripts: seq<Script>, mark: nat)
    requires DistinctIds(prepared) && SameScripts(prepared, scripts)
    requires forall i | 0 <= i < |scripts| :: Tallied(scripts[i], Numbered(Bursts(prepared), mark))
    ensures JustRan(scripts)
  {
    hide Count, CountKind, Numbered, Bursts;
    forall i | 0 <= i < |scripts|
      ensures scripts[i].records == (if scripts[i].entry.floods then 201 else 2)
      ensures scripts[i].injected == 1 && scripts[i].refused == 0
    {
      CountsOfBursts(prepared, mark, i);
    }
  }

  // Reading by cursor.

  function Later(output: seq<Record>, after: nat): seq<Record>
    decreases |output|
  {
    if output == [] then []
    else if output[0].sequence > after then [output[0]] + Later(output[1..], after)
    else Later(output[1..], after)
  }

  function PageAfter(output: seq<Record>, after: nat): seq<Record> {
    var later := Later(output, after);
    if |later| <= PAGE then later else later[..PAGE]
  }

  lemma {:induction false} LaterIsASuffix(output: seq<Record>, first: nat, after: nat)
    requires forall i | 0 <= i < |output| :: output[i].sequence == first + i
    ensures var skipped := Min(|output|, Max(0, after + 1 - first)); Later(output, after) == output[skipped..]
    decreases |output|
  {
    if output != [] {
      assert forall i | 0 <= i < |output| - 1 :: output[1..][i] == output[i + 1];
      LaterIsASuffix(output[1..], first + 1, after);
    }
  }

  /** Where in the history the first retained record behind a cursor is. */
  function Behind(history: seq<Record>, nextSequence: nat, dropped: nat, after: nat): nat
    requires dropped <= |history|
  {
    Min(|history|, Max(dropped, after + 1 - (nextSequence - |history|)))
  }

  /**
   * In terms of the records since the last arm or clear: a page starts at the first
   * retained record behind the cursor, and has no gap.
   */
  lemma {:induction false} PageOfHistory(history: seq<Record>, nextSequence: nat, dropped: nat, after: nat)
    requires Consecutive(history, nextSequence) && dropped <= |history|
    ensures var from := Behind(history, nextSequence, dropped, after);
            && PageAfter(history[dropped..], after) == history[from..Min(|history|, from + PAGE)]
            && Later(history[dropped..], after) == history[from..]
  {
    var output := history[dropped..];
    LaterIsASuffix(output, nextSequence - |output|, after);
  }

  /** Pages that follow each other in the history from a position on. */
  ghost predicate Reading(pages: seq<seq<Record>>, history: seq<Record>, from: nat)
    decreases |pages|
  {
    pages != [] ==>
      && pages[0] != [] && from + |pages[0]| <= |history|
      && pages[0] == history[from..from + |pages[0]|] && Reading(pages[1..], history, from + |pages[0]|)
  }

  /** Each page is the reply behind the last record of the one before, and after the last page there is nothing. */
  ghost predicate Pages(output: seq<Record>, after: nat, pages: seq<seq<Record>>)
    decreases |pages|
  {
    if pages == [] then PageAfter(output, after) == []
    else
      && pages[0] == PageAfter(output, after) && pages[0] != []
      && Pages(output, pages[0][|pages[0]| - 1].sequence, pages[1..])
  }

  lemma NextPage(history: seq<Record>, nextSequence: nat, dropped: nat, after: nat)
    requires Consecutive(history, nextSequence) && dropped <= |history|
    requires Behind(history, nextSequence, dropped, after) < |history|
    ensures var from := Behind(history, nextSequence, dropped, after);
            var to := Min(|history|, from + PAGE);
            Behind(history, nextSequence, dropped, history[to - 1].sequence) == to
  {
  }

  /**
   * Paging over a list that does not change returns each retained record behind the
   * cursor exactly once, in order: the pages are consecutive, and put together they are
   * all of those records.
   */
  lemma {:induction false} PagingReadsEverythingOnce(
      history: seq<Record>, nextSequence: nat, dropped: nat, after: nat, pages: seq<seq<Record>>)
    requires Consecutive(history, nextSequence) && dropped <= |history|
    requires Pages(history[dropped..], after, pages)
    ensures Reading(pages, history, Behind(history, nextSequence, dropped, after))
    ensures Joined(pages) == history[Behind(history, nextSequence, dropped, after)..]
    ensures Joined(pages) == Later(history[dropped..], after)
    decreases |pages|
  {
    hide PageAfter, Later, Behind, Consecutive;
    PageOfHistory(history, nextSequence, dropped, after);
    var from := Behind(history, nextSequence, dropped, after);
    BehindIsInside(history, nextSequence, dropped, after);
    if pages != [] {
      NextPage(history, nextSequence, dropped, after);
      var to := from + |pages[0]|;
      assert pages[0][|pages[0]| - 1] == history[to - 1];
      PagingReadsEverythingOnce(history, nextSequence, dropped, history[to - 1].sequence, pages[1..]);
      assert history[from..] == pages[0] + history[to..];
    }
  }

  lemma BehindIsInside(history: seq<Record>, nextSequence: nat, dropped: nat, after: nat)
    requires dropped <= |history|
    ensures dropped <= Behind(history, nextSequence, dropped, after) <= |history|
  {
  }

  /**
   * A reader that comes back after more was recorded continues where it stopped, or at
   * the first record still retained: it never sees one twice, and misses only dropped ones.
   */
  lemma ReadingContinues(history: seq<Record>, more: seq<Record>, nextSequence: nat, dropped: nat, nowDropped: nat,
        read: nat)
    requires Consecutive(history + more, nextSequence + |more|) && |history| < nextSequence
    requires dropped <= nowDropped <= |history + more| && 0 < read <= |history|
    ensures Behind(history + more, nextSequence + |more|, nowDropped, history[read - 1].sequence)
        == Max(read, nowDropped)
  {
    assert (history + more)[read - 1] == history[read - 1];
  }

  function Joined(pages: seq<seq<Record>>): seq<Record>
    decreases |pages|
  {
    if pages == [] then [] else pages[0] + Joined(pages[1..])
  }

  class Registry {
    const permitted: bool
    var generation: nat
    var nextScript: nat
    var nextSequence: nat
    var scripts: seq<Script>
    var output: seq<Record>
    var dropped: nat
    /** Every record since the last successful arm or clear. */
    ghost var history: seq<Record>

    ghost predicate Valid()
      reads this
    {
      && dropped == Max(0, |history| - CAPACITY) && output == history[dropped..]
      && Consecutive(history, nextSequence)
      && Total(scripts) == |history|
      && DistinctIds(scripts) && (forall i | 0 <= i < |scripts| :: scripts[i].id < nextScript)
      && forall i | 0 <= i < |scripts| :: Tallied(scripts[i], history)
    }

    /** Retained and dropped records together are the records since the last arm or clear. */
    lemma Accounted()
      requires Valid()
      ensures |output| <= CAPACITY && dropped + |output| == |history| == Total(scripts)
      ensures forall i | 0 <= i < |output| :: output[i].sequence == nextSequence - |output| + i
      ensures dropped > 0 ==> |output| == CAPACITY
    {
    }

    constructor (permitted: bool)
      ensures Valid() && this.permitted == permitted
      ensures generation == 0 && scripts == [] && history == [] && nextSequence == 1 && nextScript == 1
    {
      this.permitted := permitted;
      generation, nextScript, nextSequence := 0, 1, 1;
      scripts, output, dropped, history := [], [], 0, [];
    }

    method Emit(i: nat, kind: Kind, text: string)
      requires Valid() && i < |scripts|
      modifies this`nextSequence, this`scripts, this`output, this`dropped, this`history
      ensures Valid() && nextSequence == old(nextSequence) + 1
      ensures history == old(history) + [Record(old(nextSequence), Emission(old(scripts)[i].id, kind, text))]
      ensures scripts == old(scripts)[i := Counted(old(scripts)[i], kind)]
    {
      hide Tallied, Total, Counted;
      if |output| >= CAPACITY {
        output := output[1..];
        dropped := dropped + 1;
      }
      var r := Record(nextSequence, Emission(scripts[i].id, kind, text));
      output := output + [r];
      nextSequence := nextSequence + 1;
      TotalOfUpdate(scripts, i, Counted(scripts[i], kind));
      var counted := scripts[i := Counted(scripts[i], kind)];
      forall j | 0 <= j < |scripts| ensures Tallied(counted[j], history + [r]) {
        OneMoreTally(scripts[j], history, r);
      }
      scripts := counted;
      history := history + [r];
    }

    function Page(after: nat): Output
      reads this
    {
      Output(PageAfter(output, after), nextSequence, if output == [] then 0 else output[0].sequence, |output|, dropped)
    }

    function StateReply(after: nat): Reply
      reads this
    {
      Okay(generation, scripts, Page(after))
    }

    /**
     * The reply to a state command, over every record since the last arm or clear: of the
     * last 128 the first 32 behind the cursor, how many are kept and how many are lost.
     */
    lemma StateShows(after: nat)
      requires Valid()
      ensures var n := |history|;
              var lost := if n <= 128 then 0 else n - 128;
              var from := Min(n, Max(lost, after + 1 - (nextSequence - n)));
              StateReply(after)
                == Okay(generation, scripts,
                        Output(history[from..Min(n, from + 32)], nextSequence,
                               if n == 0 then 0 else nextSequence - n + lost, n - lost, lost))
    {
      PageOfHistory(history, nextSequence, dropped, after);
    }

    /** The armed set and no records. */
    function Refusal(text: string): Reply
      reads this
    {
      Error(generation, scripts, text)
    }

    method PrepareScripts(entries: seq<Option<Entry>>) returns (refused: Option<string>, prepared: seq<Script>)
      requires Valid()
      modifies this`nextScript
      ensures refused == None <==> Admitted(entries)
      ensures refused.Some? ==> RefusedAt(entries, nextScript - old(nextScript), refused.value)
      ensures refused == None ==>
        prepared == Prepared(entries, old(nextScript)) && nextScript == old(nextScript) + |entries|
    {
      hide Valid, Admitted, Prepared, Sizes;
      prepared := [];
      var total := 0;
      NothingAdmitted(entries, nextScript);
      for i := 0 to |entries|
        invariant Admitted(entries[..i]) && total == Sizes(entries[..i])
        invariant nextScript == old(nextScript) + i
        invariant prepared == Prepared(entries[..i], old(nextScript))
      {
        OneMoreAdmitted(entries, i, old(nextScript));
        if entries[i] == None || entries[i].value.frame == OtherFrame {
          return Some("A document-start rule matches frame top or child"), [];
        }
        var entry := entries[i].value;
        total := total + entry.bytes;
        if entry.bytes == 0 || entry.bytes > MAX_BYTES || total > MAX_TOTAL {
          return Some("Document-start snippet exceeds its source limit"), [];
        }
        prepared := prepared + [Script(nextScript, entry, 0, 0, 0)];
        nextScript := nextScript + 1;
      }
      assert entries[..|entries|] == entries;
      return None, prepared;
    }

    /** What an arm command did: all its scripts are armed and ran, or nothing but the numbering moved. */
    twostate predicate ArmedBy(command: Option<seq<Option<Entry>>>, reply: Reply)
      reads this
    {
      if Armable(command) then
        && reply == StateReply(0) && generation == old(generation) + 1
        && SameScripts(Prepared(command.value, old(nextScript)), scripts) && JustRan(scripts)
        && history == Numbered(Bursts(Prepared(command.value, old(nextScript))), old(nextSequence))
        && nextScript == old(nextScript) + |command.value|
      else
        && Untouched() && reply.Error? && reply == Refusal(reply.text) && old(nextScript) <= nextScript
        && if command == None || !(1 <= |command.value| <= 4)
           then reply.text == "Arm 1 to 4 document-start scripts" && nextScript == old(nextScript)
           else RefusedAt(command.value, nextScript - old(nextScript), reply.text)
    }

    /** What a clear command did: one script that resists keeps everything. */
    twostate predicate ClearedBy(reply: Reply)
      reads this
    {
      nextScript == old(nextScript) && nextSequence == old(nextSequence) &&
      if exists i | 0 <= i < |old(scripts)| :: old(scripts)[i].entry.resistsClear
      then Untouched() && reply == Refusal("Synthetic browser kept the armed set")
      else
        && generation == old(generation) + 1 && scripts == [] && output == [] && dropped == 0 && history == []
        && reply == StateReply(0)
    }

    /** Nothing armed and nothing recorded: the state behind an arm before its records, or a clear. */
    method Reset(prepared: seq<Script>)
      requires Valid() && DistinctIds(prepared)
      requires forall s | s in prepared :: s.id < nextScript && s.records == s.injected == s.refused == 0
      modifies this`generation, this`scripts, this`output, this`dropped, this`history
      ensures Valid() && generation == old(generation) + 1 && scripts == prepared && history == []
    {
      scripts := prepared;
      generation := generation + 1;
      output, dropped := [], 0;
      history := [];
      NothingRecorded(prepared);
    }

    /** One more record, in terms of the emissions since the last arm. */
    method EmitNext(i: nat, kind: Kind, text: string, ghost before: seq<Emission>, ghost mark: nat)
      requires Valid() && i < |scripts| && history == Numbered(before, mark) && nextSequence == mark + |before|
      modifies this`nextSequence, this`scripts, this`output, this`dropped, this`history
      ensures Valid() && SameScripts(old(scripts), scripts)
      ensures history == Numbered(before + [Emission(old(scripts)[i].id, kind, text)], mark)
      ensures nextSequence == mark + |before| + 1
    {
      hide Valid;
      OneMoreEmission(before, Emission(scripts[i].id, kind, text), mark);
      Emit(i, kind, text);
    }

    method EmitFlood(i: nat, ghost before: seq<Emission>, ghost mark: nat)
      requires Valid() && i < |scripts| && history == Numbered(before, mark) && nextSequence == mark + |before|
      modifies this`nextSequence, this`scripts, this`output, this`dropped, this`history
      ensures Valid() && SameScripts(old(scripts), scripts)
      ensures history == Numbered(before + Flood(old(scripts)[i].id), mark)
      ensures nextSequence == mark + |before| + FLOOD
    {
      hide Valid, Numbered;
      ghost var flood := Flood(scripts[i].id);
      assert before + flood[..0] == before;
      for index := 0 to FLOOD
        invariant Valid() && SameScripts(old(scripts), scripts)
        invariant history == Numbered(before + flood[..index], mark)
        invariant nextSequence == mark + |before| + index
      {
        assert before + flood[..index + 1] == before + flood[..index] + [flood[index]];
        EmitNext(i, Report, "flood-" + Decimals.Text(index), before + flood[..index], mark);
      }
      assert flood[..FLOOD] == flood;
    }

    /** The records one armed script makes in a new document. */
    method RunScript(i: nat, ghost before: seq<Emission>, ghost mark: nat)
      requires Valid() && i < |scripts| && history == Numbered(before, mark) && nextSequence == mark + |before|
      modifies this`nextSequence, this`scripts, this`output, this`dropped, this`history
      ensures Valid() && SameScripts(old(scripts), scripts)
      ensures history == Numbered(before + Burst(old(scripts)[i]), mark)
      ensures nextSequence == mark + |before| + |Burst(old(scripts)[i])|
    {
      hide Valid, Numbered, Flood;
      ghost var s := scripts[i];
      ghost var injected := before + [Emission(s.id, Injected, RAN)];
      EmitNext(i, Injected, RAN, before, mark);
      if scripts[i].entry.floods {
        EmitFlood(i, injected, mark);
        assert before + Burst(s) == injected + Flood(s.id);
      } else {
        EmitNext(i, Report, KINDS, injected, mark);
        assert before + Burst(s) == injected + [Emission(s.id, Report, KINDS)];
      }
    }

    method ArmScripts(scripts: Option<seq<Option<Entry>>>) returns (reply: Reply)
      requires Valid()
      modifies this
      ensures Valid() && ArmedBy(scripts, reply)
    {
      hide Admitted, Prepared, Numbered, Bursts, JustRan, SameScripts, DistinctIds, Tallied;
      if scripts == None || !(1 <= |scripts.value| <= MAX_SCRIPTS) {
        return Refusal("Arm 1 to 4 document-start scripts");
      }
      var refused, prepared := PrepareScripts(scripts.value);
      if refused != None {
        return Refusal(refused.value);
      }
      ghost var mark := nextSequence;
      AdmittedAreSome(scripts.value);
      PreparedIsFresh(scripts.value, old(nextScript));
      Reset(prepared);
      hide Valid;
      RunScripts(prepared);
      AfterRunning(prepared, mark);
      return StateReply(0);
    }

    lemma AfterRunning(prepared: seq<Script>, mark: nat)
      requires Valid() && DistinctIds(prepared) && SameScripts(prepared, scripts)
      requires history == Numbered(Bursts(prepared), mark)
      ensures JustRan(scripts)
    {
      CountersSay(prepared, scripts, mark);
    }

    /** One document: every armed script runs, in the order of arming. */
    method RunScripts(prepared: seq<Script>)
      requires Valid() && scripts == prepared && history == []
      modifies this`nextSequence, this`scripts, this`output, this`dropped, this`history
      ensures Valid() && SameScripts(prepared, scripts)
      ensures history == Numbered(Bursts(prepared), old(nextSequence))
    {
      ghost var mark := nextSequence;
      hide Valid, Numbered, Burst;
      NoEmissions(prepared, mark);
      for i := 0 to |prepared|
        invariant Valid() && SameScripts(prepared, scripts)
        invariant history == Numbered(Bursts(prepared[..i]), mark) && nextSequence == mark + |Bursts(prepared[..i])|
      {
        OneMoreBurst(prepared, i, scripts[i]);
        RunScript(i, Bursts(prepared[..i]), mark);
      }
      assert prepared[..|prepared|] == prepared;
    }

    /** Only `nextScript` may have moved. */
    twostate predicate Untouched()
      reads this
    {
      && generation == old(generation) && scripts == old(scripts) && output == old(output) && dropped == old(dropped)
      && nextSequence == old(nextSequence) && history == old(history)
    }

    method ClearScripts() returns (reply: Reply)
      requires Valid()
      modifies this
      ensures Valid() && ClearedBy(reply)
    {
      if exists i | 0 <= i < |scripts| :: scripts[i].entry.resistsClear {
        return Refusal("Synthetic browser kept the armed set");
      }
      Reset([]);
      return StateReply(0);
    }

    method Obey(command: Command) returns (reply: Reply)
      requires Valid()
      modifies this
      ensures Valid()
      ensures reply.Error? || reply.Unavailable? ==> Untouched()
      ensures reply == Unavailable <==> command != Malformed && !permitted
      ensures command == Malformed ==> reply == Refusal("Malformed document-start command")
      ensures !permitted || !command.Arm? ==> nextScript == old(nextScript)
      ensures permitted ==>
        match command
        case Malformed => Untouched()
        case Arm(entries) => ArmedBy(entries, reply)
        case Clear => ClearedBy(reply)
        case State(None) => Untouched() && reply == Refusal("state takes a decimal after cursor")
        case State(Some(after)) => Untouched() && reply == StateReply(after)
        case UnknownOperation => Untouched() && reply == Refusal("Unknown document-start operation")
    {
      if command == Malformed {
        return Refusal("Malformed document-start command");
      }
      if !permitted {
        return Unavailable;
      }
      if command.Arm? {
        reply := ArmScripts(command.scripts);
      } else if command.Clear? {
        reply := ClearScripts();
      } else if command.State? {
        if command.after == None {
          return Refusal("state takes a decimal after cursor");
        }
        reply := StateReply(command.after.value);
      } else {
        reply := Refusal("Unknown document-start operation");
      }
    }
  }

  /** The same scripts, whatever was counted. */
  ghost predicate SameScripts(a: seq<Script>, b: seq<Script>) {
    |a| == |b| && forall i | 0 <= i < |a| :: a[i].id == b[i].id && a[i].entry == b[i].entry
  }

  lemma PreparedIsFresh(entries: seq<Option<Entry>>, first: nat)
    requires forall e | e in entries :: e.Some?
    ensures var prepared := Prepared(entries, first);
            && DistinctIds(prepared)
            && forall s | s in prepared :: s.id < first + |entries| && s.records == s.injected == s.refused == 0
  {
  }

  lemma OneMoreEmission(emissions: seq<Emission>, e: Emission, mark: nat)
    ensures Numbered(emissions + [e], mark) == Numbered(emissions, mark) + [Record(mark + |emissions|, e)]
  {
  }

  lemma OneMoreBurst(scripts: seq<Script>, i: nat, s: Script)
    requires i < |scripts| && s.id == scripts[i].id && s.entry == scripts[i].entry
    ensures Bursts(scripts[..i + 1]) == Bursts(scripts[..i]) + Burst(s)
  {
    assert scripts[..i + 1][..i] == scripts[..i];
    assert Burst(s) == Burst(scripts[i]);
  }

  lemma NoEmissions(scripts: seq<Script>, mark: nat)
    ensures Numbered(Bursts(scripts[..0]), mark) == [] && Bursts(scripts[..0]) == []
  {
  }
}
