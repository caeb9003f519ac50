/**
 * tools/publish-release-pair.py: the tag once, then a draft, its verification and its
 * publication. Every call is recorded with the remote it met, and a call is made only
 * with its evidence already in that record.
 */
module ReleasePublication {
  import opened Outcomes
  import opened ReleaseRemote

  datatype Trigger = Dispatch | Push | OtherTrigger

  datatype Plan = Plan(tag: string, source: string, title: string, trigger: Trigger, expected: Expectation)

  /** `environment(n)` is what others do before the n-th call, and that call's fate. */
  datatype Remote = Remote(objects: map<string, Target>, delivered: seq<Asset>, environment: nat -> Turn)

  type Trace = seq<Event>

  function CommitOf(plan: Plan, remote: Remote, w: World): Option<string> {
    if plan.tag in w.tags then Resolve(remote.objects, w.tags[plan.tag], 8) else None
  }

  predicate NamesSource(plan: Plan, remote: Remote, w: World) { CommitOf(plan, remote, w) == Some(plan.source) }

  /** A draft an interrupted attempt at exactly this publication left. */
  predicate Matching(plan: Plan, r: Release) {
    r.draft && r.tag == plan.tag && r.target == plan.source && r.name == plan.title
  }

  // The evidence a call needs.

  predicate ReadsSource(plan: Plan, remote: Remote, e: Event) {
    e.request == GetRef(plan.tag) && e.answer.Some? && NamesSource(plan, remote, e.before)
  }

  predicate ReadsNoTag(plan: Plan, e: Event) { e.request == GetRef(plan.tag) && e.answer == Some(Missing) }

  predicate Lists(plan: Plan, e: Event, drafts: seq<Release>) {
    && e.request == ListReleases && e.answer == Some(Listing(Page(e.before.releases)))
    && drafts == DraftsOf(Page(e.before.releases), plan.tag)
  }

  ghost predicate ListsMatching(plan: Plan, e: Event, id: nat) {
    exists r | r in DraftsOf(Page(e.before.releases), plan.tag) ::
      Lists(plan, e, DraftsOf(Page(e.before.releases), plan.tag)) && r.id == id && Matching(plan, r)
  }

  ghost predicate ListsOnly(plan: Plan, e: Event, id: nat) {
    exists r :: Lists(plan, e, [r]) && r.id == id
  }

  ghost predicate ListsVerified(plan: Plan, e: Event, id: nat) {
    exists r :: Lists(plan, e, [r]) && r.id == id && OneToOne(r.assets, plan.expected)
  }

  predicate Creates(plan: Plan, e: Event) {
    e.request == CreateDraft(plan.tag, plan.source, plan.title) && e.answer.Some?
  }

  /** The one draft of the tag, listed after this run created one. */
  ghost predicate SelfCreated(plan: Plan, trace: Trace, id: nat) {
    exists i, j | 0 <= i < j < |trace| :: Creates(plan, trace[i]) && ListsOnly(plan, trace[j], id)
  }

  ghost predicate Permitted(plan: Plan, remote: Remote, trace: Trace, request: Request) {
    match request
    case CreateRef(tag, sha) =>
      tag == plan.tag && sha == plan.source && exists i | 0 <= i < |trace| :: ReadsNoTag(plan, trace[i])
    case CreateDraft(tag, target, name) => tag == plan.tag && target == plan.source && name == plan.title
    case DeleteRelease(id) =>
      (exists i | 0 <= i < |trace| :: ListsMatching(plan, trace[i], id)) || SelfCreated(plan, trace, id)
    case SetDraft(id, draft) =>
      if draft then exists i | 0 <= i < |trace| :: trace[i].request == SetDraft(id, false)
      else
        && SelfCreated(plan, trace, id)
        && exists i, j | 0 <= i < j < |trace| :: ListsVerified(plan, trace[i], id)
            && ReadsSource(plan, remote, trace[j])
    case _ => true
  }

  /** No call was made without its evidence, at every point of the run. */
  ghost predicate Safe(plan: Plan, remote: Remote, trace: Trace) {
    forall k | 0 <= k < |trace| :: Permitted(plan, remote, trace[..k], trace[k].request)
  }

  function After(start: World, trace: Trace): World {
    if trace == [] then start else trace[|trace| - 1].after
  }

  function Next(remote: Remote, start: World, trace: Trace, request: Request): Event {
    Happens(After(start, trace), remote.objects, remote.delivered, remote.environment(|trace|), request)
  }

  /** The record is what happened: every call met what others and earlier calls left. */
  ghost predicate Faithful(remote: Remote, start: World, trace: Trace) {
    forall k | 0 <= k < |trace| :: trace[k] == Next(remote, start, trace[..k], trace[k].request)
  }

  predicate Publishes(e: Event) { e.request.SetDraft? && !e.request.draft && e.before != e.after }

  /** Whether a publishing call took effect. */
  predicate Live(trace: Trace)
    decreases |trace|
  {
    trace != [] && (Publishes(trace[|trace| - 1]) || Live(trace[..|trace| - 1]))
  }

  /** A publishing call took effect, and the cleanup after the error did not. */
  predicate Stranded(trace: Trace) {
    && Live(trace)
    && var last := trace[|trace| - 1];
       (last.request.DeleteRelease? || (last.request.SetDraft? && last.request.draft)) && last.before == last.after
  }

  ghost predicate TagsOnly(remote: Remote) { forall n: nat :: TagMoves(remote.environment(n)) }

  ghost predicate Alone(remote: Remote) { forall n: nat :: remote.environment(n).foreign == [] }

  ghost predicate Quiet(remote: Remote) { forall n: nat :: remote.environment(n) == Turn([], Works) }

  lemma Extended(plan: Plan, remote: Remote, start: World, trace: Trace, request: Request)
    requires Faithful(remote, start, trace) && Safe(plan, remote, trace) && Permitted(plan, remote, trace, request)
    ensures var more := trace + [Next(remote, start, trace, request)];
            && Faithful(remote, start, more) && Safe(plan, remote, more)
            && (Live(more) <==> Live(trace) || Publishes(more[|trace|]))
  {
    hide Permitted, Live, Next, Publishes;
    var more := trace + [Next(remote, start, trace, request)];
    assert forall k | 0 <= k <= |trace| :: more[..k] == trace[..k];
    assert trace[..|trace|] == trace;
    assert Next(remote, start, trace, request).request == request by { NextAsks(remote, start, trace, request); }
    LiveStep(trace, Next(remote, start, trace, request));
  }

  /** No call of a run replaces a tag; the one it may create names the source. */
  lemma {:induction false} TagsAreNeverReplaced(plan: Plan, remote: Remote, start: World, trace: Trace, k: nat)
    requires Faithful(remote, start, trace) && Safe(plan, remote, trace) && k < |trace|
    ensures var e := trace[k];
            || e.after.tags == e.before.tags
            || (plan.tag !in e.before.tags && e.after.tags == e.before.tags[plan.tag := Commit(plan.source)])
  {
    assert Permitted(plan, remote, trace[..k], trace[k].request);
    assert trace[k] == Next(remote, start, trace[..k], trace[k].request);
  }

  /**
   * Every call that makes a draft public comes after a listing in which exactly that
   * draft stood, with the expected assets, and after a later look at the tag that found
   * the source.
   */
  lemma PublicationHasEvidence(plan: Plan, remote: Remote, trace: Trace, k: nat)
    requires Safe(plan, remote, trace) && k < |trace| && Publishes(trace[k])
    ensures exists i, j | 0 <= i < j < k ::
              ListsVerified(plan, trace[i], trace[k].request.id) && ReadsSource(plan, remote, trace[j])
  {
    hide ListsVerified, ReadsSource;
    var t := trace[..k];
    assert Permitted(plan, remote, t, trace[k].request);
    var i, j :| 0 <= i < j < |t| && ListsVerified(plan, t[i], trace[k].request.id) && ReadsSource(plan, remote, t[j]);
    assert trace[i] == t[i] && trace[j] == t[j];
  }

  /** A release disappears or changes only by a call that names it and has its evidence. */
  lemma {:induction false} ChangeHasEvidence(plan: Plan, remote: Remote, start: World, trace: Trace, k: nat, r: Release)
    requires Faithful(remote, start, trace) && Safe(plan, remote, trace) && k < |trace|
    requires r in trace[k].before.releases && r !in trace[k].after.releases
    ensures trace[k].request == DeleteRelease(r.id)
         || trace[k].request == SetDraft(r.id, false) || trace[k].request == SetDraft(r.id, true)
    ensures Permitted(plan, remote, trace[..k], trace[k].request)
  {
    hide Permitted, Page, DraftsOf;
    assert Permitted(plan, remote, trace[..k], trace[k].request);
    assert trace[k] == Next(remote, start, trace[..k], trace[k].request);
    if trace[k].request.SetDraft? {
      DraftedOthers(trace[k].before.releases, trace[k].request.id, trace[k].request.draft, r);
    } else if trace[k].request.DeleteRelease? {
      WithoutKeeps(trace[k].before.releases, {trace[k].request.id});
    }
  }

  lemma {:induction false} DraftedOthers(releases: seq<Release>, id: nat, draft: bool, r: Release)
    ensures r in releases && r.id != id ==> r in Drafted(releases, id, draft)
    decreases |releases|
  {
    if releases != [] {
      DraftedOthers(releases[1..], id, draft, r);
    }
  }

  lemma NextAsks(remote: Remote, start: World, trace: Trace, request: Request)
    ensures Next(remote, start, trace, request).request == request
  {
  }

  lemma LiveStep(trace: Trace, e: Event)
    ensures Live(trace + [e]) <==> Live(trace) || Publishes(e)
  {
    assert (trace + [e])[..|trace|] == trace;
  }

  /** What one call finds when only tags are moved by others. */
  lemma TagsOnlyStep(remote: Remote, start: World, trace: Trace, request: Request)
    requires TagsOnly(remote)
    ensures Next(remote, start, trace, request).before.releases == After(start, trace).releases
    ensures Next(remote, start, trace, request).before.nextId == After(start, trace).nextId
  {
    TagMovesKeepReleases(After(start, trace), remote.environment(|trace|).foreign);
  }

  predicate IsRead(request: Request) {
    request.GetRef? || request.GetTagObject? || request.ListReleases? || request.GetRelease?
  }

  /** What reading leaves: others may move tags only, or nothing. */
  ghost predicate Undisturbed(remote: Remote, w: World, after: World) {
    && (TagsOnly(remote) ==> after.releases == w.releases && after.nextId == w.nextId)
    && (Alone(remote) ==> after == w)
  }

  lemma {:induction false} ReadStep(plan: Plan, remote: Remote, start: World, trace: Trace, request: Request)
    requires IsRead(request)
    ensures Permitted(plan, remote, trace, request)
    ensures var e := Next(remote, start, trace, request);
            && e.request == request && e.after == e.before && !Publishes(e)
            && (e.answer == None || e.answer == Serve(e.before, remote.objects, remote.delivered, request).1)
            && Undisturbed(remote, After(start, trace), e.before)
            && (Quiet(remote) ==> e.answer.Some? && e.before == After(start, trace))
  {
    if TagsOnly(remote) {
      TagsOnlyStep(remote, start, trace, request);
    }
  }

  /** What creating the tag does: nothing, or a tag where there was none. */
  lemma CreateRefStep(plan: Plan, remote: Remote, start: World, trace: Trace)
    ensures var w, e := After(start, trace), Next(remote, start, trace, CreateRef(plan.tag, plan.source));
            && !Publishes(e)
            && (TagsOnly(remote) ==> e.after.releases == w.releases && e.after.nextId == w.nextId)
            && (Alone(remote) ==>
                e.before == w && (e.after == w || (plan.tag !in w.tags && e.after == Tagged(plan, w))))
            && (Quiet(remote) && plan.tag !in w.tags ==> e.answer.Some? && e.after == Tagged(plan, w))
            && NamesSource(plan, remote, Tagged(plan, w))
  {
    if TagsOnly(remote) {
      TagsOnlyStep(remote, start, trace, CreateRef(plan.tag, plan.source));
    }
  }

  function Tagged(plan: Plan, w: World): World { w.(tags := w.tags[plan.tag := Commit(plan.source)]) }

  lemma CommitIsTagged(plan: Plan, remote: Remote, w: World)
    ensures CommitOf(plan, remote, w).Some? ==> plan.tag in w.tags
  {
  }

  /** The tags a run may use: one naming the source, or for a dispatched run a new one. */
  predicate Claimable(plan: Plan, remote: Remote, w: World) {
    match plan.trigger
    case Dispatch => plan.tag in w.tags ==> NamesSource(plan, remote, w)
    case Push => NamesSource(plan, remote, w)
    case OtherTrigger => false
  }

  predicate Admissible(plan: Plan, remote: Remote, w: World) {
    Lookup(w.releases, plan.tag) == Missing && Claimable(plan, remote, w)
  }

  // The same conditions on the remote itself.

  /** The links from the tag's reference to the commit they end in. */
  predicate TagChain(plan: Plan, remote: Remote, w: World, chain: seq<Target>) {
    && plan.tag in w.tags && chain != [] && chain[0] == w.tags[plan.tag] && IsChain(remote.objects, chain)
    && chain[|chain| - 1].Commit?
  }

  /** A tag names the source exactly when at most eight links lead from it to that commit. */
  lemma TagNamesSource(plan: Plan, remote: Remote, w: World, chain: seq<Target>)
    requires TagChain(plan, remote, w, chain)
    ensures NamesSource(plan, remote, w) <==> |chain| <= 8 && chain[|chain| - 1] == Commit(plan.source)
  {
    ChainIsResolved(remote.objects, chain, 8);
  }

  /** A tag without such a chain names nothing: it is absent, or its links end in no commit, or never end. */
  lemma TagNamesNothing(plan: Plan, remote: Remote, w: World)
    requires forall chain :: !TagChain(plan, remote, w, chain)
    ensures !NamesSource(plan, remote, w)
  {
    if NamesSource(plan, remote, w) {
      var chain := ResolvedHasAChain(remote.objects, w.tags[plan.tag], 8);
      assert TagChain(plan, remote, w, chain);
    }
  }

  /** Whether a run may use the tag, by what is there. */
  lemma ClaimableByChain(plan: Plan, remote: Remote, w: World, chain: seq<Target>)
    ensures plan.tag !in w.tags ==> (Claimable(plan, remote, w) <==> plan.trigger == Dispatch)
    ensures TagChain(plan, remote, w, chain) ==>
      (Claimable(plan, remote, w) <==>
         plan.trigger != OtherTrigger && |chain| <= 8 && chain[|chain| - 1] == Commit(plan.source))
  {
    if TagChain(plan, remote, w, chain) {
      TagNamesSource(plan, remote, w, chain);
    }
  }

  lemma AdmissibleByChain(plan: Plan, remote: Remote, w: World)
    ensures forall chain | TagChain(plan, remote, w, chain) ::
              Admissible(plan, remote, w) <==>
                && Lookup(w.releases, plan.tag) == Missing && plan.trigger != OtherTrigger
                && |chain| <= 8 && chain[|chain| - 1] == Commit(plan.source)
  {
    hide TagChain, Claimable;
    forall chain {
      ClaimableByChain(plan, remote, w, chain);
    }
  }

  /** The release list's first hundred entries are what a run sees. */
  lemma {:induction false} DraftsAreListed(releases: seq<Release>, tag: string, r: Release)
    ensures r in DraftsOf(Page(releases), tag)
       <==> r.draft && r.tag == tag && exists i | 0 <= i < |releases| && i < 100 :: releases[i] == r
  {
    if r in Page(releases) {
      var i :| 0 <= i < |Page(releases)| && Page(releases)[i] == r;
      assert releases[i] == r;
    }
  }

  lemma DeleteStep(remote: Remote, start: World, trace: Trace, id: nat)
    ensures var w, e := After(start, trace), Next(remote, start, trace, DeleteRelease(id));
            && e.request == DeleteRelease(id) && !Publishes(e)
            && (TagsOnly(remote) ==>
                  && e.after.nextId == w.nextId
                  && e.after.releases == (if e.before == e.after then w.releases else Without(w.releases, {id}))
                  && (e.answer.Some? ==> e.after.releases == Without(w.releases, {id})))
            && (Alone(remote) ==> e.after.tags == w.tags)
            && (Quiet(remote) && Holds(w.releases, id) ==> e.answer.Some?)
  {
    if TagsOnly(remote) {
      TagsOnlyStep(remote, start, trace, DeleteRelease(id));
    }
  }

  function Stale(plan: Plan, w: World): seq<Release> { DraftsOf(Page(w.releases), plan.tag) }

  /** The list without the removed drafts, each of them an earlier attempt at this publication. */
  ghost predicate Cleared(plan: Plan, w: World, after: World, removed: set<nat>) {
    && after.releases == Without(w.releases, removed) && after.nextId == w.nextId
    && forall id | id in removed :: exists r | r in Stale(plan, w) :: r.id == id && Matching(plan, r)
  }

  lemma ListedDraft(plan: Plan, e: Event, drafts: seq<Release>, draft: Release)
    requires Lists(plan, e, drafts) && draft in drafts
    ensures Matching(plan, draft) <==> draft.target == plan.source && draft.name == plan.title
  {
  }

  lemma StillHeld(plan: Plan, w: World, i: nat)
    requires Numbered(w.releases, w.nextId) && i < |Stale(plan, w)|
    ensures Holds(Without(w.releases, Ids(Stale(plan, w)[..i])), Stale(plan, w)[i].id)
  {
    hide Page, Ids, Without, Numbered;
    var drafts := Stale(plan, w);
    ListedDraftsAreDistinct(w.releases, w.nextId, plan.tag, drafts);
    assert drafts[i].id !in Ids(drafts[..i]) by { NotAmongIds(drafts, i); }
    assert drafts[i] in drafts;
    InPage(w.releases, drafts[i]);
    var kept := Without(w.releases, Ids(drafts[..i]));
    WithoutKeeps(w.releases, Ids(drafts[..i]));
    assert drafts[i] in kept;
    var k :| 0 <= k < |kept| && kept[k] == drafts[i];
  }

  lemma InPage(releases: seq<Release>, r: Release)
    requires r in Page(releases)
    ensures r in releases
  {
  }

  lemma NotAmongIds(releases: seq<Release>, i: nat)
    requires i < |releases| && forall j, k | 0 <= j < k < |releases| :: releases[j].id != releases[k].id
    ensures releases[i].id !in Ids(releases[..i])
  {
  }

  lemma ClearedMore(plan: Plan, w: World, after: World, drafts: seq<Release>, i: nat, gone: set<nat>)
    requires drafts == Stale(plan, w) && i < |drafts| && gone <= {drafts[i].id}
    requires after.releases == Without(w.releases, Ids(drafts[..i]) + gone) && after.nextId == w.nextId
    requires forall j | 0 <= j <= i :: Matching(plan, drafts[j])
    ensures Cleared(plan, w, after, Ids(drafts[..i]) + gone)
  {
    forall id | id in Ids(drafts[..i]) + gone
      ensures exists r | r in Stale(plan, w) :: r.id == id && Matching(plan, r)
    {
      if id in gone {
        assert drafts[i] in drafts;
      } else {
        var j :| 0 <= j < i && drafts[j].id == id;
        assert drafts[j] in drafts;
      }
    }
  }

  lemma NoIds(releases: seq<Release>)
    ensures Ids(releases[..0]) == {}
  {
  }

  function NewDraft(plan: Plan, remote: Remote, w: World): Release {
    Release(w.nextId, plan.tag, plan.source, plan.title, true, remote.delivered)
  }

  ghost predicate Newest(w: World, r: Release, rest: seq<Release>) {
    w.releases == [r] + rest && forall x | x in rest :: x.id != r.id
  }

  lemma CreateDraftStep(plan: Plan, remote: Remote, start: World, trace: Trace)
    ensures var w, e := After(start, trace), Next(remote, start, trace, CreateDraft(plan.tag, plan.source, plan.title));
            var made := [NewDraft(plan, remote, w)] + w.releases;
            && e.request == CreateDraft(plan.tag, plan.source, plan.title) && !Publishes(e)
            && (TagsOnly(remote) ==>
                  && ((e.after.releases == w.releases && e.after.nextId == w.nextId)
                      || (e.after.releases == made && e.after.nextId == w.nextId + 1))
                  && (e.answer.Some? ==> e.after.releases == made && e.after.nextId == w.nextId + 1))
            && (Alone(remote) ==> e.after.tags == w.tags)
            && (Quiet(remote) ==> (e.answer.Some? <==> plan.tag in w.tags))
  {
    if TagsOnly(remote) {
      TagsOnlyStep(remote, start, trace, CreateDraft(plan.tag, plan.source, plan.title));
    }
  }

  /** The server flips the draft mark of the newest release. */
  lemma ServesNewest(remote: Remote, w: World, r: Release, draft: bool, rest: seq<Release>)
    requires Newest(w, r, rest) && r.draft != draft
    ensures var (served, answer) := Serve(w, remote.objects, remote.delivered, SetDraft(r.id, draft));
            && answer == Some(Done) && Newest(served, r.(draft := draft), rest)
            && served != w && served.nextId == w.nextId && served.tags == w.tags
  {
    NewestRelease(r, rest, draft);
    hide Drafted;
    assert w.releases[0] == r && Drafted(w.releases, r.id, draft) == [r.(draft := draft)] + rest;
    assert ([r.(draft := draft)] + rest)[0] == r.(draft := draft);
  }

  lemma SetDraftAnswers(remote: Remote, start: World, trace: Trace, r: Release, draft: bool, rest: seq<Release>)
    ensures var w, e := After(start, trace), Next(remote, start, trace, SetDraft(r.id, draft));
            && e.request == SetDraft(r.id, draft) && (draft ==> !Publishes(e))
            && (Alone(remote) ==> e.after.tags == w.tags)
            && (Quiet(remote) && Newest(w, r, rest) ==> e.answer.Some?)
  {
    var w := After(start, trace);
    if Newest(w, r, rest) {
      NewestRelease(r, rest, draft);
    }
  }

  /** Publishing or withdrawing the newest release: it took effect exactly when the remote changed. */
  lemma SetDraftStep(remote: Remote, start: World, trace: Trace, r: Release, draft: bool, rest: seq<Release>)
    ensures var w, e := After(start, trace), Next(remote, start, trace, SetDraft(r.id, draft));
            && e.request == SetDraft(r.id, draft) && (draft ==> !Publishes(e))
            && (TagsOnly(remote) && Newest(w, r, rest) && r.draft != draft ==>
                  && e.after.nextId == w.nextId
                  && Newest(e.after, if e.before == e.after then r else r.(draft := draft), rest)
                  && (!draft ==> (Publishes(e) <==> e.before != e.after))
                  && (e.answer.Some? ==> e.before != e.after))
            && (Alone(remote) ==> e.after.tags == w.tags)
            && (Quiet(remote) && Newest(w, r, rest) ==> e.answer.Some?)
  {
    SetDraftAnswers(remote, start, trace, r, draft, rest);
    var w, e := After(start, trace), Next(remote, start, trace, SetDraft(r.id, draft));
    if TagsOnly(remote) && Newest(w, r, rest) && r.draft != draft {
      TagsOnlyStep(remote, start, trace, SetDraft(r.id, draft));
      ServesNewest(remote, e.before, r, draft, rest);
      hide Serve, TagsOnly, Alone, Quiet;
    }
  }

  /** Deleting the newest release. */
  lemma DiscardStep(remote: Remote, start: World, trace: Trace, r: Release, rest: seq<Release>)
    ensures var w, e := After(start, trace), Next(remote, start, trace, DeleteRelease(r.id));
            TagsOnly(remote) && Newest(w, r, rest) ==>
              && e.after.nextId == w.nextId
              && e.after.releases == if e.before == e.after then [r] + rest else rest
  {
    hide Next;
    DeleteStep(remote, start, trace, r.id);
    if Newest(After(start, trace), r, rest) {
      NewestRelease(r, rest, true);
    }
  }

  lemma NewestIsListed(plan: Plan, remote: Remote, w: World)
    ensures var made := [NewDraft(plan, remote, w)] + w.releases;
            DraftsOf(Page(made), plan.tag) != [] && DraftsOf(Page(made), plan.tag)[0] == made[0]
  {
    var made := [NewDraft(plan, remote, w)] + w.releases;
    assert Page(made)[0] == made[0];
  }

  /** After publishing, the tag still named the source and the release found by its tag was verified. */
  ghost predicate Confirmed(plan: Plan, remote: Remote, trace: Trace) {
    exists p, i, j | 0 <= p < i < j < |trace| ::
      && (trace[p].request.SetDraft? && !trace[p].request.draft && trace[p].answer.Some?)
      && ReadsSource(plan, remote, trace[i]) && FindsVerified(plan, trace[j])
  }

  ghost predicate HasVerified(plan: Plan, found: Answer) {
    found.Found? && OneToOne(found.release.assets, plan.expected)
  }

  ghost predicate FindsVerified(plan: Plan, e: Event) {
    && e.request == GetRelease(plan.tag) && e.answer.Some? && e.answer.value.Found?
    && e.answer.value == Lookup(e.before.releases, plan.tag)
    && OneToOne(e.answer.value.release.assets, plan.expected)
  }

  /**
   * Where an attempt leaves the list: without the removed drafts, and on top nothing,
   * its own draft, or its own release.
   */
  ghost predicate Leaves(plan: Plan, remote: Remote, w: World, after: World, removed: set<nat>, top: Option<bool>) {
    && (forall id | id in removed :: exists r | r in Stale(plan, w) :: r.id == id && Matching(plan, r))
    && after.releases == Top(plan, remote, w, top) + Without(w.releases, removed)
    && w.nextId <= after.nextId <= w.nextId + 1 && (top.Some? ==> after.nextId == w.nextId + 1)
    && (top.Some? ==> removed == Ids(Stale(plan, w)))
  }

  function Top(plan: Plan, remote: Remote, w: World, top: Option<bool>): seq<Release> {
    match top
    case None => []
    case Some(draft) => [NewDraft(plan, remote, w).(draft := draft)]
  }

  lemma PublishedIsFound(plan: Plan, draft: Release, rest: seq<Release>)
    ensures draft.tag == plan.tag ==>
      Lookup([draft.(draft := false)] + rest, plan.tag) == Found(draft.(draft := false))
  {
  }

  /** What an attempt leaves published: what was published, and at most its own release. */
  lemma LeavesPublished(plan: Plan, remote: Remote, w: World, after: World, removed: set<nat>, top: Option<bool>)
    requires Numbered(w.releases, w.nextId) && Leaves(plan, remote, w, after, removed, top)
    ensures Numbered(after.releases, after.nextId)
    ensures Published(after.releases)
         == (if top == Some(false) then Top(plan, remote, w, top) else []) + Published(w.releases)
    ensures top == Some(false) <==> Published(after.releases) != Published(w.releases)
  {
    LeavesNumbered(plan, remote, w, after, removed, top);
    hide Numbered, Matching, Ids;
    var kept := Without(w.releases, removed);
    RemovedAreDrafts(plan, w, removed);
    DraftsAreUnpublished(w.releases, removed);
    PublishedConcat(Top(plan, remote, w, top), kept);
    if top.Some? {
      assert Top(plan, remote, w, top)[1..] == [];
    }
  }

  lemma LeavesNumbered(plan: Plan, remote: Remote, w: World, after: World, removed: set<nat>, top: Option<bool>)
    requires Numbered(w.releases, w.nextId) && Leaves(plan, remote, w, after, removed, top)
    ensures Numbered(after.releases, after.nextId)
  {
    hide Matching, Ids, Stale, DraftsOf, Page;
    var kept := Without(w.releases, removed);
    WithoutKeepsNumbers(w.releases, w.nextId, removed);
    NumbersBelow(w.releases, w.nextId);
    WithoutKeeps(w.releases, removed);
    NumbersGrow(kept, w.nextId, after.nextId);
    if top.Some? {
      assert after.releases[1..] == kept;
    } else {
      assert after.releases == kept;
    }
  }

  lemma {:induction false} NumbersGrow(releases: seq<Release>, nextId: nat, more: nat)
    requires Numbered(releases, nextId) && nextId <= more
    ensures Numbered(releases, more)
    decreases |releases|
  {
    if releases != [] {
      NumbersGrow(releases[1..], nextId, more);
    }
  }

  lemma RemovedAreDrafts(plan: Plan, w: World, removed: set<nat>)
    requires Numbered(w.releases, w.nextId)
    requires forall id | id in removed :: exists r | r in Stale(plan, w) :: r.id == id && Matching(plan, r)
    ensures forall r | r in w.releases && r.id in removed :: Matching(plan, r)
  {
    NumbersBelow(w.releases, w.nextId);
    forall r | r in w.releases && r.id in removed ensures Matching(plan, r) {
      var q :| q in Stale(plan, w) && q.id == r.id && Matching(plan, q);
      InPage(w.releases, q);
    }
  }

  /** The drafts allow an attempt: all are its own, and it will find just the new one. */
  predicate ReadyDrafts(plan: Plan, remote: Remote, w: World) {
    && (forall r | r in Stale(plan, w) :: Matching(plan, r))
    && |DraftsOf(Page([NewDraft(plan, remote, w)] + Without(w.releases, Ids(Stale(plan, w)))), plan.tag)| == 1
  }

  /** A tag a run may use, and no release of it but earlier attempts on the first page. */
  predicate Recoverable(plan: Plan, remote: Remote, w: World) {
    && Numbered(w.releases, w.nextId) && Claimable(plan, remote, w)
    && forall r | r in w.releases && r.tag == plan.tag :: Matching(plan, r) && r in Page(w.releases)
  }

  lemma {:induction false} NoDraftsOfTag(releases: seq<Release>, tag: string)
    requires forall r | r in releases :: r.tag != tag
    ensures DraftsOf(releases, tag) == []
    decreases |releases|
  {
    if releases != [] {
      assert forall r | r in releases[1..] :: r in releases;
      NoDraftsOfTag(releases[1..], tag);
    }
  }

  lemma TagReleaseIsStale(plan: Plan, remote: Remote, w: World, r: Release)
    requires Recoverable(plan, remote, w) && r in w.releases
    ensures r.tag == plan.tag ==> r.id in Ids(Stale(plan, w))
  {
  }

  lemma RecoverableIsReady(plan: Plan, remote: Remote, w: World)
    requires Recoverable(plan, remote, w)
    ensures Admissible(plan, remote, w) && ReadyDrafts(plan, remote, w)
    ensures forall r | r in Without(w.releases, Ids(Stale(plan, w))) :: r.tag != plan.tag
  {
    var rest := Without(w.releases, Ids(Stale(plan, w)));
    WithoutKeeps(w.releases, Ids(Stale(plan, w)));
    forall r | r in rest ensures r.tag != plan.tag {
      assert r in w.releases && r.id !in Ids(Stale(plan, w));
      TagReleaseIsStale(plan, remote, w, r);
    }
    forall r | r in Stale(plan, w) ensures Matching(plan, r) {
      InPage(w.releases, r);
    }
    var made := [NewDraft(plan, remote, w)] + rest;
    var page := Page(made);
    assert page[0] == made[0];
    forall r | r in page[1..] ensures r.tag != plan.tag {
      assert r in rest;
    }
    NoDraftsOfTag(page[1..], plan.tag);
  }

  /** A failed attempt that left nothing published can be run again. */
  lemma RecoverableStays(plan: Plan, remote: Remote, w: World, after: World, removed: set<nat>, top: Option<bool>)
    requires Recoverable(plan, remote, w) && Leaves(plan, remote, w, after, removed, top) && top != Some(false)
    requires after.tags == w.tags || (plan.trigger == Dispatch && after.tags == Tagged(plan, w).tags)
    ensures Recoverable(plan, remote, after)
  {
    LeavesPublished(plan, remote, w, after, removed, top);
    RecoverableIsReady(plan, remote, w);
    WithoutKeeps(w.releases, removed);
    forall r | r in after.releases && r.tag == plan.tag ensures Matching(plan, r) && r in Page(after.releases) {
      if top == None {
        assert after.releases == Without(w.releases, removed);
        PageOfFewer(w.releases, removed, r);
      } else {
        assert r == NewDraft(plan, remote, w);
        assert after.releases[0] == r && Page(after.releases)[0] == r;
      }
    }
  }

  /** A release left published blocks every rerun. */
  lemma StrandedReleaseBlocks(plan: Plan, remote: Remote, w: World, after: World, removed: set<nat>)
    requires Leaves(plan, remote, w, after, removed, Some(false))
    ensures !Admissible(plan, remote, after)
  {
    assert after.releases[0] == NewDraft(plan, remote, w).(draft := false);
  }

  lemma ReadyMeans(plan: Plan, remote: Remote, w: World)
    ensures ReadyDrafts(plan, remote, w) <==>
      && (forall r | r in Stale(plan, w) :: Matching(plan, r))
      && |DraftsOf(Page([NewDraft(plan, remote, w)] + Without(w.releases, Ids(Stale(plan, w)))), plan.tag)| == 1
  {
  }

  lemma NotStranded(trace: Trace)
    ensures !Live(trace) ==> !Stranded(trace)
  {
  }

  lemma KeptIsNewest(plan: Plan, remote: Remote, w: World, kept: World, removed: set<nat>)
    requires Numbered(w.releases, w.nextId) && kept.releases == Without(w.releases, removed) && kept.nextId == w.nextId
    ensures NewDraft(plan, remote, kept) == NewDraft(plan, remote, w)
    ensures forall x | x in kept.releases :: x.id != NewDraft(plan, remote, w).id
  {
    NumbersBelow(w.releases, w.nextId);
    WithoutKeeps(w.releases, removed);
  }

  lemma RecoverableMeans(plan: Plan, remote: Remote, w: World)
    requires Recoverable(plan, remote, w)
    ensures Numbered(w.releases, w.nextId) && Claimable(plan, remote, w)
  {
  }

  /** The tag plays no part in what an attempt does to the list. */
  lemma SameReleases(plan: Plan, remote: Remote, w: World, tagged: World)
    ensures tagged.releases == w.releases && tagged.nextId == w.nextId ==>
      && (ReadyDrafts(plan, remote, tagged) <==> ReadyDrafts(plan, remote, w))
      && forall after: World, removed: set<nat>, top: Option<bool> ::
        Leaves(plan, remote, tagged, after, removed, top) <==> Leaves(plan, remote, w, after, removed, top)
  {
    if tagged.releases == w.releases && tagged.nextId == w.nextId {
      assert Stale(plan, tagged) == Stale(plan, w);
      assert NewDraft(plan, remote, tagged) == NewDraft(plan, remote, w);
    }
  }

  lemma SelfCreatedStays(plan: Plan, trace: Trace, more: Trace, id: nat)
    requires SelfCreated(plan, trace, id) && trace <= more
    ensures SelfCreated(plan, more, id)
  {
    var i, j :| 0 <= i < j < |trace| && Creates(plan, trace[i]) && ListsOnly(plan, trace[j], id);
    assert more[i] == trace[i] && more[j] == trace[j];
  }

  lemma Environments(remote: Remote)
    ensures Quiet(remote) ==> Alone(remote)
    ensures Alone(remote) ==> TagsOnly(remote)
  {
  }

  class Publisher {
    const plan: Plan
    const remote: Remote
    const start: World
    var clock: nat
    var world: World
    ghost var trace: Trace

    ghost predicate Valid()
      reads this
    {
      && clock == |trace| && world == After(start, trace)
      && Faithful(remote, start, trace) && Safe(plan, remote, trace)
    }

    constructor (plan: Plan, remote: Remote, start: World)
      ensures Valid() && trace == [] && world == start
      ensures this.plan == plan && this.remote == remote && this.start == start
    {
      this.plan, this.remote, this.start := plan, remote, start;
      clock, world, trace := 0, start, [];
    }

    method Call(request: Request) returns (answer: Option<Answer>)
      requires Valid() && Permitted(plan, remote, trace, request)
      modifies this`clock, this`world, this`trace
      ensures Valid()
      ensures trace == old(trace) + [Next(remote, start, old(trace), request)]
      ensures answer == trace[|old(trace)|].answer && world == trace[|old(trace)|].after
      ensures Live(trace) <==> Live(old(trace)) || Publishes(trace[|old(trace)|])
    {
      hide Next, Safe, Faithful, Permitted, Live, Publishes;
      Extended(plan, remote, start, trace, request);
      var e := Happens(world, remote.objects, remote.delivered, remote.environment(clock), request);
      assert e == Next(remote, start, trace, request) by { IsNext(remote, start, trace, request); }
      trace := trace + [e];
      clock, world, answer := clock + 1, e.after, e.answer;
    }

    ghost predicate Reports(e: Event, commit: Option<string>)
    {
      && e.request == GetRef(plan.tag) && e.answer.Some?
      && commit == CommitOf(plan, remote, e.before)
      && (commit == None ==> e.answer == Some(Missing))
    }

    /** The commit the tag names, through any annotated tag objects; None without the tag. */
    method TagCommit() returns (r: Result<Option<string>, Refusal>)
      requires Valid()
      modifies this`clock, this`world, this`trace
      ensures Valid() && old(trace) <= trace && (Live(trace) <==> Live(old(trace)))
      ensures r.Ok? ==> |old(trace)| < |trace| && Reports(trace[|old(trace)|], r.value)
      ensures Undisturbed(remote, old(world), world)
      ensures Quiet(remote) ==>
        && world == old(world)
        && (r.Ok? <==> plan.tag in world.tags ==> CommitOf(plan, remote, world).Some?)
        && (r.Ok? ==> r.value == CommitOf(plan, remote, world))
    {
      hide Safe, Faithful, Permitted, Live, Publishes, TagsOnly, Alone, Quiet;
      ReadStep(plan, remote, start, trace, GetRef(plan.tag));
      var reference := Call(GetRef(plan.tag));
      if reference == None {
        return Refused(CallFailed);
      }
      if reference.value.Missing? {
        return Ok(None);
      }
      var target := reference.value.target;
      for i := 0 to 8
        invariant Valid() && old(trace) < trace && (Live(trace) <==> Live(old(trace)))
        invariant trace[|old(trace)|] == Next(remote, start, old(trace), GetRef(plan.tag))
        invariant Resolve(remote.objects, reference.value.target, 8) == Resolve(remote.objects, target, 8 - i)
        invariant Undisturbed(remote, old(world), world)
        invariant Quiet(remote) ==> world == old(world)
      {
        if target.Commit? {
          return Ok(Some(target.sha));
        }
        if !target.Annotated? {
          return Refused(NotACommit);
        }
        ReadStep(plan, remote, start, trace, GetTagObject(target.sha));
        var link := Call(GetTagObject(target.sha));
        if link == None || link.value.Missing? {
          return Refused(CallFailed);
        }
        target := link.value.target;
      }
      return Refused(TooDeep);
    }

    method Drafts() returns (found: Option<seq<Release>>)
      requires Valid()
      modifies this`clock, this`world, this`trace
      ensures Valid() && old(trace) <= trace && (Live(trace) <==> Live(old(trace)))
      ensures found.Some? ==> |trace| == |old(trace)| + 1 && Lists(plan, trace[|old(trace)|], found.value)
      ensures Undisturbed(remote, old(world), world)
      ensures found.Some? && TagsOnly(remote) ==> found.value == DraftsOf(Page(old(world).releases), plan.tag)
      ensures Quiet(remote) ==> found.Some? && world == old(world)
    {
      hide Safe, Faithful, Permitted, Live, Publishes, TagsOnly, Alone, Quiet;
      ReadStep(plan, remote, start, trace, ListReleases);
      var listed := Call(ListReleases);
      return if listed == None then None else Some(DraftsOf(listed.value.releases, plan.tag));
    }

    /** Create the tag, adopt one an earlier attempt created, or refuse. */
    method ClaimTag() returns (verdict: Option<Refusal>)
      requires Valid()
      modifies this`clock, this`world, this`trace
      ensures Valid() && old(trace) <= trace && (Live(trace) <==> Live(old(trace)))
      ensures TagsOnly(remote) ==> world.releases == old(world).releases && world.nextId == old(world).nextId
      ensures Alone(remote) ==>
        || world == old(world)
        || (plan.trigger == Dispatch && plan.tag !in old(world).tags && world == Tagged(plan, old(world)))
      ensures Quiet(remote) ==> (verdict == None <==> Claimable(plan, remote, old(world)))
      ensures Quiet(remote) && verdict == None ==> NamesSource(plan, remote, world)
    {
      hide Safe, Faithful, Live, Publishes, TagsOnly, Alone, Quiet, CommitOf;
      ghost var first := trace;
      var current := TagCommit();
      if current.Refused? {
        return Some(current.error);
      }
      CommitIsTagged(plan, remote, world);
      if plan.trigger == Dispatch {
        if current.value == None {
          assert ReadsNoTag(plan, trace[|first|]);
          CreateRefStep(plan, remote, start, trace);
          var created := Call(CreateRef(plan.tag, plan.source));
          return if created == None then Some(CallFailed) else None;
        } else if current.value != Some(plan.source) {
          return Some(TagTaken);
        }
      } else if plan.trigger != Push || current.value != Some(plan.source) {
        return Some(WrongEvent);
      }
      return None;
    }

    method EstablishTag() returns (verdict: Option<Refusal>)
      requires Valid()
      modifies this`clock, this`world, this`trace
      ensures Valid() && old(trace) <= trace && (Live(trace) <==> Live(old(trace)))
      ensures verdict == None ==> exists i | |old(trace)| <= i < |trace| :: ReadsSource(plan, remote, trace[i])
      ensures TagsOnly(remote) ==> world.releases == old(world).releases && world.nextId == old(world).nextId
      ensures TagsOnly(remote) && verdict == None ==> Lookup(world.releases, plan.tag) == Missing
      ensures Alone(remote) ==>
        || world == old(world)
        || (plan.trigger == Dispatch && plan.tag !in old(world).tags && world == Tagged(plan, old(world)))
      ensures Quiet(remote) ==> (verdict == None <==> Admissible(plan, remote, old(world)))
      ensures Quiet(remote) && Lookup(old(world).releases, plan.tag) == Missing ==>
        && (plan.tag !in old(world).tags ==> (verdict == None <==> plan.trigger == Dispatch))
        && (forall chain | TagChain(plan, remote, old(world), chain) ::
              verdict == None <==>
                plan.trigger != OtherTrigger && |chain| <= 8 && chain[|chain| - 1] == Commit(plan.source))
      ensures Quiet(remote) && verdict == None ==> NamesSource(plan, remote, world)
    {
      forall chain {
        ClaimableByChain(plan, remote, world, chain);
      }
      hide Safe, Faithful, Live, Publishes, TagsOnly, Alone, Quiet, CommitOf, Claimable, TagChain;
      ReadStep(plan, remote, start, trace, GetRelease(plan.tag));
      var existing := Call(GetRelease(plan.tag));
      if existing == None {
        return Some(CallFailed);
      }
      if existing.value.Found? {
        return Some(ReleaseExists);
      }
      verdict := ClaimTag();
      if verdict != None {
        return;
      }
      CommitIsTagged(plan, remote, world);
      ghost var second := trace;
      var final := TagCommit();
      if final.Refused? {
        return Some(final.error);
      }
      if final.value != Some(plan.source) {
        return Some(TagDiffers);
      }
      assert ReadsSource(plan, remote, trace[|second|]);
      return None;
    }

    /** Delete one listed draft; `gone` is empty when the deletion took no effect. */
    method DeleteStale(draft: Release, ghost drafts: seq<Release>, ghost seen: nat)
      returns (deleted: bool, ghost gone: set<nat>)
      requires Valid() && seen < |trace| && Lists(plan, trace[seen], drafts)
      requires draft in drafts && Matching(plan, draft)
      modifies this`clock, this`world, this`trace
      ensures Valid() && old(trace) <= trace && |old(trace)| < |trace| && (Live(trace) <==> Live(old(trace)))
      ensures gone <= {draft.id} && (deleted ==> gone == {draft.id})
      ensures TagsOnly(remote) ==>
        world.releases == Without(old(world).releases, gone) && world.nextId == old(world).nextId
      ensures Alone(remote) ==> world.tags == old(world).tags
      ensures Quiet(remote) && Holds(old(world).releases, draft.id) ==> deleted
    {
      hide Safe, Faithful, Live, Publishes, TagsOnly, Alone, Quiet, Matching, Page;
      assert ListsMatching(plan, trace[seen], draft.id);
      DeleteStep(remote, start, trace, draft.id);
      WithoutNothing(world.releases, {});
      var answer := Call(DeleteRelease(draft.id));
      ghost var e := trace[|old(trace)|];
      deleted := answer != None;
      gone := if !deleted && e.before == e.after then {} else {draft.id};
    }

    /**
     * Delete the drafts an interrupted attempt left. `removed` is what the deletions
     * that took effect removed, whether or not their calls raised.
     */
    method ClearStale() returns (verdict: Option<Refusal>, ghost removed: set<nat>)
      requires Valid()
      modifies this`clock, this`world, this`trace
      ensures Valid() && old(trace) <= trace && (Live(trace) <==> Live(old(trace)))
      ensures TagsOnly(remote) ==> Cleared(plan, old(world), world, removed)
      ensures TagsOnly(remote) && verdict == None ==> removed == Ids(Stale(plan, old(world)))
      ensures Alone(remote) ==> world.tags == old(world).tags
      ensures Quiet(remote) && Numbered(old(world).releases, old(world).nextId) ==>
        (verdict == None <==> forall r | r in Stale(plan, old(world)) :: Matching(plan, r))
    {
      hide Safe, Faithful, Permitted, Live, Publishes, TagsOnly, Alone, Quiet, Numbered, Matching, DraftsOf, Page, Ids,
          Without;
      Environments(remote);
      removed := {};
      ghost var w, seen := world, |trace|;
      WithoutNothing(w.releases, {});
      var stale := Drafts();
      if stale == None {
        return Some(CallFailed), removed;
      }
      var drafts := stale.value;
      assert Ids(drafts[..0]) == {} by { NoIds(drafts); }
      for i := 0 to |drafts|
        invariant Valid() && |trace| > seen && old(trace) <= trace && (Live(trace) <==> Live(old(trace)))
        invariant Lists(plan, trace[seen], drafts)
        invariant forall j | 0 <= j < i :: Matching(plan, drafts[j])
        invariant removed == Ids(drafts[..i])
        invariant TagsOnly(remote) ==> Cleared(plan, w, world, removed)
        invariant Alone(remote) ==> world.tags == w.tags
      {
        ListedDraft(plan, trace[seen], drafts, drafts[i]);
        if drafts[i].target != plan.source || drafts[i].name != plan.title {
          return Some(OtherDraft), removed;
        }
        if Quiet(remote) && Numbered(w.releases, w.nextId) {
          StillHeld(plan, w, i);
        }
        var deleted, gone := DeleteStale(drafts[i], drafts, seen);
        WithoutTwice(w.releases, removed, gone);
        removed := removed + gone;
        if TagsOnly(remote) {
          ClearedMore(plan, w, world, drafts, i, gone);
        }
        if !deleted {
          return Some(CallFailed), removed;
        }
        IdsOfOneMore(drafts, i);
      }
      assert drafts[..|drafts|] == drafts;
      return None, removed;
    }

    method OpenDraft() returns (r: Result<Release, Refusal>)
      requires Valid()
      modifies this`clock, this`world, this`trace
      ensures Valid() && old(trace) <= trace && (Live(trace) <==> Live(old(trace)))
      ensures r.Ok? ==>
        trace != [] && SelfCreated(plan, trace, r.value.id) && Lists(plan, trace[|trace| - 1], [r.value])
      ensures TagsOnly(remote) ==>
        var w, made := old(world), [NewDraft(plan, remote, old(world))] + old(world).releases;
        && ((world.releases == w.releases && world.nextId == w.nextId)
            || (world.releases == made && world.nextId == w.nextId + 1))
        && (r.Ok? ==> r.value == made[0] && world.releases == made)
      ensures Alone(remote) ==> world.tags == old(world).tags
      ensures Quiet(remote) ==>
        var made := [NewDraft(plan, remote, old(world))] + old(world).releases;
        (r.Ok? <==> plan.tag in old(world).tags && |DraftsOf(Page(made), plan.tag)| == 1)
    {
      hide Safe, Faithful, Live, Publishes, TagsOnly, Alone, Quiet;
      Environments(remote);
      CreateDraftStep(plan, remote, start, trace);
      var created := Call(CreateDraft(plan.tag, plan.source, plan.title));
      if created == None {
        return Refused(CallFailed);
      }
      ghost var asked := |old(trace)|;
      assert Creates(plan, trace[asked]);
      NewestIsListed(plan, remote, old(world));
      ghost var w := world;
      var listed := Drafts();
      if listed == None {
        return Refused(CallFailed);
      }
      if |listed.value| != 1 {
        return Refused(DraftCount);
      }
      assert listed.value == [listed.value[0]];
      assert ListsOnly(plan, trace[|trace| - 1], listed.value[0].id);
      return Ok(listed.value[0]);
    }

    /** Verify the draft, look at the tag once more, and only then publish. */
    method Promote(draft: Release, ghost rest: seq<Release>) returns (verdict: Option<Refusal>)
      requires Valid() && !Live(trace)
      requires trace != [] && SelfCreated(plan, trace, draft.id) && Lists(plan, trace[|trace| - 1], [draft])
      modifies this`clock, this`world, this`trace
      ensures Valid() && old(trace) <= trace
      ensures verdict == None ==>
        && OneToOne(draft.assets, plan.expected)
        && trace != [] && trace[|trace| - 1].request == SetDraft(draft.id, false) && trace[|trace| - 1].answer.Some?
      ensures Live(trace) ==> trace != [] && trace[|trace| - 1].request == SetDraft(draft.id, false)
      ensures TagsOnly(remote) && Newest(old(world), draft, rest) && draft.draft ==>
        && Newest(world, if Live(trace) then draft.(draft := false) else draft, rest)
        && world.nextId == old(world).nextId
        && (verdict == None ==> Live(trace))
      ensures Alone(remote) ==> world.tags == old(world).tags
      ensures Quiet(remote) && Newest(old(world), draft, rest) ==>
        (verdict == None <==>
           draft.draft && OneToOne(draft.assets, plan.expected) && NamesSource(plan, remote, old(world)))
    {
      hide Safe, Faithful, Live, Publishes, TagsOnly, Alone, Quiet, OneToOne, SelfCreated;
      Environments(remote);
      ghost var seen := |trace| - 1;
      verdict := VerifyAssets(Found(draft), plan.expected, true);
      if verdict != None {
        return;
      }
      assert ListsVerified(plan, trace[seen], draft.id);
      ghost var first := trace;
      CommitIsTagged(plan, remote, world);
      var commit := TagCommit();
      if commit.Refused? {
        return Some(commit.error);
      }
      if commit.value != Some(plan.source) {
        return Some(TagDiffers);
      }
      assert ReadsSource(plan, remote, trace[|first|]);
      SelfCreatedStays(plan, first, trace, draft.id);
      SetDraftStep(remote, start, trace, draft, false, rest);
      var published := Call(SetDraft(draft.id, false));
      return if published == None then Some(CallFailed) else None;
    }

    /** Look at the tag and the published release again. */
    method Confirm() returns (verdict: Option<Refusal>)
      requires Valid()
      modifies this`clock, this`world, this`trace
      ensures Valid() && old(trace) <= trace && (Live(trace) <==> Live(old(trace)))
      ensures verdict == None ==>
        && |old(trace)| < |trace| && FindsVerified(plan, trace[|trace| - 1])
        && exists i | |old(trace)| <= i < |trace| - 1 :: ReadsSource(plan, remote, trace[i])
      ensures Undisturbed(remote, old(world), world)
      ensures Quiet(remote) ==>
        (verdict == None <==>
          && NamesSource(plan, remote, old(world))
          && HasVerified(plan, Lookup(old(world).releases, plan.tag)))
    {
      hide Safe, Faithful, Live, Publishes, TagsOnly, Alone, Quiet, OneToOne;
      ghost var first := trace;
      CommitIsTagged(plan, remote, world);
      var commit := TagCommit();
      if commit.Refused? {
        return Some(commit.error);
      }
      if commit.value != Some(plan.source) {
        return Some(TagDiffers);
      }
      assert ReadsSource(plan, remote, trace[|first|]);
      ReadStep(plan, remote, start, trace, GetRelease(plan.tag));
      ghost var second := trace;
      var found := Call(GetRelease(plan.tag));
      if found == None {
        return Some(CallFailed);
      }
      verdict := VerifyAssets(found.value, plan.expected, false);
      if verdict == None {
        assert FindsVerified(plan, trace[|second|]);
        assert ReadsSource(plan, remote, trace[|first|]);
      }
    }

    /** The first guarded block: a draft that could not be published is deleted. */
    method PublishOrDelete(draft: Release, ghost rest: seq<Release>) returns (verdict: Option<Refusal>)
      requires Valid() && !Live(trace)
      requires trace != [] && SelfCreated(plan, trace, draft.id) && Lists(plan, trace[|trace| - 1], [draft])
      modifies this`clock, this`world, this`trace
      ensures Valid() && old(trace) <= trace
      ensures verdict == None ==>
        && OneToOne(draft.assets, plan.expected)
        && trace != [] && trace[|trace| - 1].request == SetDraft(draft.id, false) && trace[|trace| - 1].answer.Some?
      ensures verdict != None ==> trace != [] && trace[|trace| - 1].request == DeleteRelease(draft.id)
      ensures TagsOnly(remote) && Newest(old(world), draft, rest) && draft.draft ==>
        && world.nextId == old(world).nextId
        && (if verdict == None || Stranded(trace) then Newest(world, draft.(draft := false), rest)
            else world.releases == [draft] + rest || world.releases == rest)
        && (verdict == None ==> Live(trace))
        && (verdict != None && trace[|trace| - 1].before != trace[|trace| - 1].after ==> world.releases == rest)
      ensures Alone(remote) ==> world.tags == old(world).tags
      ensures Quiet(remote) && Newest(old(world), draft, rest) && draft.draft ==>
        (verdict == None <==> OneToOne(draft.assets, plan.expected) && NamesSource(plan, remote, old(world)))
    {
      hide Safe, Faithful, Live, Publishes, TagsOnly, Alone, Quiet, OneToOne, SelfCreated, ReadsSource, NamesSource;
      Environments(remote);
      ghost var first := trace;
      verdict := Promote(draft, rest);
      if verdict != None {
        SelfCreatedStays(plan, first, trace, draft.id);
        DiscardStep(remote, start, trace, draft, rest);
        DiscardStep(remote, start, trace, draft.(draft := false), rest);
        DeleteStep(remote, start, trace, draft.id);
        var deleted := Call(DeleteRelease(draft.id));
        return Some(if deleted == None then CallFailed else verdict.value);
      }
    }

    /** The second guarded block: a release that could not be confirmed is withdrawn to a draft. */
    method ConfirmOrWithdraw(release: Release, ghost rest: seq<Release>) returns (verdict: Option<Refusal>)
      requires Valid() && !release.draft
      requires trace != [] && trace[|trace| - 1].request == SetDraft(release.id, false)
          && trace[|trace| - 1].answer.Some?
      modifies this`clock, this`world, this`trace
      ensures Valid() && old(trace) <= trace && (Live(trace) <==> Live(old(trace)))
      ensures verdict == None ==> Confirmed(plan, remote, trace) && !Stranded(trace)
      ensures verdict != None ==> trace != [] && trace[|trace| - 1].request == SetDraft(release.id, true)
      ensures TagsOnly(remote) && Newest(old(world), release, rest) && Live(old(trace)) ==>
        && world.nextId == old(world).nextId
        && (if verdict == None || Stranded(trace) then Newest(world, release, rest)
            else world.releases == [release.(draft := true)] + rest)
      ensures Alone(remote) ==> world.tags == old(world).tags
      ensures Quiet(remote) ==>
        (verdict == None <==>
          && NamesSource(plan, remote, old(world))
          && HasVerified(plan, Lookup(old(world).releases, plan.tag)))
    {
      hide Safe, Faithful, Live, Publishes, TagsOnly, Alone, Quiet, OneToOne, ReadsSource, NamesSource, HasVerified;
      Environments(remote);
      ghost var p := |trace| - 1;
      verdict := Confirm();
      if verdict != None {
        assert trace[p].request == SetDraft(release.id, false);
        SetDraftStep(remote, start, trace, release, true, rest);
        var withdrawn := Call(SetDraft(release.id, true));
        return Some(if withdrawn == None then CallFailed else verdict.value);
      }
    }

    method PublishDraft(draft: Release, ghost rest: seq<Release>) returns (verdict: Option<Refusal>)
      requires Valid() && !Live(trace)
      requires trace != [] && SelfCreated(plan, trace, draft.id) && Lists(plan, trace[|trace| - 1], [draft])
      modifies this`clock, this`world, this`trace
      ensures Valid() && old(trace) <= trace
      ensures verdict == None ==> OneToOne(draft.assets, plan.expected) && Confirmed(plan, remote, trace)
      ensures TagsOnly(remote) && Newest(old(world), draft, rest) && draft.draft ==>
        && world.nextId == old(world).nextId
        && (if verdict == None || Stranded(trace) then Newest(world, draft.(draft := false), rest)
            else world.releases == [draft] + rest || world.releases == rest)
        && (verdict == None ==> !Stranded(trace))
      ensures Alone(remote) ==> world.tags == old(world).tags
      ensures Quiet(remote) && Newest(old(world), draft, rest) && draft.draft && draft.tag == plan.tag ==>
        (verdict == None <==> OneToOne(draft.assets, plan.expected) && NamesSource(plan, remote, old(world)))
    {
      hide Safe, Faithful, Live, Publishes, TagsOnly, Alone, Quiet, OneToOne, SelfCreated, Stranded, Confirmed;
      Environments(remote);
      verdict := PublishOrDelete(draft, rest);
      if verdict == None {
        PublishedIsFound(plan, draft, rest);
        verdict := ConfirmOrWithdraw(draft.(draft := false), rest);
        assert draft.(draft := false).(draft := true) == draft.(draft := true);
        assert draft.draft ==> draft.(draft := true) == draft;
      }
    }

    /** `removed` and `top` say where the attempt left the list. */
    method PublishVerified() returns (verdict: Option<Refusal>, ghost removed: set<nat>, ghost top: Option<bool>)
      requires Valid() && !Live(trace)
      modifies this`clock, this`world, this`trace
      ensures Valid() && old(trace) <= trace
      ensures verdict == None ==> Confirmed(plan, remote, trace)
      ensures TagsOnly(remote) && Numbered(old(world).releases, old(world).nextId) ==>
        && Leaves(plan, remote, old(world), world, removed, top)
        && (top == Some(false) <==> verdict == None || Stranded(trace))
        && (verdict == None ==> !Stranded(trace) && OneToOne(remote.delivered, plan.expected))
      ensures Alone(remote) ==> world.tags == old(world).tags
      ensures Quiet(remote) && Numbered(old(world).releases, old(world).nextId) ==>
        (verdict == None <==>
          && NamesSource(plan, remote, old(world)) && OneToOne(remote.delivered, plan.expected)
          && ReadyDrafts(plan, remote, old(world)))
    {
      hide Safe, Faithful, Live, Publishes, TagsOnly, Alone, Quiet, OneToOne, SelfCreated, Confirmed,
           DraftsOf, Page, Ids, Matching, Numbered, ReadyDrafts;
      Environments(remote);
      removed, top := {}, None;
      ghost var w := world;
      ReadyMeans(plan, remote, w);
      verdict, removed := ClearStale();
      NotStranded(trace);
      if verdict != None {
        return;
      }
      ghost var kept := world;
      var made := OpenDraft();
      NotStranded(trace);
      if made.Refused? {
        top := if world.releases == kept.releases then None else Some(true);
        return Some(made.error), removed, top;
      }
      if TagsOnly(remote) && Numbered(w.releases, w.nextId) {
        KeptIsNewest(plan, remote, w, kept, removed);
      }
      verdict := PublishDraft(made.value, kept.releases);
      top := if world.releases == kept.releases then None
             else Some(verdict != None && !Stranded(trace));
    }

    /**
     * One run. While others move nothing but tags, an attempt changes what is published
     * exactly when it succeeds or is stranded, and by its own verified release only.
     * Left alone, a failed attempt that is not stranded can be run again, and an
     * undisturbed run from such a state succeeds.
     */
    method Publish() returns (verdict: Option<Refusal>, ghost removed: set<nat>, ghost top: Option<bool>)
      requires Valid() && trace == []
      modifies this`clock, this`world, this`trace
      ensures Valid()
      ensures verdict == None ==> Confirmed(plan, remote, trace)
      ensures TagsOnly(remote) && Numbered(old(world).releases, old(world).nextId) ==>
        && Leaves(plan, remote, old(world), world, removed, top)
        && (Published(world.releases) != Published(old(world).releases) <==> verdict == None || Stranded(trace))
        && (verdict == None ==>
              && !Stranded(trace) && OneToOne(remote.delivered, plan.expected)
              && Lookup(old(world).releases, plan.tag) == Missing)
      ensures Alone(remote) && Recoverable(plan, remote, old(world)) && verdict != None && !Stranded(trace) ==>
        Recoverable(plan, remote, world)
      ensures Quiet(remote) && Numbered(old(world).releases, old(world).nextId) ==>
        (verdict == None <==>
          && Admissible(plan, remote, old(world)) && ReadyDrafts(plan, remote, old(world))
          && OneToOne(remote.delivered, plan.expected))
      ensures Quiet(remote) && Numbered(old(world).releases, old(world).nextId) ==>
        forall chain | TagChain(plan, remote, old(world), chain) ::
          verdict == None <==>
            && plan.trigger != OtherTrigger && |chain| <= 8 && chain[|chain| - 1] == Commit(plan.source)
            && Lookup(old(world).releases, plan.tag) == Missing && ReadyDrafts(plan, remote, old(world))
            && OneToOne(remote.delivered, plan.expected)
      ensures Quiet(remote) && Recoverable(plan, remote, old(world)) && OneToOne(remote.delivered, plan.expected) ==>
        verdict == None
    {
      hide Safe, Faithful, Publishes, TagsOnly, Alone, Quiet, OneToOne, Confirmed, Published,
           Numbered, ReadyDrafts, Recoverable, Admissible, Stale, NamesSource, Claimable, TagChain;
      Environments(remote);
      AdmissibleByChain(plan, remote, world);
      removed, top := {}, None;
      ghost var w := world;
      WithoutNothing(w.releases, {});
      if Recoverable(plan, remote, w) {
        RecoverableMeans(plan, remote, w);
        RecoverableIsReady(plan, remote, w);
      }
      verdict := EstablishTag();
      NotStranded(trace);
      if verdict == None {
        SameReleases(plan, remote, w, world);
        verdict, removed, top := PublishVerified();
      }
      if TagsOnly(remote) && Numbered(w.releases, w.nextId) {
        LeavesPublished(plan, remote, w, world, removed, top);
      }
      if Alone(remote) && Recoverable(plan, remote, w) && verdict != None && !Stranded(trace) {
        RecoverableStays(plan, remote, w, world, removed, top);
      }
    }
  }

  lemma IsNext(remote: Remote, start: World, trace: Trace, request: Request)
    ensures Next(remote, start, trace, request)
         == Happens(After(start, trace), remote.objects, remote.delivered, remote.environment(|trace|), request)
  {
  }
}
