/**
 * The evidence behind a call of tools/publish-release-pair.py, and the success of an
 * undisturbed run, said of the calls and of the remote themselves.
 */
module ReleaseEvidence {
  import opened Outcomes
  import opened Sequences
  import opened ReleaseRemote
  import opened ReleasePublication

  /** The asset as it has to be on the server. */
  function AssetFor(name: string, known: Known): Asset {
    Asset(name, "uploaded", known.size, Some("sha256:" + known.checksum))
  }

  /** The expected assets, each once and complete, in any order. */
  ghost predicate AreExpected(assets: seq<Asset>, expected: Expectation) {
    && |assets| == |expected|
    && forall name | name in expected :: AssetFor(name, expected[name]) in assets
  }

  lemma ExpectedByName(assets: seq<Asset>, expected: Expectation, name: string)
    requires AreExpected(assets, expected) && name in expected
    ensures name in SetOf(Names(assets))
  {
    var i :| 0 <= i < |assets| && assets[i] == AssetFor(name, expected[name]);
    assert Names(assets)[i] == name;
  }

  /** Every expected asset is there, and there are no more: so each asset is an expected one. */
  lemma ExpectedAreOneToOne(assets: seq<Asset>, expected: Expectation)
    requires AreExpected(assets, expected)
    ensures OneToOne(assets, expected)
  {
    var names := Names(assets);
    AsManyAsPlaces(names);
    forall name | name in expected.Keys ensures name in SetOf(names) {
      ExpectedByName(assets, expected, name);
    }
    SameSize(expected.Keys, SetOf(names));
    assert |expected| == |expected.Keys|;
    assert Distinct(names);
    forall i | 0 <= i < |assets| ensures Good(assets[i], expected) {
      assert names[i] in SetOf(names);
      var name := names[i];
      var k :| 0 <= k < |assets| && assets[k] == AssetFor(name, expected[name]);
      assert names[k] == name;
    }
    CountAndSetAreOneToOne(assets, expected);
  }

  lemma SameSize<T>(a: set<T>, b: set<T>)
    requires a <= b && |b| <= |a|
    ensures a == b
  {
    assert b == a + (b - a);
  }

  /** Assets are accepted exactly when they are the expected ones in some order. */
  lemma AcceptedExactly(assets: seq<Asset>, expected: Expectation)
    ensures OneToOne(assets, expected) <==> AreExpected(assets, expected)
  {
    if AreExpected(assets, expected) {
      ExpectedAreOneToOne(assets, expected);
    }
    if OneToOne(assets, expected) {
      CountAndSetAreOneToOne(assets, expected);
      forall name | name in expected ensures AssetFor(name, expected[name]) in assets {
        var i :| 0 <= i < |assets| && assets[i].name == name;
        assert Good(assets[i], expected);
        assert assets[i] == AssetFor(name, expected[name]);
      }
    }
  }

  // Calls as they happened.

  /** At most eight links lead from the tag to the source. */
  ghost predicate LeadsToSource(plan: Plan, remote: Remote, w: World) {
    exists chain ::
      TagChain(plan, remote, w, chain) && |chain| <= 8 && chain[|chain| - 1] == Commit(plan.source)
  }

  lemma LeadingIsNaming(plan: Plan, remote: Remote, w: World)
    ensures NamesSource(plan, remote, w) <==> LeadsToSource(plan, remote, w)
  {
    hide IsChain;
    if LeadsToSource(plan, remote, w) {
      var chain :|
        TagChain(plan, remote, w, chain) && |chain| <= 8 && chain[|chain| - 1] == Commit(plan.source);
      TagNamesSource(plan, remote, w, chain);
    }
    if NamesSource(plan, remote, w) {
      if forall chain :: !TagChain(plan, remote, w, chain) {
        TagNamesNothing(plan, remote, w);
      } else {
        var chain :| TagChain(plan, remote, w, chain);
        TagNamesSource(plan, remote, w, chain);
      }
    }
  }

  /** The reference was read, and it led to the source. */
  ghost predicate SawSource(plan: Plan, remote: Remote, e: Event) {
    e.request == GetRef(plan.tag) && e.answer.Some? && LeadsToSource(plan, remote, e.before)
  }

  lemma SawSourceExactly(plan: Plan, remote: Remote, e: Event)
    ensures ReadsSource(plan, remote, e) <==> SawSource(plan, remote, e)
  {
    LeadingIsNaming(plan, remote, e.before);
    hide NamesSource, LeadsToSource;
  }

  /** A listing of the first hundred releases, with `r` the one draft of the tag among them. */
  ghost predicate SawOnly(plan: Plan, e: Event, r: Release) {
    var page := if |e.before.releases| <= 100 then e.before.releases else e.before.releases[..100];
    && e.request == ListReleases && e.answer == Some(Listing(page))
    && exists i | 0 <= i < |page| ::
         page[i] == r && r.draft && r.tag == plan.tag
         && forall j | 0 <= j < |page| && j != i :: !page[j].draft || page[j].tag != plan.tag
  }

  lemma {:induction false} OnlyDraft(releases: seq<Release>, tag: string, r: Release) returns (i: nat)
    requires DraftsOf(releases, tag) == [r]
    ensures i < |releases| && releases[i] == r && r.draft && r.tag == tag
    ensures forall j | 0 <= j < |releases| && j != i :: !releases[j].draft || releases[j].tag != tag
    decreases |releases|
  {
    var first := releases[0];
    if first.draft && first.tag == tag {
      i := 0;
      var rest := DraftsOf(releases[1..], tag);
      assert [first] + rest == [r] && rest == [];
      forall j | 0 < j < |releases| ensures !releases[j].draft || releases[j].tag != tag {
        assert releases[j] in releases[1..];
        assert releases[j] !in rest;
      }
    } else {
      i := OnlyDraft(releases[1..], tag, r);
      forall j | 0 <= j < |releases| && j != i + 1 ensures !releases[j].draft || releases[j].tag != tag {
        if j > 0 {
          assert releases[j] == releases[1..][j - 1];
        }
      }
      i := i + 1;
    }
  }

  lemma SawOnlyOne(plan: Plan, e: Event, r: Release)
    requires Lists(plan, e, [r])
    ensures SawOnly(plan, e, r)
  {
    var i := OnlyDraft(Page(e.before.releases), plan.tag, r);
  }

  /** The run's own draft: created, and then listed as the only one of its tag. */
  ghost predicate OwnDraft(plan: Plan, trace: Trace, k: nat, id: nat)
    requires k <= |trace|
  {
    exists c, l, r | 0 <= c < l < k ::
      && trace[c].request == CreateDraft(plan.tag, plan.source, plan.title) && trace[c].answer.Some?
      && SawOnly(plan, trace[l], r) && r.id == id
  }

  lemma OwnDraftIs(plan: Plan, trace: Trace, k: nat, id: nat)
    requires k <= |trace| && SelfCreated(plan, trace[..k], id)
    ensures OwnDraft(plan, trace, k, id)
  {
    hide SawOnly;
    var t := trace[..k];
    var c, l :| 0 <= c < l < |t| && Creates(plan, t[c]) && ListsOnly(plan, t[l], id);
    var r :| Lists(plan, t[l], [r]) && r.id == id;
    SawOnlyOne(plan, t[l], r);
    assert t[c] == trace[c] && t[l] == trace[l];
  }

  /**
   * A release becomes public only by a call on the run's own draft, after a listing that
   * showed exactly the expected assets in it and a later look at the tag that found the
   * source.
   */
  lemma PublishedOnEvidence(plan: Plan, remote: Remote, trace: Trace, k: nat)
    requires Safe(plan, remote, trace) && k < |trace| && Publishes(trace[k])
    ensures OwnDraft(plan, trace, k, trace[k].request.id)
    ensures exists i, j, r | 0 <= i < j < k ::
              && SawOnly(plan, trace[i], r) && r.id == trace[k].request.id && AreExpected(r.assets, plan.expected)
              && SawSource(plan, remote, trace[j])
  {
    hide SawOnly, AreExpected, SawSource, Publishes;
    assert trace[k].request.SetDraft? && !trace[k].request.draft by { PublishingCall(trace[k]); }
    var id := trace[k].request.id;
    var t := trace[..k];
    assert Permitted(plan, remote, t, trace[k].request);
    OwnDraftIs(plan, trace, k, id);
    hide SelfCreated, ReadsSource, OneToOne;
    var i, j :| 0 <= i < j < |t| && ListsVerified(plan, t[i], id) && ReadsSource(plan, remote, t[j]);
    assert trace[i] == t[i] && trace[j] == t[j];
    SawSourceExactly(plan, remote, trace[j]);
    var r :| Lists(plan, t[i], [r]) && r.id == id && OneToOne(r.assets, plan.expected);
    SawOnlyOne(plan, trace[i], r);
    AcceptedExactly(r.assets, plan.expected);
  }

  lemma PublishingCall(e: Event)
    requires Publishes(e)
    ensures e.request.SetDraft? && !e.request.draft
  {
  }

  /** What a listing shows of a draft left by an earlier attempt at the same publication. */
  ghost predicate SawStale(plan: Plan, e: Event, id: nat) {
    && e.request == ListReleases && e.answer.Some?
    && exists i | 0 <= i < |e.before.releases| && i < 100 ::
         var r := e.before.releases[i];
         r.id == id && r.draft && r.tag == plan.tag && r.target == plan.source && r.name == plan.title
  }

  /** A deleted release is an earlier attempt's draft, as listed before, or the run's own. */
  lemma DeletedOnEvidence(plan: Plan, remote: Remote, trace: Trace, k: nat)
    requires Safe(plan, remote, trace) && k < |trace| && trace[k].request.DeleteRelease?
    ensures var id := trace[k].request.id;
            OwnDraft(plan, trace, k, id) || exists i | 0 <= i < k :: SawStale(plan, trace[i], id)
  {
    hide OwnDraft;
    var id := trace[k].request.id;
    var t := trace[..k];
    assert Permitted(plan, remote, t, trace[k].request);
    if SelfCreated(plan, t, id) {
      OwnDraftIs(plan, trace, k, id);
    } else {
      var i :| 0 <= i < |t| && ListsMatching(plan, t[i], id);
      ListedIsStale(plan, t[i], id);
      assert trace[i] == t[i];
    }
  }

  lemma ListedIsStale(plan: Plan, e: Event, id: nat)
    requires ListsMatching(plan, e, id)
    ensures SawStale(plan, e, id)
  {
    var page := Page(e.before.releases);
    var r :| r in DraftsOf(page, plan.tag) && Lists(plan, e, DraftsOf(page, plan.tag)) && r.id == id
        && Matching(plan, r);
    var i :| 0 <= i < |page| && page[i] == r;
    assert e.before.releases[i] == r;
  }

  /** A tag is created only for the source, after the remote answered that there is none. */
  lemma TaggedOnEvidence(plan: Plan, remote: Remote, trace: Trace, k: nat)
    requires Safe(plan, remote, trace) && k < |trace| && trace[k].request.CreateRef?
    ensures trace[k].request == CreateRef(plan.tag, plan.source)
    ensures exists i | 0 <= i < k :: trace[i].request == GetRef(plan.tag) && trace[i].answer == Some(Missing)
  {
    var t := trace[..k];
    assert Permitted(plan, remote, t, trace[k].request);
    var i :| 0 <= i < |t| && ReadsNoTag(plan, t[i]);
    assert trace[i] == t[i];
  }

  /** A draft is created for this publication alone, and a release is withdrawn only if this run published it. */
  lemma OwnCallsOnly(plan: Plan, remote: Remote, trace: Trace, k: nat)
    requires Safe(plan, remote, trace) && k < |trace|
    ensures trace[k].request.CreateDraft? ==> trace[k].request == CreateDraft(plan.tag, plan.source, plan.title)
    ensures trace[k].request.SetDraft? && trace[k].request.draft ==>
      exists i | 0 <= i < k :: trace[i].request == SetDraft(trace[k].request.id, false)
  {
    var t := trace[..k];
    assert Permitted(plan, remote, t, trace[k].request);
    if trace[k].request.SetDraft? && trace[k].request.draft {
      var i :| 0 <= i < |t| && t[i].request == SetDraft(trace[k].request.id, false);
      assert trace[i] == t[i];
    }
  }

  /**
   * A run that reports success published, then found the source behind the tag, and then
   * a published release of the tag with exactly the expected assets.
   */
  lemma SuccessIsConfirmed(plan: Plan, remote: Remote, trace: Trace)
    requires Confirmed(plan, remote, trace)
    ensures exists p, i, j | 0 <= p < i < j < |trace| ::
              && trace[p].request.SetDraft? && !trace[p].request.draft && trace[p].answer.Some?
              && SawSource(plan, remote, trace[i])
              && trace[j].request == GetRelease(plan.tag) && trace[j].answer.Some? && trace[j].answer.value.Found?
              && var r := trace[j].answer.value.release;
                 r in trace[j].before.releases && !r.draft && r.tag == plan.tag && AreExpected(r.assets, plan.expected)
  {
    hide SawSource, AreExpected;
    var p, i, j :| 0 <= p < i < j < |trace|
      && (trace[p].request.SetDraft? && !trace[p].request.draft && trace[p].answer.Some?)
      && ReadsSource(plan, remote, trace[i]) && FindsVerified(plan, trace[j]);
    hide OneToOne, ReadsSource;
    SawSourceExactly(plan, remote, trace[i]);
    AcceptedExactly(trace[j].answer.value.release.assets, plan.expected);
  }

  /** The state an undisturbed run publishes from, said of the remote alone. */
  ghost predicate Publishable(plan: Plan, remote: Remote, w: World) {
    && (forall r | r in w.releases :: r.tag == plan.tag ==> r.draft)
    && plan.trigger != OtherTrigger
    && (if plan.tag in w.tags then LeadsToSource(plan, remote, w) else plan.trigger == Dispatch)
    && (forall i | 0 <= i < |w.releases| && i < 100 ::
          var r := w.releases[i];
          r.draft && r.tag == plan.tag ==> r.target == plan.source && r.name == plan.title)
  }

  /** Its three conditions: the tag, the drafts, and nothing published under the tag. */
  lemma PublishableExactly(plan: Plan, remote: Remote, w: World)
    ensures Publishable(plan, remote, w)
       <==> Admissible(plan, remote, w) && forall r | r in Stale(plan, w) :: Matching(plan, r)
  {
    AdmissibleByState(plan, remote, w);
    hide LeadsToSource, Admissible, DraftsOf, Page;
    StaleByState(plan, w);
  }

  lemma StaleByState(plan: Plan, w: World)
    ensures (forall r | r in Stale(plan, w) :: Matching(plan, r)) <==>
      (forall i | 0 <= i < |w.releases| && i < 100 ::
         var r := w.releases[i];
         r.draft && r.tag == plan.tag ==> r.target == plan.source && r.name == plan.title)
  {
    forall r { DraftsAreListed(w.releases, plan.tag, r); }
    hide DraftsOf, Page;
    if forall r | r in Stale(plan, w) :: Matching(plan, r) {
      forall i | 0 <= i < |w.releases| && i < 100 && w.releases[i].draft && w.releases[i].tag == plan.tag
        ensures w.releases[i].target == plan.source && w.releases[i].name == plan.title
      {
        assert w.releases[i] in Stale(plan, w);
      }
    }
  }

  lemma AdmissibleByState(plan: Plan, remote: Remote, w: World)
    ensures Admissible(plan, remote, w)
       <==> && (forall r | r in w.releases :: r.tag == plan.tag ==> r.draft)
            && plan.trigger != OtherTrigger
            && if plan.tag in w.tags then LeadsToSource(plan, remote, w) else plan.trigger == Dispatch
  {
    LeadingIsNaming(plan, remote, w);
    assert NamesSource(plan, remote, w) ==> plan.tag in w.tags;
    hide NamesSource, LeadsToSource;
    assert Lookup(w.releases, plan.tag) == Missing <==> forall r | r in w.releases :: r.tag == plan.tag ==> r.draft;
  }

  /** Behind the removed drafts and the new one, the first hundred hold no other draft of the tag. */
  ghost predicate NoneMoves(plan: Plan, w: World) {
    var kept := Without(w.releases, Ids(Stale(plan, w)));
    forall i | 0 <= i < |kept| && i < 99 :: !kept[i].draft || kept[i].tag != plan.tag
  }

  lemma {:induction false} NoDrafts(releases: seq<Release>, tag: string)
    ensures DraftsOf(releases, tag) == []
       <==> forall i | 0 <= i < |releases| :: !releases[i].draft || releases[i].tag != tag
  {
    if DraftsOf(releases, tag) == [] {
      forall i | 0 <= i < |releases| ensures !releases[i].draft || releases[i].tag != tag {
        assert releases[i] in releases;
        assert releases[i] !in DraftsOf(releases, tag);
      }
    } else {
      var r := DraftsOf(releases, tag)[0];
      assert r in DraftsOf(releases, tag);
      var i :| 0 <= i < |releases| && releases[i] == r;
    }
  }

  lemma NewIsAlone(plan: Plan, remote: Remote, w: World, kept: seq<Release>)
    ensures |DraftsOf(Page([NewDraft(plan, remote, w)] + kept), plan.tag)| == 1
       <==> forall i | 0 <= i < |kept| && i < 99 :: !kept[i].draft || kept[i].tag != plan.tag
  {
    var made := [NewDraft(plan, remote, w)] + kept;
    var behind := Page(made)[1..];
    assert Page(made) == [made[0]] + behind;
    assert |behind| == if |kept| < 99 then |kept| else 99;
    assert forall i | 0 <= i < |behind| :: behind[i] == kept[i];
    assert DraftsOf(Page(made), plan.tag) == [made[0]] + DraftsOf(behind, plan.tag);
    NoDrafts(behind, plan.tag);
    assert DraftsOf(behind, plan.tag) == [] <==> |DraftsOf(behind, plan.tag)| == 0;
  }

  /**
   * The condition under which an undisturbed run succeeds (`Publisher.Publish`): nothing
   * published under the tag, a tag that leads to the source in at most eight links or a
   * dispatched run without one, no listed draft of the tag but earlier attempts at this
   * publication, none that the removals move into the list, and the delivered assets
   * exactly the expected ones.
   */
  lemma SucceedsExactly(plan: Plan, remote: Remote, w: World)
    ensures Admissible(plan, remote, w) && ReadyDrafts(plan, remote, w) && OneToOne(remote.delivered, plan.expected)
       <==> Publishable(plan, remote, w) && NoneMoves(plan, w) && AreExpected(remote.delivered, plan.expected)
  {
    PublishableExactly(plan, remote, w);
    AcceptedExactly(remote.delivered, plan.expected);
    NewIsAlone(plan, remote, w, Without(w.releases, Ids(Stale(plan, w))));
    hide Publishable, Admissible, AreExpected, OneToOne, DraftsOf, Page, Without, Ids, Matching, NewDraft;
  }
}
