/**
 * The remote that tools/publish-release-pair.py talks to: tags, the annotated tag
 * objects behind them, and the release list. One call either answers or raises; a
 * raised call may or may not have reached the server, and others act between calls.
 */
module ReleaseRemote {
  import opened Outcomes
  import opened Sequences

  datatype Target = Commit(sha: string) | Annotated(sha: string) | Elsewhere(sha: string)

  datatype Asset = Asset(name: string, state: string, size: nat, digest: Option<string>)

  datatype Release =
    Release(id: nat, tag: string, target: string, name: string, draft: bool, assets: seq<Asset>)

  /** `releases` is newest first, as the release list reports it. */
  datatype World = World(tags: map<string, Target>, releases: seq<Release>, nextId: nat)

  datatype Foreign =
    | SetTag(tag: string, target: Target)
    | DropTag(tag: string)
    | PutRelease(release: Release)
    | DropRelease(id: nat)

  /** What others do before a call arrives, and what becomes of the call. */
  datatype Turn = Turn(foreign: seq<Foreign>, fate: Fate)

  datatype Request =
    | GetRef(tag: string)
    | GetTagObject(sha: string)
    | CreateRef(tag: string, sha: string)
    | ListReleases
    | GetRelease(tag: string)
    | DeleteRelease(id: nat)
    | CreateDraft(tag: string, target: string, name: string)
    | SetDraft(id: nat, draft: bool)

  datatype Answer = Missing | Refers(target: Target) | Listing(releases: seq<Release>) | Found(release: Release) | Done

  /** One call as it happened: `before` is the remote when it arrived, None a raised call. */
  datatype Event = Event(request: Request, before: World, answer: Option<Answer>, after: World)

  const PAGE: nat := 100

  function Page(releases: seq<Release>): seq<Release> {
    if |releases| <= PAGE then releases else releases[..PAGE]
  }

  function DraftsOf(releases: seq<Release>, tag: string): (drafts: seq<Release>)
    ensures forall r | r in drafts :: r in releases && r.draft && r.tag == tag
    ensures forall r | r in releases && r.draft && r.tag == tag :: r in drafts
    decreases |releases|
  {
    if releases == [] then []
    else if releases[0].draft && releases[0].tag == tag then [releases[0]] + DraftsOf(releases[1..], tag)
    else DraftsOf(releases[1..], tag)
  }

  function Published(releases: seq<Release>): seq<Release>
    decreases |releases|
  {
    if releases == [] then []
    else if releases[0].draft then Published(releases[1..])
    else [releases[0]] + Published(releases[1..])
  }

  function Without(releases: seq<Release>, ids: set<nat>): seq<Release>
    decreases |releases|
  {
    if releases == [] then []
    else if releases[0].id in ids then Without(releases[1..], ids)
    else [releases[0]] + Without(releases[1..], ids)
  }

  lemma {:induction false} WithoutKeeps(releases: seq<Release>, ids: set<nat>)
    ensures forall r :: r in Without(releases, ids) <==> r in releases && r.id !in ids
    decreases |releases|
  {
    if releases != [] {
      WithoutKeeps(releases[1..], ids);
      assert releases == [releases[0]] + releases[1..];
    }
  }

  function Drafted(releases: seq<Release>, id: nat, draft: bool): seq<Release>
    decreases |releases|
  {
    if releases == [] then []
    else
      var first := if releases[0].id == id then releases[0].(draft := draft) else releases[0];
      [first] + Drafted(releases[1..], id, draft)
  }

  predicate Holds(releases: seq<Release>, id: nat) { exists i | 0 <= i < |releases| :: releases[i].id == id }

  /** The published release of a tag; drafts are not reported by tag. */
  function Lookup(releases: seq<Release>, tag: string): (answer: Answer)
    ensures answer == Missing <==> forall r | r in releases :: r.draft || r.tag != tag
    ensures answer != Missing ==>
      answer.Found? && answer.release in releases && !answer.release.draft && answer.release.tag == tag
    decreases |releases|
  {
    if releases == [] then Missing
    else if !releases[0].draft && releases[0].tag == tag then Found(releases[0])
    else Lookup(releases[1..], tag)
  }

  function Move(w: World, move: Foreign): World {
    match move
    case SetTag(tag, target) => w.(tags := w.tags[tag := target])
    case DropTag(tag) => w.(tags := w.tags - {tag})
    case PutRelease(r) => w.(releases := [r] + Without(w.releases, {r.id}))
    case DropRelease(id) => w.(releases := Without(w.releases, {id}))
  }

  function Moved(w: World, moves: seq<Foreign>): World
    decreases |moves|
  {
    if moves == [] then w else Moved(Move(w, moves[0]), moves[1..])
  }

  /**
   * What the server does. A reference is only ever created, never replaced, and a
   * draft needs its tag (`--verify-tag`). `delivered` is what the upload left there.
   */
  function Serve(
      w: World, objects: map<string, Target>, delivered: seq<Asset>, request: Request): (World, Option<Answer>) {
    match request
    case GetRef(tag) => (w, Some(if tag in w.tags then Refers(w.tags[tag]) else Missing))
    case GetTagObject(sha) => (w, Some(if sha in objects then Refers(objects[sha]) else Missing))
    case CreateRef(tag, sha) =>
      if tag in w.tags then (w, None) else (w.(tags := w.tags[tag := Commit(sha)]), Some(Done))
    case ListReleases => (w, Some(Listing(Page(w.releases))))
    case GetRelease(tag) => (w, Some(Lookup(w.releases, tag)))
    case DeleteRelease(id) =>
      if Holds(w.releases, id) then (w.(releases := Without(w.releases, {id})), Some(Done)) else (w, None)
    case CreateDraft(tag, target, name) =>
      if tag in w.tags
      then
        var made := Release(w.nextId, tag, target, name, true, delivered);
        (w.(releases := [made] + w.releases, nextId := w.nextId + 1), Some(Done))
      else (w, None)
    case SetDraft(id, draft) =>
      if Holds(w.releases, id) then (w.(releases := Drafted(w.releases, id, draft)), Some(Done)) else (w, None)
  }

  function Happens(w: World, objects: map<string, Target>, delivered: seq<Asset>, turn: Turn, request: Request): Event {
    var before := Moved(w, turn.foreign);
    var (served, answer) := Serve(before, objects, delivered, request);
    match turn.fate
    case Works => Event(request, before, answer, served)
    case FailsBefore => Event(request, before, None, before)
    case FailsAfter => Event(request, before, None, served)
  }

  /** A reference is followed through at most seven annotated tag objects. */
  function Resolve(objects: map<string, Target>, target: Target, looks: nat): Option<string>
    decreases looks
  {
    if looks == 0 then None
    else match target
      case Commit(sha) => Some(sha)
      case Elsewhere(_) => None
      case Annotated(sha) => if sha in objects then Resolve(objects, objects[sha], looks - 1) else None
  }

  /** The chain a reference starts: every link but the last is an annotated tag naming the next. */
  predicate IsChain(objects: map<string, Target>, chain: seq<Target>)
    decreases |chain|
  {
    |chain| > 1 ==>
      && chain[0].Annotated? && chain[0].sha in objects && objects[chain[0].sha] == chain[1]
      && IsChain(objects, chain[1..])
  }

  lemma {:induction false} ChainIsResolved(objects: map<string, Target>, chain: seq<Target>, looks: nat)
    requires chain != [] && IsChain(objects, chain) && chain[|chain| - 1].Commit?
    ensures Resolve(objects, chain[0], looks)
         == if |chain| <= looks then Some(chain[|chain| - 1].sha) else None
    decreases |chain|
  {
    if |chain| > 1 && looks > 0 {
      ChainIsResolved(objects, chain[1..], looks - 1);
    }
  }

  lemma {:induction false} ResolvedHasAChain(objects: map<string, Target>, target: Target, looks: nat)
    returns (chain: seq<Target>)
    requires Resolve(objects, target, looks).Some?
    ensures 0 < |chain| <= looks && chain[0] == target && IsChain(objects, chain)
    ensures chain[|chain| - 1] == Commit(Resolve(objects, target, looks).value)
    decreases looks
  {
    chain := [target];
    if target.Annotated? {
      var rest := ResolvedHasAChain(objects, objects[target.sha], looks - 1);
      chain := [target] + rest;
      assert chain[1..] == rest;
    }
  }

  datatype Known = Known(size: nat, checksum: string)

  type Expectation = map<string, Known>

  predicate Good(a: Asset, expected: Expectation) {
    && a.name in expected
    && a.state == "uploaded" && a.size == expected[a.name].size
    && a.digest == Some("sha256:" + expected[a.name].checksum)
  }

  /** One asset per expected name, no other asset, every one complete and unaltered. */
  ghost predicate OneToOne(assets: seq<Asset>, expected: Expectation) {
    && (forall i | 0 <= i < |assets| :: Good(assets[i], expected))
    && (forall i, j | 0 <= i < j < |assets| :: assets[i].name != assets[j].name)
    && (forall name | name in expected :: exists i | 0 <= i < |assets| :: assets[i].name == name)
  }

  ghost predicate AllGood(assets: seq<Asset>, expected: Expectation) {
    forall i | 0 <= i < |assets| :: Good(assets[i], expected)
  }

  function Names(assets: seq<Asset>): (names: seq<string>)
    ensures |names| == |assets|
    ensures forall i | 0 <= i < |assets| :: names[i] == assets[i].name
  {
    seq(|assets|, i requires 0 <= i < |assets| => assets[i].name)
  }

  /** What the program compares: the number of assets, and the set of their names. */
  predicate SameNames(assets: seq<Asset>, expected: Expectation)
    ensures SameNames(assets, expected) ==> forall i | 0 <= i < |assets| :: assets[i].name in expected
  {
    assert forall i | 0 <= i < |assets| :: Names(assets)[i] in SetOf(Names(assets));
    |assets| == |expected| && SetOf(Names(assets)) == expected.Keys
  }

  lemma CountAndSetAreOneToOne(assets: seq<Asset>, expected: Expectation)
    ensures OneToOne(assets, expected)
       <==> SameNames(assets, expected) && AllGood(assets, expected)
  {
    if OneToOne(assets, expected) {
      MatchHasTheNames(assets, expected);
    }
    if SameNames(assets, expected) && AllGood(assets, expected) {
      NamesMatch(assets, expected);
    }
  }

  lemma MatchHasTheNames(assets: seq<Asset>, expected: Expectation)
    requires OneToOne(assets, expected)
    ensures SameNames(assets, expected) && AllGood(assets, expected)
  {
    var names := Names(assets);
    AsManyAsPlaces(names);
    assert |expected| == |expected.Keys|;
    assert forall name | name in expected :: name in names;
    assert SetOf(names) == expected.Keys;
    assert Distinct(names);
  }

  lemma NamesMatch(assets: seq<Asset>, expected: Expectation)
    requires SameNames(assets, expected) && AllGood(assets, expected)
    ensures OneToOne(assets, expected)
  {
    var names := Names(assets);
    AsManyAsPlaces(names);
    assert |expected| == |expected.Keys|;
    assert Distinct(names);
    forall name | name in expected ensures exists i | 0 <= i < |assets| :: assets[i].name == name {
      assert name in SetOf(names);
      var i :| 0 <= i < |names| && names[i] == name;
    }
  }

  datatype Refusal =
    | CallFailed | NoRelease | AssetSet | AssetIncomplete | AssetDigest
    | NotACommit | TooDeep | ReleaseExists | TagTaken | WrongEvent | TagDiffers
    | OtherDraft | DraftCount

  method VerifyAsset(asset: Asset, expected: Expectation) returns (verdict: Option<Refusal>)
    requires asset.name in expected
    ensures verdict == None <==> Good(asset, expected)
    ensures verdict != Some(NoRelease)
  {
    var known := expected[asset.name];
    if asset.state != "uploaded" || asset.size != known.size {
      return Some(AssetIncomplete);
    }
    if asset.digest != Some("sha256:" + known.checksum) {
      return Some(AssetDigest);
    }
    return None;
  }

  method VerifyEach(assets: seq<Asset>, expected: Expectation) returns (verdict: Option<Refusal>)
    requires forall i | 0 <= i < |assets| :: assets[i].name in expected
    ensures verdict == None <==> AllGood(assets, expected)
    ensures verdict != Some(NoRelease)
  {
    hide Good;
    for k := 0 to |assets|
      invariant forall i | 0 <= i < k :: Good(assets[i], expected)
    {
      verdict := VerifyAsset(assets[k], expected);
      if verdict != None {
        return;
      }
    }
    return None;
  }

  method VerifyAssets(release: Answer, expected: Expectation, draft: bool) returns (verdict: Option<Refusal>)
    ensures verdict == None
       <==> release.Found? && release.release.draft == draft && OneToOne(release.release.assets, expected)
    ensures verdict == Some(NoRelease) <==> !release.Found? || release.release.draft != draft
  {
    hide OneToOne, SameNames, AllGood;
    if !release.Found? || release.release.draft != draft {
      return Some(NoRelease);
    }
    CountAndSetAreOneToOne(release.release.assets, expected);
    if !SameNames(release.release.assets, expected) {
      return Some(AssetSet);
    }
    verdict := VerifyEach(release.release.assets, expected);
  }

  /** Release IDs are distinct, and the server numbers the next one higher. */
  predicate Numbered(releases: seq<Release>, nextId: nat)
    decreases |releases|
  {
    releases != [] ==>
      && releases[0].id < nextId
      && (forall r | r in releases[1..] :: r.id != releases[0].id)
      && Numbered(releases[1..], nextId)
  }

  lemma {:induction false} NumbersBelow(releases: seq<Release>, nextId: nat)
    requires Numbered(releases, nextId)
    ensures forall r | r in releases :: r.id < nextId
    ensures forall r, q | r in releases && q in releases && r.id == q.id :: r == q
    decreases |releases|
  {
    if releases != [] {
      NumbersBelow(releases[1..], nextId);
      assert forall r | r in releases :: r == releases[0] || r in releases[1..];
    }
  }

  predicate TagMoves(turn: Turn) { forall m | m in turn.foreign :: m.SetTag? || m.DropTag? }

  lemma {:induction false} TagMovesKeepReleases(w: World, moves: seq<Foreign>)
    requires forall m | m in moves :: m.SetTag? || m.DropTag?
    ensures Moved(w, moves).releases == w.releases && Moved(w, moves).nextId == w.nextId
    decreases |moves|
  {
    if moves != [] {
      assert moves[0] in moves;
      TagMovesKeepReleases(Move(w, moves[0]), moves[1..]);
    }
  }

  lemma {:induction false} WithoutTwice(releases: seq<Release>, ids: set<nat>, more: set<nat>)
    ensures Without(Without(releases, ids), more) == Without(releases, ids + more)
    decreases |releases|
  {
    if releases != [] {
      WithoutTwice(releases[1..], ids, more);
      var rest := Without(releases[1..], ids);
      if releases[0].id !in ids {
        assert ([releases[0]] + rest)[1..] == rest;
      }
    }
  }

  lemma {:induction false} WithoutNothing(releases: seq<Release>, ids: set<nat>)
    requires forall r | r in releases :: r.id !in ids
    ensures Without(releases, ids) == releases
    decreases |releases|
  {
    if releases != [] {
      assert forall r | r in releases[1..] :: r in releases;
      WithoutNothing(releases[1..], ids);
    }
  }

  lemma {:induction false} DraftsAreUnpublished(releases: seq<Release>, ids: set<nat>)
    requires forall r | r in releases && r.id in ids :: r.draft
    ensures Published(Without(releases, ids)) == Published(releases)
    decreases |releases|
  {
    if releases != [] {
      assert forall r | r in releases[1..] :: r in releases;
      DraftsAreUnpublished(releases[1..], ids);
      if releases[0].id !in ids {
        assert ([releases[0]] + Without(releases[1..], ids))[1..] == Without(releases[1..], ids);
      }
    }
  }

  lemma {:induction false} DraftedElsewhere(releases: seq<Release>, id: nat, draft: bool)
    requires forall r | r in releases :: r.id != id
    ensures Drafted(releases, id, draft) == releases
    decreases |releases|
  {
    if releases != [] {
      assert forall r | r in releases[1..] :: r in releases;
      DraftedElsewhere(releases[1..], id, draft);
    }
  }

  /** What the calls on the newest release do to the list. */
  lemma NewestRelease(r: Release, rest: seq<Release>, draft: bool)
    requires forall x | x in rest :: x.id != r.id
    ensures Holds([r] + rest, r.id)
    ensures Without([r] + rest, {r.id}) == rest
    ensures Drafted([r] + rest, r.id, draft) == [r.(draft := draft)] + rest
    ensures Published([r] + rest) == (if r.draft then [] else [r]) + Published(rest)
  {
    assert ([r] + rest)[0] == r && ([r] + rest)[1..] == rest;
    WithoutNothing(rest, {r.id});
    DraftedElsewhere(rest, r.id, draft);
  }

  lemma {:induction false} WithoutKeepsNumbers(releases: seq<Release>, nextId: nat, ids: set<nat>)
    requires Numbered(releases, nextId)
    ensures Numbered(Without(releases, ids), nextId)
    decreases |releases|
  {
    if releases != [] {
      WithoutKeepsNumbers(releases[1..], nextId, ids);
      WithoutKeeps(releases[1..], ids);
      if releases[0].id !in ids {
        assert ([releases[0]] + Without(releases[1..], ids))[1..] == Without(releases[1..], ids);
      }
    }
  }

  lemma {:induction false} DraftsKeepNumbers(releases: seq<Release>, nextId: nat, tag: string)
    requires Numbered(releases, nextId)
    ensures Numbered(DraftsOf(releases, tag), nextId)
    decreases |releases|
  {
    if releases != [] {
      DraftsKeepNumbers(releases[1..], nextId, tag);
      var rest := DraftsOf(releases[1..], tag);
      assert ([releases[0]] + rest)[1..] == rest;
    }
  }

  lemma {:induction false} PrefixKeepsNumbers(releases: seq<Release>, nextId: nat, n: nat)
    requires Numbered(releases, nextId) && n <= |releases|
    ensures Numbered(releases[..n], nextId)
    decreases n
  {
    if n > 0 {
      PrefixKeepsNumbers(releases[1..], nextId, n - 1);
      assert releases[..n][1..] == releases[1..][..n - 1];
    }
  }

  lemma {:induction false} NumbersAreDistinct(releases: seq<Release>, nextId: nat, i: nat, j: nat)
    requires Numbered(releases, nextId) && i < j < |releases|
    ensures releases[i].id != releases[j].id
    decreases i
  {
    if i == 0 {
      assert releases[j] == releases[1..][j - 1];
    } else {
      NumbersAreDistinct(releases[1..], nextId, i - 1, j - 1);
    }
  }

  /** The drafts a listing reports are numbered apart. */
  lemma ListedDraftsAreDistinct(releases: seq<Release>, nextId: nat, tag: string, drafts: seq<Release>)
    requires Numbered(releases, nextId) && drafts == DraftsOf(Page(releases), tag)
    ensures forall i, j | 0 <= i < j < |drafts| :: drafts[i].id != drafts[j].id
  {
    if |releases| > PAGE {
      PrefixKeepsNumbers(releases, nextId, PAGE);
    }
    DraftsKeepNumbers(Page(releases), nextId, tag);
    forall i, j | 0 <= i < j < |drafts| ensures drafts[i].id != drafts[j].id {
      NumbersAreDistinct(drafts, nextId, i, j);
    }
  }

  function Ids(releases: seq<Release>): set<nat> { set r | r in releases :: r.id }

  lemma IdsOfOneMore(releases: seq<Release>, i: nat)
    requires i < |releases|
    ensures Ids(releases[..i + 1]) == Ids(releases[..i]) + {releases[i].id}
  {
    assert releases[..i + 1] == releases[..i] + [releases[i]];
    assert releases[i] in releases[..i + 1];
    assert forall r | r in releases[..i] :: r in releases[..i + 1];
  }

  lemma {:induction false} PublishedConcat(top: seq<Release>, rest: seq<Release>)
    ensures Published(top + rest) == Published(top) + Published(rest)
    decreases |top|
  {
    if top == [] {
      assert top + rest == rest;
    } else {
      assert (top + rest)[1..] == top[1..] + rest;
      PublishedConcat(top[1..], rest);
    }
  }

  function WithoutOne(first: Release, kept: seq<Release>, ids: set<nat>): seq<Release> {
    if first.id in ids then kept else [first] + kept
  }

  lemma {:induction false} WithoutConcat(front: seq<Release>, back: seq<Release>, ids: set<nat>)
    ensures Without(front + back, ids) == Without(front, ids) + Without(back, ids)
    ensures |Without(front, ids)| <= |front|
    decreases |front|
  {
    if front == [] {
      assert front + back == back;
    } else {
      WithoutConcat(front[1..], back, ids);
      assert Without(front + back, ids) == WithoutOne(front[0], Without(front[1..] + back, ids), ids) by {
        assert (front + back)[0] == front[0] && (front + back)[1..] == front[1..] + back;
      }
      assert Without(front, ids) == WithoutOne(front[0], Without(front[1..], ids), ids);
      hide Without;
    }
  }

  /** What is on the first page stays on the first page when releases go. */
  lemma PageOfFewer(releases: seq<Release>, ids: set<nat>, r: Release)
    requires r in Page(releases) && r.id !in ids
    ensures r in Page(Without(releases, ids))
  {
    var front := Page(releases);
    var back := releases[|front|..];
    assert releases == front + back;
    WithoutConcat(front, back, ids);
    var kept := Without(releases, ids);
    WithoutKeeps(front, ids);
    assert r in Without(front, ids);
    if |kept| > PAGE {
      assert kept[..PAGE] == Without(front, ids) + Without(back, ids)[..PAGE - |Without(front, ids)|];
    }
  }
}
