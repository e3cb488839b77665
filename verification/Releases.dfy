/**
 Release events fan out into one job per uploaded zip asset and matching rule pair (`webhookProcessReleaseEvent`,
 server/webhook.go). Both rule maps are walked in an order Go leaves open.
 */
module Releases {
  import opened Wrappers
  import opened JobsDir
  import opened Sequences
  import Errors
  import Jobs
  import Rules

  datatype Asset = Asset(id: int, name: string, state: string, contentType: string, body: string)

  /** `wellFormed` is the verdict of `sanitiseReleaseEvent`. */
  datatype Event = Event(wellFormed: bool, action: string, repo: string, name: string, assets: seq<Asset>)

  /** Release pattern to asset pattern to destinations. */
  type ReleaseRules = map<string, map<string, seq<string>>>

  const MALFORMED: Errors.Error := Errors.Plain("invalid event")

  predicate Configured(rules: ReleaseRules, pair: (string, string)) {
    pair.0 in rules && pair.1 in rules[pair.0]
  }

  /** The job a configured pair of a release pattern and an asset pattern asks for on one asset. */
  function Wanted(
    release: string, rules: ReleaseRules, submatch: Rules.Submatch, pair: (string, string), asset: Asset)
    : Option<(Jobs.Key, Jobs.Payload)>
  {
    var releaseMatches, assetMatches := submatch(pair.0, release), submatch(pair.1, asset.name);
    if !Configured(rules, pair) || |releaseMatches| == 0 || |assetMatches| == 0 then None
    else if asset.state != "uploaded" || asset.contentType != "application/zip" then None
    else
      var version := Rules.Captured(assetMatches, Rules.Captured(releaseMatches, releaseMatches[0]));
      Some((Jobs.Release(asset.id), Jobs.Payload(asset.body, version, rules[pair.0][pair.1])))
  }

  /** What one pair asks for on the assets, in the order the event lists them. */
  function PairWrites(
    release: string, rules: ReleaseRules, submatch: Rules.Submatch, pair: (string, string), assets: seq<Asset>)
    : seq<(Jobs.Key, Jobs.Payload)>
  {
    if assets == [] then []
    else
      var w := Wanted(release, rules, submatch, pair, assets[|assets| - 1]);
      PairWrites(release, rules, submatch, pair, assets[..|assets| - 1]) + if w.Some? then [w.value] else []
  }

  /** What an event asks for when the rule pairs are visited in this order. */
  function Writes(e: Event, rules: ReleaseRules, submatch: Rules.Submatch, order: seq<(string, string)>)
    : seq<(Jobs.Key, Jobs.Payload)>
  {
    if order == [] then []
    else
      Writes(e, rules, submatch, order[..|order| - 1])
      + PairWrites(e.name, rules, submatch, order[|order| - 1], e.assets)
  }

  /** Nested loops keep the pairs of one release rule together: a rule once left is not entered again. */
  ghost predicate Grouped(order: seq<(string, string)>) {
    |order| <= 1
    || (&& Grouped(order[..|order| - 1])
        && (order[|order| - 1].0 == order[|order| - 2].0
            || forall pair :: pair in order[..|order| - 1] ==> pair.0 != order[|order| - 1].0))
  }

  /** An order in which the loops may visit the pairs over these release rules. */
  ghost predicate IsOrderOver(
    e: Event, rules: ReleaseRules, submatch: Rules.Submatch, seen: set<string>, order: seq<(string, string)>)
  {
    && NoDuplicates(order)
    && Grouped(order)
    && forall pair :: pair in order <==> pair.0 in seen && Configured(rules, pair) && submatch(pair.0, e.name) != []
  }

  ghost predicate IsOrder(e: Event, rules: ReleaseRules, submatch: Rules.Submatch, order: seq<(string, string)>) {
    IsOrderOver(e, rules, submatch, rules.Keys, order)
  }

  function Pairs(release: string, assets: seq<string>): seq<(string, string)> {
    seq(|assets|, i requires 0 <= i < |assets| => (release, assets[i]))
  }

  lemma {:induction false} WritesSplit(
    e: Event, rules: ReleaseRules, submatch: Rules.Submatch, a: seq<(string, string)>, b: seq<(string, string)>)
    ensures Writes(e, rules, submatch, a + b) == Writes(e, rules, submatch, a) + Writes(e, rules, submatch, b)
  {
    if b == [] {
      assert a + b == a;
    } else {
      assert (a + b)[..|a + b| - 1] == a + b[..|b| - 1];
      WritesSplit(e, rules, submatch, a, b[..|b| - 1]);
    }
  }

  lemma {:induction false} GroupedGrows(order: seq<(string, string)>, release: string, assets: seq<string>)
    requires Grouped(order) && forall pair :: pair in order ==> pair.0 != release
    ensures Grouped(order + Pairs(release, assets))
  {
    if assets == [] {
      assert order + Pairs(release, assets) == order;
    } else {
      var front := assets[..|assets| - 1];
      GroupedGrows(order, release, front);
      var longer := order + Pairs(release, assets);
      assert longer[..|longer| - 1] == order + Pairs(release, front);
      if front == [] {
        assert longer[..|longer| - 1] == order;
      } else {
        assert longer[|longer| - 2] == Pairs(release, front)[|front| - 1];
      }
    }
  }

  /** The next release rule's pairs go after those already visited. */
  lemma OrderGrows(
    e: Event, rules: ReleaseRules, submatch: Rules.Submatch, seen: set<string>, order: seq<(string, string)>,
    release: string, assets: seq<string>)
    requires IsOrderOver(e, rules, submatch, seen, order) && release in rules && release !in seen
    requires submatch(release, e.name) != []
    requires Visits(assets, rules[release].Keys)
    ensures IsOrderOver(e, rules, submatch, seen + {release}, order + Pairs(release, assets))
  {
    var more := Pairs(release, assets);
    var order' := order + more;
    GroupedGrows(order, release, assets);
    forall i | 0 <= i < |order| ensures order[i].0 != release {
      assert order[i] in order;
    }
    forall pair ensures pair in more <==> pair.0 == release && pair.1 in rules[release] {
      if pair.0 == release && pair.1 in rules[release] {
        var i :| 0 <= i < |assets| && assets[i] == pair.1;
        assert more[i] == pair;
      }
    }
  }

  // ---------- the handler ----------

  method SaveAssets(
    e: Event, rules: ReleaseRules, pair: (string, string), submatch: Rules.Submatch, jobs: JobsDirectory)
    returns (errs: seq<Option<Errors.Error>>, ghost made: seq<Attempt>)
    requires Configured(rules, pair) && submatch(pair.0, e.name) != []
    modifies jobs
    ensures jobs.attempts == old(jobs.attempts) + made
    ensures jobs.files == Replay(old(jobs.files), jobs.dir, made)
    ensures errs == ErrorsOf(made)
    ensures Requests(made) == PairWrites(e.name, rules, submatch, pair, e.assets)
  {
    errs, made := [], [];
    var releaseMatches := submatch(pair.0, e.name);
    var releaseVersion := releaseMatches[0];
    if |releaseMatches| > 1 {
      releaseVersion := releaseMatches[1];
    }
    for i := 0 to |e.assets|
      invariant jobs.attempts == old(jobs.attempts) + made
      invariant jobs.files == Replay(old(jobs.files), jobs.dir, made)
      invariant errs == ErrorsOf(made)
      invariant Requests(made) == PairWrites(e.name, rules, submatch, pair, e.assets[..i])
    {
      var asset := e.assets[i];
      assert e.assets[..i + 1][..i] == e.assets[..i];
      var assetMatches := submatch(pair.1, asset.name);
      if |assetMatches| == 0 {
        continue;
      }
      var version := releaseVersion;
      if |assetMatches| > 1 {
        version := assetMatches[1];
      }
      if asset.state != "uploaded" {
        continue;
      }
      if asset.contentType != "application/zip" {
        continue;
      }
      ghost var before := jobs.attempts;
      var err := jobs.SaveJob(Jobs.Release(asset.id), Jobs.Payload(asset.body, version, rules[pair.0][pair.1]));
      ghost var attempt := jobs.attempts[|before|];
      AppendAttempt(old(jobs.files), jobs.dir, made, attempt);
      Regroup(old(jobs.attempts), made, [attempt]);
      if err.Some? {
        errs := errs + [err];
      }
      made := made + [attempt];
    }
    assert e.assets[..|e.assets|] == e.assets;
  }

  method SaveRelease(
    e: Event, rules: ReleaseRules, release: string, submatch: Rules.Submatch, jobs: JobsDirectory)
    returns (errs: seq<Option<Errors.Error>>, ghost made: seq<Attempt>, ghost visited: seq<string>)
    requires release in rules && submatch(release, e.name) != []
    modifies jobs
    ensures jobs.attempts == old(jobs.attempts) + made
    ensures jobs.files == Replay(old(jobs.files), jobs.dir, made)
    ensures errs == ErrorsOf(made)
    ensures Visits(visited, rules[release].Keys)
    ensures Requests(made) == Writes(e, rules, submatch, Pairs(release, visited))
  {
    errs, made, visited := [], [], [];
    var all := rules[release].Keys;
    var left := all;
    while left != {}
      invariant left <= all
      invariant jobs.attempts == old(jobs.attempts) + made
      invariant jobs.files == Replay(old(jobs.files), jobs.dir, made)
      invariant errs == ErrorsOf(made)
      invariant Visits(visited, all - left)
      invariant Requests(made) == Writes(e, rules, submatch, Pairs(release, visited))
      decreases left
    {
      var asset :| asset in left;
      OneMorePair(e, rules, submatch, release, visited, asset);
      VisitsGrow(visited, all - left, asset);
      assert all - (left - {asset}) == (all - left) + {asset};
      left, visited := left - {asset}, visited + [asset];
      var more, attempts := SaveAssets(e, rules, (release, asset), submatch, jobs);
      AppendAttempts(old(jobs.files), jobs.dir, made, attempts);
      Regroup(old(jobs.attempts), made, attempts);
      errs, made := errs + more, made + attempts;
    }
    assert all - left == all;
  }

  lemma OneMorePair(
    e: Event, rules: ReleaseRules, submatch: Rules.Submatch, release: string, seen: seq<string>, asset: string)
    ensures Writes(e, rules, submatch, Pairs(release, seen + [asset]))
            == Writes(e, rules, submatch, Pairs(release, seen))
               + PairWrites(e.name, rules, submatch, (release, asset), e.assets)
  {
    var order, more := Pairs(release, seen), Pairs(release, seen + [asset]);
    assert more == order + [(release, asset)];
    assert more[..|more| - 1] == order;
  }

  /** One round of the outer loop. */
  lemma ReleaseSaved(
    files: Jobs.Directory, dir: string, e: Event, rules: ReleaseRules, submatch: Rules.Submatch,
    seen: set<string>, order: seq<(string, string)>, release: string, visited: seq<string>,
    made: seq<Attempt>, more: seq<Attempt>)
    requires IsOrderOver(e, rules, submatch, seen, order) && release in rules && release !in seen
    requires submatch(release, e.name) != [] && Visits(visited, rules[release].Keys)
    requires Requests(made) == Writes(e, rules, submatch, order)
    requires Requests(more) == Writes(e, rules, submatch, Pairs(release, visited))
    ensures IsOrderOver(e, rules, submatch, seen + {release}, order + Pairs(release, visited))
    ensures Requests(made + more) == Writes(e, rules, submatch, order + Pairs(release, visited))
    ensures Replay(files, dir, made + more) == Replay(Replay(files, dir, made), dir, more)
    ensures ErrorsOf(made + more) == ErrorsOf(made) + ErrorsOf(more)
  {
    OrderGrows(e, rules, submatch, seen, order, release, visited);
    WritesSplit(e, rules, submatch, order, Pairs(release, visited));
    AppendAttempts(files, dir, made, more);
  }

  lemma OrderSkips(
    e: Event, rules: ReleaseRules, submatch: Rules.Submatch, seen: set<string>, order: seq<(string, string)>,
    release: string)
    requires IsOrderOver(e, rules, submatch, seen, order) && submatch(release, e.name) == []
    ensures IsOrderOver(e, rules, submatch, seen + {release}, order)
  {}

  method SaveReleases(e: Event, rules: ReleaseRules, submatch: Rules.Submatch, jobs: JobsDirectory)
    returns (errs: seq<Option<Errors.Error>>, ghost made: seq<Attempt>, ghost order: seq<(string, string)>)
    modifies jobs
    ensures jobs.attempts == old(jobs.attempts) + made
    ensures jobs.files == Replay(old(jobs.files), jobs.dir, made)
    ensures errs == ErrorsOf(made)
    ensures IsOrder(e, rules, submatch, order)
    ensures Requests(made) == Writes(e, rules, submatch, order)
  {
    errs, made, order := [], [], [];
    var all := rules.Keys;
    var left := all;
    assert all - left == {};
    while left != {}
      invariant left <= all
      invariant jobs.attempts == old(jobs.attempts) + made
      invariant jobs.files == Replay(old(jobs.files), jobs.dir, made)
      invariant errs == ErrorsOf(made)
      invariant IsOrderOver(e, rules, submatch, all - left, order)
      invariant Requests(made) == Writes(e, rules, submatch, order)
      decreases left
    {
      var release :| release in left;
      ghost var seen := all - left;
      left := left - {release};
      assert all - left == seen + {release};
      if submatch(release, e.name) == [] {
        OrderSkips(e, rules, submatch, seen, order, release);
        continue;
      }
      var more, attempts, visited := SaveRelease(e, rules, release, submatch, jobs);
      ReleaseSaved(old(jobs.files), jobs.dir, e, rules, submatch, seen, order, release, visited, made, attempts);
      Regroup(old(jobs.attempts), made, attempts);
      errs, made, order := errs + more, made + attempts, order + Pairs(release, visited);
    }
    assert all - left == all;
  }

  /**
   `webhookProcessReleaseEvent`. An ignored event saves nothing; an accepted one asks for exactly the writes of some
   visiting order, and reports success exactly when every one of them worked. Draft and prerelease settings
   play no part.
   */
  method Process(repositories: Rules.Repositories, e: Event, submatch: Rules.Submatch, jobs: JobsDirectory)
    returns (err: Option<Errors.Error>, ghost made: seq<Attempt>, ghost order: seq<(string, string)>)
    modifies jobs
    ensures jobs.attempts == old(jobs.attempts) + made
    ensures jobs.files == Replay(old(jobs.files), jobs.dir, made)
    ensures if !e.wellFormed then err == Some(MALFORMED) && made == []
            else if e.action != "published" || e.repo !in repositories then err == None && made == []
            else
              var rules := repositories[e.repo].releases;
              && IsOrder(e, rules, submatch, order)
              && (err == None <==> AllOk(made))
              && Requests(made) == Writes(e, rules, submatch, order)
  {
    made, order := [], [];
    assert jobs.attempts == jobs.attempts + [];
    if !e.wellFormed {
      return Some(MALFORMED), [], [];
    }
    if e.action != "published" {
      return None, [], [];
    }
    if e.repo !in repositories {
      return None, [], [];
    }
    var errs;
    errs, made, order := SaveReleases(e, repositories[e.repo].releases, submatch, jobs);
    CollectedDecision(made);
    err := Errors.Flatten(errs);
  }

  // ---------- what the order can and cannot change ----------

  lemma {:induction false} PairWritesMembers(
    release: string, rules: ReleaseRules, submatch: Rules.Submatch, pair: (string, string), assets: seq<Asset>,
    x: (Jobs.Key, Jobs.Payload))
    ensures x in PairWrites(release, rules, submatch, pair, assets) <==>
              exists i :: 0 <= i < |assets| && Wanted(release, rules, submatch, pair, assets[i]) == Some(x)
  {
    if assets != [] {
      var front, last := assets[..|assets| - 1], assets[|assets| - 1];
      PairWritesMembers(release, rules, submatch, pair, front, x);
      assert assets == front + [last];
      if i :| 0 <= i < |front| && Wanted(release, rules, submatch, pair, front[i]) == Some(x) {
        assert assets[i] == front[i];
      }
      if i :| 0 <= i < |assets| && Wanted(release, rules, submatch, pair, assets[i]) == Some(x) {
        assert i == |assets| - 1 || assets[i] == front[i];
      }
    }
  }

  lemma {:induction false} WritesMembers(
    e: Event, rules: ReleaseRules, submatch: Rules.Submatch, order: seq<(string, string)>, x: (Jobs.Key, Jobs.Payload))
    ensures x in Writes(e, rules, submatch, order) <==>
              exists pair :: pair in order && x in PairWrites(e.name, rules, submatch, pair, e.assets)
  {
    if order != [] {
      var front, last := order[..|order| - 1], order[|order| - 1];
      WritesMembers(e, rules, submatch, front, x);
      var whole := Writes(e, rules, submatch, order);
      assert whole == Writes(e, rules, submatch, front) + PairWrites(e.name, rules, submatch, last, e.assets);
      assert order == front + [last];
      if pair :| pair in order && x in PairWrites(e.name, rules, submatch, pair, e.assets) {
        assert pair == last || pair in front;
      }
      if x in whole && x !in PairWrites(e.name, rules, submatch, last, e.assets) {
        var pair :| pair in front && x in PairWrites(e.name, rules, submatch, pair, e.assets);
        assert pair in order;
      }
      assert last in order;
    }
  }

  /** Some configured pair asks for this on some asset. */
  ghost predicate Wants(e: Event, rules: ReleaseRules, submatch: Rules.Submatch, x: (Jobs.Key, Jobs.Payload)) {
    exists pair, i :: 0 <= i < |e.assets| && Wanted(e.name, rules, submatch, pair, e.assets[i]) == Some(x)
  }

  /** Whatever the order, the requests are those some configured pair makes. */
  lemma WritesAreWants(
    e: Event, rules: ReleaseRules, submatch: Rules.Submatch, order: seq<(string, string)>, x: (Jobs.Key, Jobs.Payload))
    requires IsOrder(e, rules, submatch, order)
    ensures x in Writes(e, rules, submatch, order) <==> Wants(e, rules, submatch, x)
  {
    WritesMembers(e, rules, submatch, order, x);
    if pair :| pair in order && x in PairWrites(e.name, rules, submatch, pair, e.assets) {
      PairWritesMembers(e.name, rules, submatch, pair, e.assets, x);
    }
    if pair, i :| 0 <= i < |e.assets| && Wanted(e.name, rules, submatch, pair, e.assets[i]) == Some(x) {
      PairWritesMembers(e.name, rules, submatch, pair, e.assets, x);
      assert pair in order;
    }
  }

  /** An uploaded zip asset, and a configured pair of patterns that match it and its release. */
  ghost predicate Suits(e: Event, rules: ReleaseRules, submatch: Rules.Submatch, pair: (string, string), i: nat)
    requires i < |e.assets|
  {
    && pair.0 in rules && pair.1 in rules[pair.0]
    && submatch(pair.0, e.name) != [] && submatch(pair.1, e.assets[i].name) != []
    && e.assets[i].state == "uploaded" && e.assets[i].contentType == "application/zip"
  }

  /**
   The version such a pair gives the asset: what the asset pattern captures, else what the release pattern captures,
   else all the release pattern matches.
   */
  function VersionOf(asset: seq<string>, release: seq<string>): string
    requires asset != [] && release != []
  {
    if |asset| >= 2 then asset[1] else if |release| >= 2 then release[1] else release[0]
  }

  /** What a suitable pair asks for; no other asks for anything. */
  lemma WantedIffSuits(e: Event, rules: ReleaseRules, submatch: Rules.Submatch, pair: (string, string), i: nat)
    requires i < |e.assets|
    ensures Wanted(e.name, rules, submatch, pair, e.assets[i])
            == if Suits(e, rules, submatch, pair, i) then
                 var version := VersionOf(submatch(pair.1, e.assets[i].name), submatch(pair.0, e.name));
                 Some((Jobs.Release(e.assets[i].id),
                       Jobs.Payload(e.assets[i].body, version, rules[pair.0][pair.1])))
               else None
  {}

  /** The set of job files an accepted event leaves is the same for every order: one per asset some pair suits. */
  lemma FilesIgnoreOrder(
    files: Jobs.Directory, dir: string, e: Event, rules: ReleaseRules, submatch: Rules.Submatch,
    order: seq<(string, string)>, path: string)
    requires IsOrder(e, rules, submatch, order)
    ensures path in Jobs.SaveAll(files, dir, Writes(e, rules, submatch, order)) <==>
              || path in files
              || exists pair, i ::
                   && 0 <= i < |e.assets| && Suits(e, rules, submatch, pair, i)
                   && path == Jobs.FileName(dir, Jobs.Release(e.assets[i].id))
  {
    var saves := Writes(e, rules, submatch, order);
    if i :| 0 <= i < |saves| && Jobs.FileName(dir, saves[i].0) == path {
      var x := saves[i];
      assert x in saves;
      WritesAreWants(e, rules, submatch, order, x);
      var pair, k :| 0 <= k < |e.assets| && Wanted(e.name, rules, submatch, pair, e.assets[k]) == Some(x);
      WantedIffSuits(e, rules, submatch, pair, k);
      LastPayloadWasAsked(saves, x.0);
      assert (x.0, x.1) in saves;
      SaveAllAt(files, dir, saves, x.0);
    } else {
      SaveAllElsewhere(files, dir, saves, path);
      forall pair, i | 0 <= i < |e.assets| && Suits(e, rules, submatch, pair, i)
        ensures path != Jobs.FileName(dir, Jobs.Release(e.assets[i].id))
      {
        WantedIffSuits(e, rules, submatch, pair, i);
        var x := Wanted(e.name, rules, submatch, pair, e.assets[i]).value;
        WritesAreWants(e, rules, submatch, order, x);
        var k :| 0 <= k < |saves| && saves[k] == x;
      }
    }
  }

  /**
   A success is durable: each uploaded zip asset that a pair suits has its job on disk, with the body of an asset of
   that id, and the version and destinations of a pair that suits it.
   */
  lemma SuccessMeansPersisted(
    files: Jobs.Directory, dir: string, made: seq<Attempt>, e: Event, rules: ReleaseRules, submatch: Rules.Submatch,
    order: seq<(string, string)>, pair: (string, string), i: nat)
    returns (winner: (string, string), j: nat)
    requires AllOk(made) && IsOrder(e, rules, submatch, order) && Requests(made) == Writes(e, rules, submatch, order)
    requires i < |e.assets| && Suits(e, rules, submatch, pair, i)
    ensures j < |e.assets| && e.assets[j].id == e.assets[i].id && Suits(e, rules, submatch, winner, j)
    ensures var k := Jobs.Release(e.assets[i].id);
            var path, files' := Jobs.FileName(dir, k), Replay(files, dir, made);
            var version := VersionOf(submatch(winner.1, e.assets[j].name), submatch(winner.0, e.name));
            var payload := Jobs.Payload(e.assets[j].body, version, rules[winner.0][winner.1]);
            && path in files'
            && Jobs.Parse(path, files'[path]) == Ok(Jobs.Job(Jobs.ReleaseKind, Jobs.Id(k), payload, path))
  {
    var saves, k := Requests(made), Jobs.Release(e.assets[i].id);
    WantedIffSuits(e, rules, submatch, pair, i);
    WritesAreWants(e, rules, submatch, order, Wanted(e.name, rules, submatch, pair, e.assets[i]).value);
    LastPayloadWasAsked(saves, k);
    assert (k, Wanted(e.name, rules, submatch, pair, e.assets[i]).value.1) in saves;
    var p := Jobs.LastPayloads(saves)[k];
    WritesAreWants(e, rules, submatch, order, (k, p));
    winner, j :| 0 <= j < |e.assets| && Wanted(e.name, rules, submatch, winner, e.assets[j]) == Some((k, p));
    WantedIffSuits(e, rules, submatch, winner, j);
    LastPayloadLoads(files, dir, made, k);
  }

  /** For each job file a pair of rules has a say in, the payload it asks for last. */
  function Takes(e: Event, rules: ReleaseRules, submatch: Rules.Submatch, pair: (string, string))
    : map<Jobs.Key, Jobs.Payload>
  {
    Jobs.LastPayloads(PairWrites(e.name, rules, submatch, pair, e.assets))
  }

  /** Within one pair, the last asset of an id that it suits decides. */
  lemma LastAssetDecides(e: Event, rules: ReleaseRules, submatch: Rules.Submatch, pair: (string, string), i: nat)
    requires i < |e.assets| && Suits(e, rules, submatch, pair, i)
    requires forall j :: i < j < |e.assets| && e.assets[j].id == e.assets[i].id ==> !Suits(e, rules, submatch, pair, j)
    ensures var k := Jobs.Release(e.assets[i].id);
            var version := VersionOf(submatch(pair.1, e.assets[i].name), submatch(pair.0, e.name));
            && k in Takes(e, rules, submatch, pair)
            && Takes(e, rules, submatch, pair)[k]
               == Jobs.Payload(e.assets[i].body, version, rules[pair.0][pair.1])
  {
    assert e.assets[..|e.assets|] == e.assets;
    LastAssetSoFar(e, rules, submatch, pair, i, |e.assets|);
  }

  lemma OneMoreAsset(e: Event, rules: ReleaseRules, submatch: Rules.Submatch, pair: (string, string), n: nat)
    requires n < |e.assets|
    ensures var before := Jobs.LastPayloads(PairWrites(e.name, rules, submatch, pair, e.assets[..n]));
            var w := Wanted(e.name, rules, submatch, pair, e.assets[n]);
            Jobs.LastPayloads(PairWrites(e.name, rules, submatch, pair, e.assets[..n + 1]))
            == if w.Some? then before[w.value.0 := w.value.1] else before
  {
    var saves := PairWrites(e.name, rules, submatch, pair, e.assets[..n]);
    var w := Wanted(e.name, rules, submatch, pair, e.assets[n]);
    assert e.assets[..n + 1][..n] == e.assets[..n];
    var more := PairWrites(e.name, rules, submatch, pair, e.assets[..n + 1]);
    if w.Some? {
      assert more == saves + [w.value];
      assert (saves + [w.value])[..|saves|] == saves;
    } else {
      assert more == saves;
    }
  }

  lemma {:induction false} LastAssetSoFar(
    e: Event, rules: ReleaseRules, submatch: Rules.Submatch, pair: (string, string), i: nat, n: nat)
    requires i < n <= |e.assets| && Suits(e, rules, submatch, pair, i)
    requires forall j :: i < j < n && e.assets[j].id == e.assets[i].id ==> !Suits(e, rules, submatch, pair, j)
    ensures var k := Jobs.Release(e.assets[i].id);
            var last := Jobs.LastPayloads(PairWrites(e.name, rules, submatch, pair, e.assets[..n]));
            && k in last
            && last[k] == Wanted(e.name, rules, submatch, pair, e.assets[i]).value.1
    decreases n
  {
    WantedIffSuits(e, rules, submatch, pair, n - 1);
    WantedIffSuits(e, rules, submatch, pair, i);
    OneMoreAsset(e, rules, submatch, pair, n - 1);
    if i < n - 1 {
      LastAssetSoFar(e, rules, submatch, pair, i, n - 1);
    }
  }

  /** No job file is asked for in two ways: pairs matching the same asset give it the same version and destinations. */
  ghost predicate Unambiguous(e: Event, rules: ReleaseRules, submatch: Rules.Submatch) {
    forall a, b, k ::
      k in Takes(e, rules, submatch, a) && k in Takes(e, rules, submatch, b) ==>
        Takes(e, rules, submatch, a)[k] == Takes(e, rules, submatch, b)[k]
  }

  /** A pair that takes part is one the loops visit. */
  lemma TakerVisited(
    e: Event, rules: ReleaseRules, submatch: Rules.Submatch, pair: (string, string), k: Jobs.Key)
    requires k in Takes(e, rules, submatch, pair)
    ensures Configured(rules, pair) && submatch(pair.0, e.name) != []
  {
    var saves := PairWrites(e.name, rules, submatch, pair, e.assets);
    LastPayloadWasAsked(saves, k);
    PairWritesMembers(e.name, rules, submatch, pair, e.assets, (k, Jobs.LastPayloads(saves)[k]));
  }

  /** One more pair adds what it takes, over what was there. */
  lemma OneMoreTakes(
    e: Event, rules: ReleaseRules, submatch: Rules.Submatch, front: seq<(string, string)>, pair: (string, string))
    ensures Jobs.LastPayloads(Writes(e, rules, submatch, front + [pair]))
            == Jobs.LastPayloads(Writes(e, rules, submatch, front)) + Takes(e, rules, submatch, pair)
  {
    assert (front + [pair])[..|front|] == front;
    LastPayloadsSplit(Writes(e, rules, submatch, front), PairWrites(e.name, rules, submatch, pair, e.assets));
  }

  /** Some visited pair decides each job file. */
  lemma {:induction false} DecidedBySome(
    e: Event, rules: ReleaseRules, submatch: Rules.Submatch, order: seq<(string, string)>, k: Jobs.Key)
    returns (pair: (string, string))
    requires k in Jobs.LastPayloads(Writes(e, rules, submatch, order))
    ensures pair in order && k in Takes(e, rules, submatch, pair)
    ensures Takes(e, rules, submatch, pair)[k] == Jobs.LastPayloads(Writes(e, rules, submatch, order))[k]
  {
    var front, last := order[..|order| - 1], order[|order| - 1];
    assert order == front + [last];
    OneMoreTakes(e, rules, submatch, front, last);
    if k in Takes(e, rules, submatch, last) {
      pair := last;
    } else {
      pair := DecidedBySome(e, rules, submatch, front, k);
    }
  }

  lemma {:induction false} TakenIsDecided(
    e: Event, rules: ReleaseRules, submatch: Rules.Submatch, order: seq<(string, string)>, pair: (string, string),
    k: Jobs.Key)
    requires pair in order && k in Takes(e, rules, submatch, pair)
    ensures k in Jobs.LastPayloads(Writes(e, rules, submatch, order))
  {
    var front, last := order[..|order| - 1], order[|order| - 1];
    assert order == front + [last];
    OneMoreTakes(e, rules, submatch, front, last);
    if pair != last {
      TakenIsDecided(e, rules, submatch, front, pair, k);
    }
  }

  lemma {:induction false} OrderExistsOver(
    e: Event, rules: ReleaseRules, submatch: Rules.Submatch, seen: set<string>)
    returns (order: seq<(string, string)>)
    requires seen <= rules.Keys
    ensures IsOrderOver(e, rules, submatch, seen, order)
    decreases seen
  {
    if seen == {} {
      order := [];
    } else {
      var r :| r in seen;
      order := OrderExistsOver(e, rules, submatch, seen - {r});
      assert seen == (seen - {r}) + {r};
      if submatch(r, e.name) != [] {
        var assets := SetAsSeq(rules[r].Keys);
        OrderGrows(e, rules, submatch, seen - {r}, order, r, assets);
        order := order + Pairs(r, assets);
      }
    }
  }

  /** Any matching pair can come last. */
  lemma OrderEndingIn(e: Event, rules: ReleaseRules, submatch: Rules.Submatch, pair: (string, string))
    returns (order: seq<(string, string)>)
    requires Configured(rules, pair) && submatch(pair.0, e.name) != []
    ensures IsOrder(e, rules, submatch, order)
    ensures order != [] && order[|order| - 1] == pair
  {
    var others := rules.Keys - {pair.0};
    order := OrderExistsOver(e, rules, submatch, others);
    var front := VisitsEndingIn(rules[pair.0].Keys, pair.1);
    OrderGrows(e, rules, submatch, others, order, pair.0, front + [pair.1]);
    order := order + Pairs(pair.0, front + [pair.1]);
    assert others + {pair.0} == rules.Keys;
  }

  /** The last pair has its way. */
  lemma LastPairDecides(
    e: Event, rules: ReleaseRules, submatch: Rules.Submatch, order: seq<(string, string)>, k: Jobs.Key)
    requires order != [] && k in Takes(e, rules, submatch, order[|order| - 1])
    ensures var last := Jobs.LastPayloads(Writes(e, rules, submatch, order));
            k in last && last[k] == Takes(e, rules, submatch, order[|order| - 1])[k]
  {
    var front, pair := order[..|order| - 1], order[|order| - 1];
    assert order == front + [pair];
    OneMoreTakes(e, rules, submatch, front, pair);
  }

  lemma SameDecisions(
    e: Event, rules: ReleaseRules, submatch: Rules.Submatch, a: seq<(string, string)>, b: seq<(string, string)>,
    k: Jobs.Key)
    requires Unambiguous(e, rules, submatch) && IsOrder(e, rules, submatch, a) && IsOrder(e, rules, submatch, b)
    requires k in Jobs.LastPayloads(Writes(e, rules, submatch, a))
    ensures k in Jobs.LastPayloads(Writes(e, rules, submatch, b))
    ensures Jobs.LastPayloads(Writes(e, rules, submatch, a))[k] == Jobs.LastPayloads(Writes(e, rules, submatch, b))[k]
  {
    var p := DecidedBySome(e, rules, submatch, a, k);
    assert p in b;
    TakenIsDecided(e, rules, submatch, b, p, k);
    var q := DecidedBySome(e, rules, submatch, b, k);
  }

  /**
   What ends up on disk is independent of Go's map order exactly when no job file is asked for in two ways: else only
   the last pair's version and destinations survive, because all pairs of an asset share one job file.
   */
  lemma PayloadsIgnoreOrderIff(
    files: Jobs.Directory, dir: string, e: Event, rules: ReleaseRules, submatch: Rules.Submatch)
    ensures Unambiguous(e, rules, submatch) <==>
              forall a, b :: IsOrder(e, rules, submatch, a) && IsOrder(e, rules, submatch, b) ==>
                Jobs.SaveAll(files, dir, Writes(e, rules, submatch, a))
                == Jobs.SaveAll(files, dir, Writes(e, rules, submatch, b))
  {
    if Unambiguous(e, rules, submatch) {
      forall a, b | IsOrder(e, rules, submatch, a) && IsOrder(e, rules, submatch, b)
        ensures Jobs.SaveAll(files, dir, Writes(e, rules, submatch, a))
                == Jobs.SaveAll(files, dir, Writes(e, rules, submatch, b))
      {
        SameResult(files, dir, e, rules, submatch, a, b);
      }
    } else {
      var a, b, k :|
        && k in Takes(e, rules, submatch, a) && k in Takes(e, rules, submatch, b)
        && Takes(e, rules, submatch, a)[k] != Takes(e, rules, submatch, b)[k];
      var first, second := OrdersThatDiffer(files, dir, e, rules, submatch, a, b, k);
    }
  }

  lemma SameResult(
    files: Jobs.Directory, dir: string, e: Event, rules: ReleaseRules, submatch: Rules.Submatch,
    a: seq<(string, string)>, b: seq<(string, string)>)
    requires Unambiguous(e, rules, submatch) && IsOrder(e, rules, submatch, a) && IsOrder(e, rules, submatch, b)
    ensures Jobs.SaveAll(files, dir, Writes(e, rules, submatch, a))
            == Jobs.SaveAll(files, dir, Writes(e, rules, submatch, b))
  {
    var la := Jobs.LastPayloads(Writes(e, rules, submatch, a));
    var lb := Jobs.LastPayloads(Writes(e, rules, submatch, b));
    forall k | k in la ensures k in lb && la[k] == lb[k] {
      SameDecisions(e, rules, submatch, a, b, k);
    }
    forall k | k in lb ensures k in la {
      SameDecisions(e, rules, submatch, b, a, k);
    }
    assert la == lb;
    SaveAllByLast(files, dir, Writes(e, rules, submatch, a), Writes(e, rules, submatch, b));
  }

  lemma OrdersThatDiffer(
    files: Jobs.Directory, dir: string, e: Event, rules: ReleaseRules, submatch: Rules.Submatch,
    a: (string, string), b: (string, string), k: Jobs.Key)
    returns (first: seq<(string, string)>, second: seq<(string, string)>)
    requires k in Takes(e, rules, submatch, a) && k in Takes(e, rules, submatch, b)
    requires Takes(e, rules, submatch, a)[k] != Takes(e, rules, submatch, b)[k]
    ensures IsOrder(e, rules, submatch, first) && IsOrder(e, rules, submatch, second)
    ensures Jobs.SaveAll(files, dir, Writes(e, rules, submatch, first))
            != Jobs.SaveAll(files, dir, Writes(e, rules, submatch, second))
  {
    TakerVisited(e, rules, submatch, a, k);
    TakerVisited(e, rules, submatch, b, k);
    first := OrderEndingIn(e, rules, submatch, a);
    second := OrderEndingIn(e, rules, submatch, b);
    LastPairDecides(e, rules, submatch, first, k);
    LastPairDecides(e, rules, submatch, second, k);
    DifferentLastShows(files, dir, Writes(e, rules, submatch, first), Writes(e, rules, submatch, second), k);
  }
}
