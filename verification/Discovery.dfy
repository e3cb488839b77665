/**
 The discovery handler: read every page, then save one sync job per artifact and matching rule
 (server/handle_discover_artifacts.go).
 */
module Discovery {
  import opened Wrappers
  import opened JobsDir
  import opened Sequences
  import Errors
  import Jobs
  import Paths
  import Rules

  /** An artifact as listed; `wellFormed` is the verdict of `sanitiseArtifact`, `body` the rest of its JSON. */
  datatype GhArtifact = GhArtifact(
    wellFormed: bool, expired: bool, name: string, run: int, id: int, headSha: string, body: string)

  /** One response of the listing call. */
  datatype Page = Failed(error: Errors.Error) | Page(artifacts: seq<GhArtifact>, nextPage: int)

  /** Pages from `page` on, each naming the one after it as the next, up to one that names none. */
  ghost predicate IsPageChain(fetch: int -> Page, page: int, pages: seq<int>) {
    && pages != [] && pages[0] == page
    && forall i :: 0 <= i < |pages| ==> Follows(fetch, pages, i)
  }

  ghost predicate Follows(fetch: int -> Page, pages: seq<int>, i: nat)
    requires i < |pages|
  {
    && fetch(pages[i]).Page?
    && (if i == |pages| - 1 then fetch(pages[i]).nextPage == 0
        else fetch(pages[i]).nextPage == pages[i + 1] != 0)
  }

  /**
   What `calls` listing calls from `page` on come to: all artifacts, the first failure, or nothing yet when they end
   before the last page.
   */
  function Collect(fetch: int -> Page, page: int, calls: nat): Option<Result<seq<GhArtifact>, Errors.Error>>
    decreases calls
  {
    if calls == 0 then None
    else
      match fetch(page)
      case Failed(e) => Some(Err(e))
      case Page(artifacts, next) =>
        if next == 0 then Some(Ok(artifacts)) else Prepend(artifacts, Collect(fetch, next, calls - 1))
  }

  function Prepend(a: seq<GhArtifact>, r: Option<Result<seq<GhArtifact>, Errors.Error>>)
    : Option<Result<seq<GhArtifact>, Errors.Error>>
  {
    if r.Some? && r.value.Ok? then Some(Ok(a + r.value.value)) else r
  }

  predicate Live(a: GhArtifact) {
    a.wellFormed && !a.expired
  }

  type Patterns = map<string, seq<string>>

  /** The job a configured pattern asks for on an artifact, if it matches the artifact's name. */
  function Wanted(a: GhArtifact, pattern: string, rules: Patterns, run: string, submatch: Rules.Submatch)
    : Option<(Jobs.Key, Jobs.Payload)>
  {
    var matches := submatch(pattern, Paths.Base(a.name));
    if !Live(a) || pattern !in rules || |matches| == 0 then None
    else
      var version := Rules.Captured(matches, a.headSha);
      Some((Jobs.Artifact(a.run, a.id), Jobs.Payload(a.body + run, version, rules[pattern])))
  }

  /** A valid, unexpired artifact, and a configured pattern that matches the last element of its name. */
  ghost predicate Suits(a: GhArtifact, pattern: string, rules: Patterns, submatch: Rules.Submatch) {
    a.wellFormed && !a.expired && pattern in rules && submatch(pattern, Paths.Base(a.name)) != []
  }

  /** What the pattern captures, or else the commit the run was for. */
  function VersionOf(matches: seq<string>, headSha: string): string {
    if |matches| >= 2 then matches[1] else headSha
  }

  /** What a suitable pattern asks for; no other asks for anything. */
  lemma WantedIffSuits(a: GhArtifact, pattern: string, rules: Patterns, run: string, submatch: Rules.Submatch)
    ensures Wanted(a, pattern, rules, run, submatch)
            == if Suits(a, pattern, rules, submatch) then
                 var version := VersionOf(submatch(pattern, Paths.Base(a.name)), a.headSha);
                 Some((Jobs.Artifact(a.run, a.id), Jobs.Payload(a.body + run, version, rules[pattern])))
               else None
  {}

  /** Some artifact and some configured rule ask for this job. */
  ghost predicate Wants(
    artifacts: seq<GhArtifact>, rules: Patterns, run: string, submatch: Rules.Submatch,
    request: (Jobs.Key, Jobs.Payload))
  {
    exists i, pattern :: 0 <= i < |artifacts| && Wanted(artifacts[i], pattern, rules, run, submatch) == Some(request)
  }

  /** What one artifact asks for when the patterns are visited in this order. */
  function ArtifactWrites(
    a: GhArtifact, rules: Patterns, run: string, submatch: Rules.Submatch, order: seq<string>)
    : seq<(Jobs.Key, Jobs.Payload)>
  {
    if order == [] then []
    else
      var w := Wanted(a, order[|order| - 1], rules, run, submatch);
      ArtifactWrites(a, rules, run, submatch, order[..|order| - 1]) + if w.Some? then [w.value] else []
  }

  /** What all of them ask for; the map gives the patterns in a new order for each artifact. */
  function Writes(
    artifacts: seq<GhArtifact>, rules: Patterns, run: string, submatch: Rules.Submatch, orders: seq<seq<string>>)
    : seq<(Jobs.Key, Jobs.Payload)>
    requires |orders| == |artifacts|
  {
    if artifacts == [] then []
    else
      var last := |artifacts| - 1;
      Writes(artifacts[..last], rules, run, submatch, orders[..last])
      + ArtifactWrites(artifacts[last], rules, run, submatch, orders[last])
  }

  /** An order of the patterns for each artifact that is looked at. */
  ghost predicate AreOrders(artifacts: seq<GhArtifact>, rules: Patterns, orders: seq<seq<string>>) {
    && |orders| == |artifacts|
    && forall i :: 0 <= i < |artifacts| && Live(artifacts[i]) ==> Visits(orders[i], rules.Keys)
  }

  /** The pagination loop, for as long as the process lives to make calls. */
  method ListArtifacts(fetch: int -> Page, calls: nat) returns (r: Option<Result<seq<GhArtifact>, Errors.Error>>)
    ensures r == Collect(fetch, 0, calls)
  {
    var artifacts, page, left := [], 0, calls;
    PrependNothing(Collect(fetch, 0, calls));
    while left > 0
      invariant Collect(fetch, 0, calls) == Prepend(artifacts, Collect(fetch, page, left))
    {
      var response := fetch(page);
      if response.Failed? {
        return Some(Err(response.error));
      }
      if response.nextPage != 0 {
        PrependTwice(artifacts, response.artifacts, Collect(fetch, response.nextPage, left - 1));
      }
      artifacts := artifacts + response.artifacts;
      if response.nextPage == 0 {
        return Some(Ok(artifacts));
      }
      page, left := response.nextPage, left - 1;
    }
    return None;
  }

  lemma PrependNothing(r: Option<Result<seq<GhArtifact>, Errors.Error>>)
    ensures Prepend([], r) == r
  {
    assert r.Some? && r.value.Ok? ==> [] + r.value.value == r.value.value;
  }

  lemma PrependTwice(a: seq<GhArtifact>, b: seq<GhArtifact>, r: Option<Result<seq<GhArtifact>, Errors.Error>>)
    ensures Prepend(a, Prepend(b, r)) == Prepend(a + b, r)
  {
    if r.Some? && r.value.Ok? {
      Regroup(a, b, r.value.value);
    }
  }

  ghost predicate Listed(fetch: int -> Page, pages: seq<int>, a: GhArtifact) {
    exists i :: 0 <= i < |pages| && fetch(pages[i]).Page? && a in fetch(pages[i]).artifacts
  }

  lemma ChainGrows(fetch: int -> Page, page: int, rest: seq<int>)
    requires fetch(page).Page? && fetch(page).nextPage != 0 && IsPageChain(fetch, fetch(page).nextPage, rest)
    ensures IsPageChain(fetch, page, [page] + rest)
    ensures forall a :: Listed(fetch, [page] + rest, a) <==> a in fetch(page).artifacts || Listed(fetch, rest, a)
  {
    var pages := [page] + rest;
    forall i | 0 <= i < |pages| ensures Follows(fetch, pages, i) {
      if i > 0 {
        assert Follows(fetch, rest, i - 1);
      }
    }
    forall a | Listed(fetch, rest, a) ensures Listed(fetch, pages, a) {
      var i :| 0 <= i < |rest| && fetch(rest[i]).Page? && a in fetch(rest[i]).artifacts;
      assert pages[i + 1] == rest[i];
    }
    forall a | a in fetch(page).artifacts ensures Listed(fetch, pages, a) {
      assert pages[0] == page;
    }
    forall a | Listed(fetch, pages, a) ensures a in fetch(page).artifacts || Listed(fetch, rest, a) {
      var i :| 0 <= i < |pages| && fetch(pages[i]).Page? && a in fetch(pages[i]).artifacts;
      assert i > 0 ==> pages[i] == rest[i - 1];
    }
  }

  lemma {:induction false} ChainRead(fetch: int -> Page, page: int, calls: nat) returns (pages: seq<int>)
    requires Collect(fetch, page, calls).Some? && Collect(fetch, page, calls).value.Ok?
    ensures IsPageChain(fetch, page, pages)
    ensures forall a :: a in Collect(fetch, page, calls).value.value <==> Listed(fetch, pages, a)
    decreases calls
  {
    if fetch(page).nextPage == 0 {
      pages := [page];
      assert Follows(fetch, pages, 0);
      assert forall a :: Listed(fetch, pages, a) <==> a in fetch(page).artifacts;
    } else {
      var rest := ChainRead(fetch, fetch(page).nextPage, calls - 1);
      ChainGrows(fetch, page, rest);
      pages := [page] + rest;
    }
  }

  /** A listing that succeeds has read every page to the last, and holds the artifacts of all of them. */
  lemma EveryPageRead(fetch: int -> Page, calls: nat) returns (pages: seq<int>)
    requires Collect(fetch, 0, calls).Some? && Collect(fetch, 0, calls).value.Ok?
    ensures IsPageChain(fetch, 0, pages)
    ensures forall a :: a in Collect(fetch, 0, calls).value.value <==> Listed(fetch, pages, a)
  {
    pages := ChainRead(fetch, 0, calls);
  }

  /** The artifacts of some pages, in order. */
  function Concat(fetch: int -> Page, pages: seq<int>): seq<GhArtifact> {
    if pages == [] then []
    else (if fetch(pages[0]).Page? then fetch(pages[0]).artifacts else []) + Concat(fetch, pages[1..])
  }

  lemma ChainTail(fetch: int -> Page, page: int, pages: seq<int>)
    requires IsPageChain(fetch, page, pages)
    ensures fetch(page).Page?
    ensures |pages| == 1 <==> fetch(page).nextPage == 0
    ensures |pages| > 1 ==> IsPageChain(fetch, fetch(page).nextPage, pages[1..])
  {
    assert Follows(fetch, pages, 0);
    if |pages| > 1 {
      forall i | 0 <= i < |pages[1..]| ensures Follows(fetch, pages[1..], i) {
        assert Follows(fetch, pages, i + 1);
      }
    }
  }

  /** Enough calls get to the last page: then the artifacts of all pages are listed, in order. */
  lemma {:induction false} EnoughCallsFinish(fetch: int -> Page, page: int, pages: seq<int>, calls: nat)
    requires IsPageChain(fetch, page, pages) && |pages| <= calls
    ensures Collect(fetch, page, calls) == Some(Ok(Concat(fetch, pages)))
    decreases |pages|
  {
    ChainTail(fetch, page, pages);
    var rest := pages[1..];
    if |pages| == 1 {
      assert Concat(fetch, rest) == [];
      assert Concat(fetch, pages) == fetch(page).artifacts;
    } else {
      EnoughCallsFinish(fetch, fetch(page).nextPage, rest, calls - 1);
      assert Concat(fetch, pages) == fetch(page).artifacts + Concat(fetch, rest);
    }
  }

  /** Too few do not, and nothing is known yet. */
  lemma {:induction false} FewCallsAreCutOff(fetch: int -> Page, page: int, pages: seq<int>, calls: nat)
    requires IsPageChain(fetch, page, pages) && calls < |pages|
    ensures Collect(fetch, page, calls) == None
    decreases calls
  {
    if calls > 0 {
      ChainTail(fetch, page, pages);
      FewCallsAreCutOff(fetch, fetch(page).nextPage, pages[1..], calls - 1);
    }
  }

  /** Page `i` of these names the next one. */
  ghost predicate Leads(fetch: int -> Page, pages: seq<int>, i: nat)
    requires i + 1 < |pages|
  {
    fetch(pages[i]).Page? && fetch(pages[i]).nextPage == pages[i + 1] != 0
  }

  /** The first page that cannot be had ends the listing with its error. */
  lemma {:induction false} FailedPageEnds(fetch: int -> Page, pages: seq<int>, calls: nat)
    requires pages != [] && |pages| <= calls && fetch(pages[|pages| - 1]).Failed?
    requires forall i :: 0 <= i < |pages| - 1 ==> Leads(fetch, pages, i)
    ensures Collect(fetch, pages[0], calls) == Some(Err(fetch(pages[|pages| - 1]).error))
    decreases |pages|
  {
    if |pages| > 1 {
      assert Leads(fetch, pages, 0);
      var rest := pages[1..];
      assert rest[0] == pages[1] && rest[|rest| - 1] == pages[|pages| - 1];
      forall i | 0 <= i < |rest| - 1 ensures Leads(fetch, rest, i) {
        assert Leads(fetch, pages, i + 1);
      }
      FailedPageEnds(fetch, rest, calls - 1);
    }
  }

  lemma OneMorePattern(
    a: GhArtifact, rules: Patterns, run: string, submatch: Rules.Submatch, order: seq<string>, pattern: string)
    ensures var w := Wanted(a, pattern, rules, run, submatch);
            ArtifactWrites(a, rules, run, submatch, order + [pattern])
            == ArtifactWrites(a, rules, run, submatch, order) + if w.Some? then [w.value] else []
  {
    assert (order + [pattern])[..|order|] == order;
  }

  /** The inner loop: the rules of the workflow, in whatever order the map gives them. */
  method SaveMatches(
    a: GhArtifact, rules: Patterns, run: string, submatch: Rules.Submatch, jobs: JobsDirectory)
    returns (errs: seq<Option<Errors.Error>>, ghost made: seq<Attempt>, ghost order: seq<string>)
    requires Live(a)
    modifies jobs
    ensures jobs.attempts == old(jobs.attempts) + made
    ensures jobs.files == Replay(old(jobs.files), jobs.dir, made)
    ensures errs == ErrorsOf(made)
    ensures Visits(order, rules.Keys)
    ensures Requests(made) == ArtifactWrites(a, rules, run, submatch, order)
  {
    errs, made, order := [], [], [];
    var all := rules.Keys;
    var left := all;
    while left != {}
      invariant left <= all
      invariant jobs.attempts == old(jobs.attempts) + made
      invariant jobs.files == Replay(old(jobs.files), jobs.dir, made)
      invariant errs == ErrorsOf(made)
      invariant Visits(order, all - left)
      invariant Requests(made) == ArtifactWrites(a, rules, run, submatch, order)
      decreases left
    {
      var pattern :| pattern in left;
      OneMorePattern(a, rules, run, submatch, order, pattern);
      VisitsGrow(order, all - left, pattern);
      assert all - (left - {pattern}) == (all - left) + {pattern};
      left, order := left - {pattern}, order + [pattern];
      var matches := submatch(pattern, Paths.Base(a.name));
      if |matches| == 0 {
        continue;
      }
      var version := if |matches| > 1 then matches[1] else a.headSha;
      var key, payload := Jobs.Artifact(a.run, a.id), Jobs.Payload(a.body + run, version, rules[pattern]);
      ghost var before := jobs.attempts;
      var err := jobs.SaveJob(key, payload);
      ghost var attempt := jobs.attempts[|before|];
      AppendAttempt(old(jobs.files), jobs.dir, made, attempt);
      Regroup(old(jobs.attempts), made, [attempt]);
      if err.Some? {
        errs := errs + [err];
      }
      made := made + [attempt];
    }
    assert all - left == all;
  }

  /** All artifacts, one after the other. */
  method SaveArtifacts(
    artifacts: seq<GhArtifact>, rules: Patterns, run: string, submatch: Rules.Submatch, jobs: JobsDirectory)
    returns (errs: seq<Option<Errors.Error>>, ghost made: seq<Attempt>, ghost orders: seq<seq<string>>)
    modifies jobs
    ensures jobs.attempts == old(jobs.attempts) + made
    ensures jobs.files == Replay(old(jobs.files), jobs.dir, made)
    ensures errs == ErrorsOf(made)
    ensures AreOrders(artifacts, rules, orders)
    ensures Requests(made) == Writes(artifacts, rules, run, submatch, orders)
  {
    errs, made, orders := [], [], [];
    for i := 0 to |artifacts|
      invariant jobs.attempts == old(jobs.attempts) + made
      invariant jobs.files == Replay(old(jobs.files), jobs.dir, made)
      invariant errs == ErrorsOf(made)
      invariant AreOrders(artifacts[..i], rules, orders)
      invariant Requests(made) == Writes(artifacts[..i], rules, run, submatch, orders)
    {
      var a := artifacts[i];
      assert artifacts[..i + 1] == artifacts[..i] + [a];
      if !a.wellFormed {
        OneMoreArtifact(artifacts[..i], a, rules, run, submatch, orders, []);
        orders := orders + [[]];
        continue;
      }
      if a.expired {
        OneMoreArtifact(artifacts[..i], a, rules, run, submatch, orders, []);
        orders := orders + [[]];
        continue;
      }
      var more, attempts, order := SaveMatches(a, rules, run, submatch, jobs);
      OneMoreArtifact(artifacts[..i], a, rules, run, submatch, orders, order);
      AppendAttempts(old(jobs.files), jobs.dir, made, attempts);
      Regroup(old(jobs.attempts), made, attempts);
      errs, made, orders := errs + more, made + attempts, orders + [order];
    }
    assert artifacts[..|artifacts|] == artifacts;
  }

  lemma OneMoreArtifact(
    front: seq<GhArtifact>, a: GhArtifact, rules: Patterns, run: string, submatch: Rules.Submatch,
    orders: seq<seq<string>>, order: seq<string>)
    requires AreOrders(front, rules, orders) && (Live(a) ==> Visits(order, rules.Keys))
    ensures AreOrders(front + [a], rules, orders + [order])
    ensures Writes(front + [a], rules, run, submatch, orders + [order])
            == Writes(front, rules, run, submatch, orders) + ArtifactWrites(a, rules, run, submatch, order)
  {
    assert (front + [a])[..|front|] == front && (orders + [order])[..|front|] == orders;
  }

  // ---------- the handler ----------

  /** What a run of the handler meets: configuration, the event's run, GitHub's pages, the calls it lives to make. */
  datatype Situation = Situation(
    repositories: Rules.Repositories, repo: string, workflow: string, run: string,
    fetch: int -> Page, calls: nat, submatch: Rules.Submatch)
  {
    predicate Configured() {
      repo in repositories && workflow in repositories[repo].workflows
    }

    function PatternRules(): Patterns
      requires Configured()
    {
      repositories[repo].workflows[workflow].artifacts
    }
  }

  /** How it ends: with the process, while pages are still to be read, or by returning. */
  datatype Ending = CutOff | Returned(err: Option<Errors.Error>)

  /** The saves are those of some orders of the patterns. */
  ghost predicate IsFanOut(x: Situation, artifacts: seq<GhArtifact>, requests: seq<(Jobs.Key, Jobs.Payload)>)
    requires x.Configured()
  {
    exists orders ::
      && AreOrders(artifacts, x.PatternRules(), orders)
      && requests == Writes(artifacts, x.PatternRules(), x.run, x.submatch, orders)
  }

  /**
   What the handler does. Without rules for the repository and workflow: nothing. On a failed page: that error, and
   nothing saved. Otherwise exactly the wanted saves, and a nil result exactly when all of them worked.
   */
  ghost predicate IsHandled(x: Situation, made: seq<Attempt>, ending: Ending) {
    if !x.Configured() then ending == Returned(None) && made == []
    else
      var listed := Collect(x.fetch, 0, x.calls);
      if listed == None then ending == CutOff && made == []
      else if listed.value.Err? then ending == Returned(Some(listed.value.error)) && made == []
      else
        && ending == Returned(Errors.Flatten(ErrorsOf(made)))
        && (ending == Returned(None) <==> AllOk(made))
        && IsFanOut(x, listed.value.value, Requests(made))
  }

  /** `handleDiscoverWorkflowArtifacts`. */
  method Handle(x: Situation, jobs: JobsDirectory) returns (ending: Ending, ghost made: seq<Attempt>)
    modifies jobs
    ensures jobs.attempts == old(jobs.attempts) + made
    ensures jobs.files == Replay(old(jobs.files), jobs.dir, made)
    ensures IsHandled(x, made, ending)
    ensures x.repo !in x.repositories || x.workflow !in x.repositories[x.repo].workflows ==>
              ending == Returned(None) && made == []
    ensures x.repo in x.repositories && x.workflow in x.repositories[x.repo].workflows ==>
              match Collect(x.fetch, 0, x.calls)
              case None => ending == CutOff && made == []
              case Some(Err(e)) => ending == Returned(Some(e)) && made == []
              case Some(Ok(_)) => ending.Returned? && (ending.err == None <==> AllOk(made))
  {
    made := [];
    assert jobs.attempts == jobs.attempts + [];
    if x.repo !in x.repositories {
      return Returned(None), [];
    }
    if x.workflow !in x.repositories[x.repo].workflows {
      return Returned(None), [];
    }
    var listed := ListArtifacts(x.fetch, x.calls);
    if listed == None {
      return CutOff, [];
    }
    if listed.value.Err? {
      return Returned(Some(listed.value.error)), [];
    }
    var errs;
    ghost var orders;
    errs, made, orders := SaveArtifacts(listed.value.value, x.PatternRules(), x.run, x.submatch, jobs);
    CollectedDecision(made);
    ending := Returned(Errors.Flatten(errs));
  }

  // ---------- what is asked for ----------

  lemma {:induction false} ArtifactWritesMembers(
    a: GhArtifact, rules: Patterns, run: string, submatch: Rules.Submatch, order: seq<string>,
    x: (Jobs.Key, Jobs.Payload))
    ensures x in ArtifactWrites(a, rules, run, submatch, order) <==>
              exists pattern :: pattern in order && Wanted(a, pattern, rules, run, submatch) == Some(x)
  {
    if order != [] {
      var front, last := order[..|order| - 1], order[|order| - 1];
      assert order == front + [last];
      ArtifactWritesMembers(a, rules, run, submatch, front, x);
      OneMorePattern(a, rules, run, submatch, front, last);
    }
  }

  lemma {:induction false} WritesMembers(
    artifacts: seq<GhArtifact>, rules: Patterns, run: string, submatch: Rules.Submatch, orders: seq<seq<string>>,
    x: (Jobs.Key, Jobs.Payload))
    requires |orders| == |artifacts|
    ensures x in Writes(artifacts, rules, run, submatch, orders) <==>
              exists i :: 0 <= i < |artifacts| && x in ArtifactWrites(artifacts[i], rules, run, submatch, orders[i])
  {
    if artifacts != [] {
      var last := |artifacts| - 1;
      var front, before := artifacts[..last], orders[..last];
      WritesMembers(front, rules, run, submatch, before, x);
      assert forall i :: 0 <= i < last ==> artifacts[i] == front[i] && orders[i] == before[i];
      if x in ArtifactWrites(artifacts[last], rules, run, submatch, orders[last]) {
        assert 0 <= last < |artifacts|;
      }
    }
  }

  /** Whatever the orders, the requests are those some rule makes on some artifact. */
  lemma WritesAreWants(
    artifacts: seq<GhArtifact>, rules: Patterns, run: string, submatch: Rules.Submatch, orders: seq<seq<string>>,
    x: (Jobs.Key, Jobs.Payload))
    requires AreOrders(artifacts, rules, orders)
    ensures x in Writes(artifacts, rules, run, submatch, orders) <==> Wants(artifacts, rules, run, submatch, x)
  {
    WritesMembers(artifacts, rules, run, submatch, orders, x);
    if i :| 0 <= i < |artifacts| && x in ArtifactWrites(artifacts[i], rules, run, submatch, orders[i]) {
      ArtifactWritesMembers(artifacts[i], rules, run, submatch, orders[i], x);
    }
    if i, pattern :| 0 <= i < |artifacts| && Wanted(artifacts[i], pattern, rules, run, submatch) == Some(x) {
      assert pattern in orders[i];
      ArtifactWritesMembers(artifacts[i], rules, run, submatch, orders[i], x);
    }
  }

  lemma FanOutIsWants(x: Situation, artifacts: seq<GhArtifact>, requests: seq<(Jobs.Key, Jobs.Payload)>)
    requires x.Configured() && IsFanOut(x, artifacts, requests)
    ensures forall q :: q in requests <==> Wants(artifacts, x.PatternRules(), x.run, x.submatch, q)
  {
    var orders :| && AreOrders(artifacts, x.PatternRules(), orders)
                  && requests == Writes(artifacts, x.PatternRules(), x.run, x.submatch, orders);
    forall q ensures q in requests <==> Wants(artifacts, x.PatternRules(), x.run, x.submatch, q) {
      WritesAreWants(artifacts, x.PatternRules(), x.run, x.submatch, orders, q);
    }
  }

  /**
   A nil result is durable: each artifact that a pattern suits has its job on disk, with the body of an artifact of
   those ids, and the version and destinations of a pattern that suits it.
   */
  lemma NilMeansPersisted(
    files: Jobs.Directory, dir: string, made: seq<Attempt>, x: Situation, artifacts: seq<GhArtifact>,
    i: nat, pattern: string)
    returns (j: nat, winner: string)
    requires x.Configured() && AllOk(made) && IsFanOut(x, artifacts, Requests(made))
    requires i < |artifacts| && Suits(artifacts[i], pattern, x.PatternRules(), x.submatch)
    ensures j < |artifacts| && Suits(artifacts[j], winner, x.PatternRules(), x.submatch)
    ensures artifacts[j].run == artifacts[i].run && artifacts[j].id == artifacts[i].id
    ensures var a, k := artifacts[j], Jobs.Artifact(artifacts[i].run, artifacts[i].id);
            var path, files' := Jobs.FileName(dir, k), Replay(files, dir, made);
            var version := VersionOf(x.submatch(winner, Paths.Base(a.name)), a.headSha);
            var payload := Jobs.Payload(a.body + x.run, version, x.PatternRules()[winner]);
            && path in files'
            && Jobs.Parse(path, files'[path]) == Ok(Jobs.Job(Jobs.ArtifactKind, Jobs.Id(k), payload, path))
  {
    var saves, k := Requests(made), Jobs.Artifact(artifacts[i].run, artifacts[i].id);
    var p := AskedPayload(saves, x, artifacts, i, pattern);
    j, winner :|
      && 0 <= j < |artifacts|
      && Wanted(artifacts[j], winner, x.PatternRules(), x.run, x.submatch) == Some((k, p));
    WantedIffSuits(artifacts[j], winner, x.PatternRules(), x.run, x.submatch);
    LastPayloadLoads(files, dir, made, k);
  }

  /** The payload that stays is one asked for. */
  lemma AskedPayload(
    saves: seq<(Jobs.Key, Jobs.Payload)>, x: Situation, artifacts: seq<GhArtifact>, i: nat, pattern: string)
    returns (p: Jobs.Payload)
    requires x.Configured() && IsFanOut(x, artifacts, saves)
    requires i < |artifacts| && Suits(artifacts[i], pattern, x.PatternRules(), x.submatch)
    ensures var k := Jobs.Artifact(artifacts[i].run, artifacts[i].id);
            && k in Jobs.LastPayloads(saves) && Jobs.LastPayloads(saves)[k] == p
            && Wants(artifacts, x.PatternRules(), x.run, x.submatch, (k, p))
  {
    var k := Jobs.Artifact(artifacts[i].run, artifacts[i].id);
    WantedIffSuits(artifacts[i], pattern, x.PatternRules(), x.run, x.submatch);
    var w := Wanted(artifacts[i], pattern, x.PatternRules(), x.run, x.submatch).value;
    FanOutIsWants(x, artifacts, saves);
    assert Wants(artifacts, x.PatternRules(), x.run, x.submatch, w);
    LastPayloadWasAsked(saves, k);
    assert (k, w.1) in saves;
    p := Jobs.LastPayloads(saves)[k];
  }

  // ---------- what the order can and cannot change ----------

  /** Some rule asks for a job on this artifact. */
  ghost predicate IsWanted(a: GhArtifact, rules: Patterns, run: string, submatch: Rules.Submatch) {
    exists pattern :: Wanted(a, pattern, rules, run, submatch).Some?
  }

  function KeyOf(a: GhArtifact): Jobs.Key {
    Jobs.Artifact(a.run, a.id)
  }

  /** The last artifact listed under its ids for which some rule asks: its rules decide what is on disk. */
  ghost predicate IsDecisive(
    artifacts: seq<GhArtifact>, rules: Patterns, run: string, submatch: Rules.Submatch, i: nat)
    requires i < |artifacts|
  {
    && IsWanted(artifacts[i], rules, run, submatch)
    && forall j :: i < j < |artifacts| && KeyOf(artifacts[j]) == KeyOf(artifacts[i]) ==>
         !IsWanted(artifacts[j], rules, run, submatch)
  }

  /** Patterns that match the same artifact ask for the same job on it. */
  ghost predicate Agree(a: GhArtifact, rules: Patterns, run: string, submatch: Rules.Submatch) {
    forall p, q :: Wanted(a, p, rules, run, submatch).Some? && Wanted(a, q, rules, run, submatch).Some? ==>
      Wanted(a, p, rules, run, submatch) == Wanted(a, q, rules, run, submatch)
  }

  ghost predicate Unambiguous(artifacts: seq<GhArtifact>, rules: Patterns, run: string, submatch: Rules.Submatch) {
    forall i :: 0 <= i < |artifacts| && IsDecisive(artifacts, rules, run, submatch, i) ==>
      Agree(artifacts[i], rules, run, submatch)
  }

  /** The last payload one artifact's patterns ask for is one of theirs, under the artifact's own ids. */
  lemma ArtifactTakes(
    a: GhArtifact, rules: Patterns, run: string, submatch: Rules.Submatch, order: seq<string>, k: Jobs.Key)
    requires Live(a) ==> Visits(order, rules.Keys)
    ensures var last := Jobs.LastPayloads(ArtifactWrites(a, rules, run, submatch, order));
            && (k in last <==> k == KeyOf(a) && IsWanted(a, rules, run, submatch))
            && (k in last ==> exists pattern :: Wanted(a, pattern, rules, run, submatch) == Some((k, last[k])))
  {
    var saves := ArtifactWrites(a, rules, run, submatch, order);
    LastPayloadWasAsked(saves, k);
    if k in Jobs.LastPayloads(saves) {
      ArtifactWritesMembers(a, rules, run, submatch, order, (k, Jobs.LastPayloads(saves)[k]));
    }
    if pattern :| Wanted(a, pattern, rules, run, submatch).Some? && k == KeyOf(a) {
      var w := Wanted(a, pattern, rules, run, submatch).value;
      assert pattern in order;
      ArtifactWritesMembers(a, rules, run, submatch, order, w);
      assert (k, w.1) in saves;
    }
  }

  lemma DecisiveInFront(
    artifacts: seq<GhArtifact>, rules: Patterns, run: string, submatch: Rules.Submatch, i: nat)
    requires i < |artifacts| - 1 && IsDecisive(artifacts, rules, run, submatch, i)
    ensures IsDecisive(artifacts[..|artifacts| - 1], rules, run, submatch, i)
    ensures KeyOf(artifacts[|artifacts| - 1]) == KeyOf(artifacts[i]) ==>
              !IsWanted(artifacts[|artifacts| - 1], rules, run, submatch)
  {}

  lemma LastOfWrites(
    artifacts: seq<GhArtifact>, rules: Patterns, run: string, submatch: Rules.Submatch, orders: seq<seq<string>>)
    requires artifacts != [] && |orders| == |artifacts|
    ensures var n := |artifacts| - 1;
            Jobs.LastPayloads(Writes(artifacts, rules, run, submatch, orders))
            == Jobs.LastPayloads(Writes(artifacts[..n], rules, run, submatch, orders[..n]))
               + Jobs.LastPayloads(ArtifactWrites(artifacts[n], rules, run, submatch, orders[n]))
  {
    var n := |artifacts| - 1;
    LastPayloadsSplit(
      Writes(artifacts[..n], rules, run, submatch, orders[..n]),
      ArtifactWrites(artifacts[n], rules, run, submatch, orders[n]));
  }

  /** The decisive artifact has its way. */
  lemma {:induction false} DecisiveDecides(
    artifacts: seq<GhArtifact>, rules: Patterns, run: string, submatch: Rules.Submatch,
    orders: seq<seq<string>>, i: nat)
    requires AreOrders(artifacts, rules, orders) && i < |artifacts|
    requires IsDecisive(artifacts, rules, run, submatch, i)
    ensures var k := KeyOf(artifacts[i]);
            var own := Jobs.LastPayloads(ArtifactWrites(artifacts[i], rules, run, submatch, orders[i]));
            var last := Jobs.LastPayloads(Writes(artifacts, rules, run, submatch, orders));
            k in own && k in last && last[k] == own[k]
    decreases |artifacts|
  {
    var n, k := |artifacts| - 1, KeyOf(artifacts[i]);
    LastOfWrites(artifacts, rules, run, submatch, orders);
    ArtifactTakes(artifacts[i], rules, run, submatch, orders[i], k);
    if i < n {
      DecisiveInFront(artifacts, rules, run, submatch, i);
      ArtifactTakes(artifacts[n], rules, run, submatch, orders[n], k);
      DecisiveDecides(artifacts[..n], rules, run, submatch, orders[..n], i);
    }
  }

  /** Each job asked for has a decisive artifact. */
  lemma {:induction false} DecisiveExists(
    artifacts: seq<GhArtifact>, rules: Patterns, run: string, submatch: Rules.Submatch, orders: seq<seq<string>>,
    k: Jobs.Key)
    returns (i: nat)
    requires AreOrders(artifacts, rules, orders)
    requires k in Jobs.LastPayloads(Writes(artifacts, rules, run, submatch, orders))
    ensures i < |artifacts| && KeyOf(artifacts[i]) == k && IsDecisive(artifacts, rules, run, submatch, i)
  {
    var n := |artifacts| - 1;
    LastOfWrites(artifacts, rules, run, submatch, orders);
    ArtifactTakes(artifacts[n], rules, run, submatch, orders[n], k);
    if KeyOf(artifacts[n]) == k && IsWanted(artifacts[n], rules, run, submatch) {
      i := n;
    } else {
      i := DecisiveExists(artifacts[..n], rules, run, submatch, orders[..n], k);
    }
  }

  lemma SameDecision(
    artifacts: seq<GhArtifact>, rules: Patterns, run: string, submatch: Rules.Submatch,
    a: seq<seq<string>>, b: seq<seq<string>>, k: Jobs.Key)
    requires Unambiguous(artifacts, rules, run, submatch)
    requires AreOrders(artifacts, rules, a) && AreOrders(artifacts, rules, b)
    requires k in Jobs.LastPayloads(Writes(artifacts, rules, run, submatch, a))
    ensures k in Jobs.LastPayloads(Writes(artifacts, rules, run, submatch, b))
    ensures Jobs.LastPayloads(Writes(artifacts, rules, run, submatch, a))[k]
            == Jobs.LastPayloads(Writes(artifacts, rules, run, submatch, b))[k]
  {
    var i := DecisiveExists(artifacts, rules, run, submatch, a, k);
    DecisiveDecides(artifacts, rules, run, submatch, a, i);
    DecisiveDecides(artifacts, rules, run, submatch, b, i);
    ArtifactTakes(artifacts[i], rules, run, submatch, a[i], k);
    ArtifactTakes(artifacts[i], rules, run, submatch, b[i], k);
  }

  lemma SameResult(
    files: Jobs.Directory, dir: string, artifacts: seq<GhArtifact>, rules: Patterns, run: string,
    submatch: Rules.Submatch, a: seq<seq<string>>, b: seq<seq<string>>)
    requires Unambiguous(artifacts, rules, run, submatch)
    requires AreOrders(artifacts, rules, a) && AreOrders(artifacts, rules, b)
    ensures Jobs.SaveAll(files, dir, Writes(artifacts, rules, run, submatch, a))
            == Jobs.SaveAll(files, dir, Writes(artifacts, rules, run, submatch, b))
  {
    var la := Jobs.LastPayloads(Writes(artifacts, rules, run, submatch, a));
    var lb := Jobs.LastPayloads(Writes(artifacts, rules, run, submatch, b));
    forall k | k in la ensures k in lb && la[k] == lb[k] {
      SameDecision(artifacts, rules, run, submatch, a, b, k);
    }
    forall k | k in lb ensures k in la {
      SameDecision(artifacts, rules, run, submatch, b, a, k);
    }
    assert la == lb;
    SaveAllByLast(
      files, dir, Writes(artifacts, rules, run, submatch, a), Writes(artifacts, rules, run, submatch, b));
  }

  /** Orders of which one ends, for this artifact, in a given pattern. */
  lemma OrdersEndingIn(artifacts: seq<GhArtifact>, rules: Patterns, i: nat, pattern: string)
    returns (orders: seq<seq<string>>)
    requires i < |artifacts| && pattern in rules
    ensures AreOrders(artifacts, rules, orders) && orders[i] != [] && orders[i][|orders[i]| - 1] == pattern
  {
    var any := SetAsSeq(rules.Keys);
    var front := VisitsEndingIn(rules.Keys, pattern);
    orders := seq(|artifacts|, j => if j == i then front + [pattern] else any);
  }

  /** Of one artifact's patterns, the last one that matches has its way. */
  lemma LastPatternDecides(
    a: GhArtifact, rules: Patterns, run: string, submatch: Rules.Submatch, order: seq<string>)
    requires order != [] && Wanted(a, order[|order| - 1], rules, run, submatch).Some?
    ensures var w := Wanted(a, order[|order| - 1], rules, run, submatch).value;
            var last := Jobs.LastPayloads(ArtifactWrites(a, rules, run, submatch, order));
            KeyOf(a) in last && last[KeyOf(a)] == w.1
  {
    var front, w := order[..|order| - 1], Wanted(a, order[|order| - 1], rules, run, submatch).value;
    var before := ArtifactWrites(a, rules, run, submatch, front);
    assert (before + [w])[..|before|] == before;
  }

  lemma OrdersThatDiffer(
    files: Jobs.Directory, dir: string, artifacts: seq<GhArtifact>, rules: Patterns, run: string,
    submatch: Rules.Submatch, i: nat)
    returns (a: seq<seq<string>>, b: seq<seq<string>>)
    requires i < |artifacts| && IsDecisive(artifacts, rules, run, submatch, i)
    requires !Agree(artifacts[i], rules, run, submatch)
    ensures AreOrders(artifacts, rules, a) && AreOrders(artifacts, rules, b)
    ensures Jobs.SaveAll(files, dir, Writes(artifacts, rules, run, submatch, a))
            != Jobs.SaveAll(files, dir, Writes(artifacts, rules, run, submatch, b))
  {
    var p, q :| && Wanted(artifacts[i], p, rules, run, submatch).Some?
                && Wanted(artifacts[i], q, rules, run, submatch).Some?
                && Wanted(artifacts[i], p, rules, run, submatch) != Wanted(artifacts[i], q, rules, run, submatch);
    a := OrdersEndingIn(artifacts, rules, i, p);
    b := OrdersEndingIn(artifacts, rules, i, q);
    LastPatternDecides(artifacts[i], rules, run, submatch, a[i]);
    LastPatternDecides(artifacts[i], rules, run, submatch, b[i]);
    DecisiveDecides(artifacts, rules, run, submatch, a, i);
    DecisiveDecides(artifacts, rules, run, submatch, b, i);
    DifferentLastShows(
      files, dir, Writes(artifacts, rules, run, submatch, a), Writes(artifacts, rules, run, submatch, b),
      KeyOf(artifacts[i]));
  }

  /**
   As for releases, patterns that match one artifact share its job file. The directory is the same for every map order
   exactly when they agree, on the last artifact listed under its ids.
   */
  lemma PayloadsIgnoreOrderIff(
    files: Jobs.Directory, dir: string, artifacts: seq<GhArtifact>, rules: Patterns, run: string,
    submatch: Rules.Submatch)
    ensures Unambiguous(artifacts, rules, run, submatch) <==>
              forall a, b :: AreOrders(artifacts, rules, a) && AreOrders(artifacts, rules, b) ==>
                Jobs.SaveAll(files, dir, Writes(artifacts, rules, run, submatch, a))
                == Jobs.SaveAll(files, dir, Writes(artifacts, rules, run, submatch, b))
  {
    if Unambiguous(artifacts, rules, run, submatch) {
      forall a, b | AreOrders(artifacts, rules, a) && AreOrders(artifacts, rules, b)
        ensures Jobs.SaveAll(files, dir, Writes(artifacts, rules, run, submatch, a))
                == Jobs.SaveAll(files, dir, Writes(artifacts, rules, run, submatch, b))
      {
        SameResult(files, dir, artifacts, rules, run, submatch, a, b);
      }
    } else {
      var i :| && 0 <= i < |artifacts| && IsDecisive(artifacts, rules, run, submatch, i)
               && !Agree(artifacts[i], rules, run, submatch);
      var a, b := OrdersThatDiffer(files, dir, artifacts, rules, run, submatch, i);
    }
  }
}
