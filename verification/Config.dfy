/**
 Validating the configuration tree (config/config.go and the `Validate` methods beside it). Validation walks every node,
 and on its way compiles each pattern into the object it is the key of.
 */
module Config {
  import opened Wrappers
  import opened Errors
  import Uploads

  /** Whether a regular expression compiles. A compiled one is represented by its source text. */
  type Syntax = string -> bool

  /** A destination, by its type. */
  type Destination = string

  const INVALID: Error := Plain("invalid configuration")

  predicate KnownDestination(d: Destination) {
    d == Uploads.DOCKER || d == Uploads.GENERIC
  }

  /** An asset of a release or an artifact of a workflow: the two have the same fields and the same checks. */
  class FileRule {
    const destinations: seq<Destination>
    var regexp: Option<string>

    constructor (destinations: seq<Destination>)
      ensures this.destinations == destinations && regexp == None
    {
      this.destinations, regexp := destinations, None;
    }
  }

  class Release {
    const assets: map<string, FileRule>
    var regexp: Option<string>

    constructor (assets: map<string, FileRule>)
      ensures this.assets == assets && regexp == None
    {
      this.assets, regexp := assets, None;
    }
  }

  class Workflow {
    const listed: seq<string>                  // Actors, as configured
    const artifacts: map<string, FileRule>
    var actors: set<string>                    // the lookup table validation builds

    constructor (listed: seq<string>, artifacts: map<string, FileRule>)
      ensures this.listed == listed && this.artifacts == artifacts && actors == {}
    {
      this.listed, this.artifacts, actors := listed, artifacts, {};
    }

    predicate HasActor(a: string)
      reads this
    {
      a in actors
    }
  }

  datatype Container = Container(destinations: seq<Destination>)

  datatype Repository = Repository(
    containers: map<string, Container>, releases: map<string, Release>, workflows: map<string, Workflow>)

  /** `others` are the results of the checks on directories, GitHub access, logging and the server. */
  datatype Configuration = Configuration(others: seq<Option<Error>>, repositories: map<string, Repository>)

  // ---------- what validation asks ----------

  predicate OnlyGeneric(ds: seq<Destination>) {
    forall d :: d in ds ==> d == Uploads.GENERIC
  }

  predicate AllKnown(ds: seq<Destination>) {
    forall d :: d in ds ==> KnownDestination(d)
  }

  ghost predicate ReleaseSound(r: Release, syntax: Syntax) {
    forall k :: k in r.assets ==> syntax(k) && OnlyGeneric(r.assets[k].destinations)
  }

  ghost predicate WorkflowSound(w: Workflow, syntax: Syntax) {
    forall k :: k in w.artifacts ==> syntax(k) && OnlyGeneric(w.artifacts[k].destinations)
  }

  ghost predicate RepositorySound(r: Repository, syntax: Syntax) {
    && (forall k :: k in r.containers ==> AllKnown(r.containers[k].destinations))
    && (forall k :: k in r.releases ==> syntax(k) && ReleaseSound(r.releases[k], syntax))
    && (forall k :: k in r.workflows ==> WorkflowSound(r.workflows[k], syntax))
  }

  // ---------- what validation leaves behind ----------

  ghost predicate ReleaseCompiled(r: Release, syntax: Syntax)
    reads r.assets.Values
  {
    forall k :: k in r.assets && syntax(k) ==> r.assets[k].regexp == Some(k)
  }

  ghost predicate WorkflowCompiled(w: Workflow, syntax: Syntax)
    reads w, w.artifacts.Values
  {
    && (forall a :: w.HasActor(a) <==> a in w.listed)
    && forall k :: k in w.artifacts && syntax(k) ==> w.artifacts[k].regexp == Some(k)
  }

  function AssetsUnder(releases: map<string, Release>): set<FileRule> {
    set k, a | k in releases && a in releases[k].assets :: releases[k].assets[a]
  }

  function ArtifactsUnder(workflows: map<string, Workflow>): set<FileRule> {
    set k, a | k in workflows && a in workflows[k].artifacts :: workflows[k].artifacts[a]
  }

  function NodesOf(r: Repository): set<object> {
    r.releases.Values + r.workflows.Values + AssetsUnder(r.releases) + ArtifactsUnder(r.workflows)
  }

  ghost predicate ReleasesCompiled(releases: map<string, Release>, syntax: Syntax)
    reads releases.Values, AssetsUnder(releases)
  {
    forall k :: k in releases ==>
      (syntax(k) ==> releases[k].regexp == Some(k)) && ReleaseCompiled(releases[k], syntax)
  }

  ghost predicate WorkflowsCompiled(workflows: map<string, Workflow>, syntax: Syntax)
    reads workflows.Values, ArtifactsUnder(workflows)
  {
    forall k :: k in workflows ==> WorkflowCompiled(workflows[k], syntax)
  }

  ghost predicate RepositoryCompiled(r: Repository, syntax: Syntax)
    reads NodesOf(r)
  {
    ReleasesCompiled(r.releases, syntax) && WorkflowsCompiled(r.workflows, syntax)
  }

  ghost predicate Injective<T>(m: map<string, T>) {
    forall a, b :: a in m && b in m && a != b ==> m[a] != m[b]
  }

  ghost predicate SeparateReleases(releases: map<string, Release>) {
    && (forall k :: k in releases ==> Injective(releases[k].assets))
    && (forall a, b :: a in releases && b in releases && a != b ==>
          releases[a].assets.Values !! releases[b].assets.Values)
  }

  ghost predicate SeparateWorkflows(workflows: map<string, Workflow>) {
    && Injective(workflows)
    && (forall k :: k in workflows ==> Injective(workflows[k].artifacts))
    && (forall a, b :: a in workflows && b in workflows && a != b ==>
          workflows[a].artifacts.Values !! workflows[b].artifacts.Values)
  }

  /** No two keys lead to the same node: the tree of a parsed file. */
  ghost predicate Unshared(r: Repository) {
    && Injective(r.releases) && SeparateReleases(r.releases) && SeparateWorkflows(r.workflows)
    && AssetsUnder(r.releases) !! ArtifactsUnder(r.workflows)
  }

  // ---------- validation ----------

  /** An error list that holds errors only flattens to nil exactly when it is empty. */
  lemma FlattenFound(errs: seq<Option<Error>>)
    requires forall i :: 0 <= i < |errs| ==> errs[i] != None
    ensures Flatten(errs) == None <==> errs == []
  {
    FlattenNil(errs);
  }

  method FlattenAll(
    a: seq<Option<Error>>, b: seq<Option<Error>>, c: seq<Option<Error>>, d: seq<Option<Error>>)
    returns (err: Option<Error>)
    requires forall i :: 0 <= i < |a| ==> a[i] != None
    requires forall i :: 0 <= i < |b| ==> b[i] != None
    requires forall i :: 0 <= i < |c| ==> c[i] != None
    requires forall i :: 0 <= i < |d| ==> d[i] != None
    ensures err == None <==> a == [] && b == [] && c == [] && d == []
  {
    var front, back := a + b, c + d;
    assert forall i :: 0 <= i < |front| ==> front[i] != None;
    assert forall i :: 0 <= i < |back| ==> back[i] != None;
    FlattenFound(front + back);
    err := Flatten(front + back);
  }

  /** Destinations against the types their owner supports, then each against all types. */
  method ValidateDestinations(ds: seq<Destination>, supported: seq<string>) returns (err: Option<Error>)
    requires forall t :: t in supported ==> KnownDestination(t)
    ensures err == None <==> forall d :: d in ds ==> d in supported
  {
    var own, each := [], [];
    for i := 0 to |ds|
      invariant forall k :: 0 <= k < |own| ==> own[k] != None
      invariant forall k :: 0 <= k < |each| ==> each[k] != None
      invariant own == [] <==> forall k :: 0 <= k < i ==> ds[k] in supported
      invariant each == [] <==> forall k :: 0 <= k < i ==> KnownDestination(ds[k])
    {
      if ds[i] !in supported {
        own := own + [Some(INVALID)];
      }
      if !KnownDestination(ds[i]) {
        each := each + [Some(INVALID)];
      }
    }
    FlattenFound(own + each);
    assert (forall k :: 0 <= k < |ds| ==> ds[k] in supported) <==> forall d :: d in ds ==> d in supported;
    err := Flatten(own + each);
  }

  /** Part of `Release.Validate` and `Workflow.Validate`: each asset or artifact gets the compiled form of its key. */
  method CompileFiles(nodes: map<string, FileRule>, syntax: Syntax) returns (errs: seq<Option<Error>>)
    requires Injective(nodes)
    modifies nodes.Values
    ensures forall i :: 0 <= i < |errs| ==> errs[i] != None
    ensures errs == [] <==> forall k :: k in nodes ==> syntax(k)
    ensures forall k :: k in nodes && syntax(k) ==> nodes[k].regexp == Some(k)
  {
    errs := [];
    var left := nodes.Keys;
    while left != {}
      invariant left <= nodes.Keys
      invariant forall k :: 0 <= k < |errs| ==> errs[k] != None
      invariant errs == [] <==> forall k :: k in nodes && k !in left ==> syntax(k)
      invariant forall k :: k in nodes && k !in left && syntax(k) ==> nodes[k].regexp == Some(k)
      decreases left
    {
      var k :| k in left;
      left := left - {k};
      if syntax(k) {
        nodes[k].regexp := Some(k);
      } else {
        errs := errs + [Some(INVALID)];
      }
    }
  }

  /** The assets or artifacts themselves: their destinations must be generic. */
  method ValidateFiles(nodes: map<string, FileRule>) returns (errs: seq<Option<Error>>)
    ensures forall i :: 0 <= i < |errs| ==> errs[i] != None
    ensures errs == [] <==> forall k :: k in nodes ==> OnlyGeneric(nodes[k].destinations)
  {
    errs := [];
    var left := nodes.Keys;
    while left != {}
      invariant left <= nodes.Keys
      invariant forall k :: 0 <= k < |errs| ==> errs[k] != None
      invariant errs == [] <==> forall k :: k in nodes && k !in left ==> OnlyGeneric(nodes[k].destinations)
      decreases left
    {
      var k :| k in left;
      left := left - {k};
      var e := ValidateDestinations(nodes[k].destinations, [Uploads.GENERIC]);
      if e != None {
        errs := errs + [e];
      }
    }
  }

  method ValidateRelease(r: Release, syntax: Syntax) returns (err: Option<Error>)
    requires Injective(r.assets)
    modifies r.assets.Values
    ensures err == None <==> ReleaseSound(r, syntax)
    ensures ReleaseCompiled(r, syntax)
  {
    var own := CompileFiles(r.assets, syntax);
    var assets := ValidateFiles(r.assets);
    FlattenFound(own + assets);
    err := Flatten(own + assets);
  }

  /** The first part of `Workflow.Validate`: the lookup table of actors. */
  method IndexActors(w: Workflow)
    modifies w
    ensures forall a :: w.HasActor(a) <==> a in w.listed
  {
    w.actors := {};
    for i := 0 to |w.listed|
      invariant forall a :: a in w.actors <==> a in w.listed[..i]
    {
      assert w.listed[..i + 1] == w.listed[..i] + [w.listed[i]];
      w.actors := w.actors + {w.listed[i]};
    }
    assert w.listed[..|w.listed|] == w.listed;
  }

  method ValidateWorkflow(w: Workflow, syntax: Syntax) returns (err: Option<Error>)
    requires Injective(w.artifacts)
    modifies w, w.artifacts.Values
    ensures err == None <==> WorkflowSound(w, syntax)
    ensures WorkflowCompiled(w, syntax)
  {
    IndexActors(w);
    var own := CompileFiles(w.artifacts, syntax);
    var artifacts := ValidateFiles(w.artifacts);
    FlattenFound(own + artifacts);
    err := Flatten(own + artifacts);
  }

  /** `Repository.Validate`: each release gets the compiled form of its key. */
  method CompileReleases(nodes: map<string, Release>, syntax: Syntax) returns (errs: seq<Option<Error>>)
    requires Injective(nodes)
    modifies nodes.Values
    ensures forall i :: 0 <= i < |errs| ==> errs[i] != None
    ensures errs == [] <==> forall k :: k in nodes ==> syntax(k)
    ensures forall k :: k in nodes && syntax(k) ==> nodes[k].regexp == Some(k)
  {
    errs := [];
    var left := nodes.Keys;
    while left != {}
      invariant left <= nodes.Keys
      invariant forall k :: 0 <= k < |errs| ==> errs[k] != None
      invariant errs == [] <==> forall k :: k in nodes && k !in left ==> syntax(k)
      invariant forall k :: k in nodes && k !in left && syntax(k) ==> nodes[k].regexp == Some(k)
      decreases left
    {
      var k :| k in left;
      left := left - {k};
      if syntax(k) {
        nodes[k].regexp := Some(k);
      } else {
        errs := errs + [Some(INVALID)];
      }
    }
  }

  method ValidateContainers(containers: map<string, Container>) returns (errs: seq<Option<Error>>)
    ensures forall i :: 0 <= i < |errs| ==> errs[i] != None
    ensures errs == [] <==> forall k :: k in containers ==> AllKnown(containers[k].destinations)
  {
    errs := [];
    var left := containers.Keys;
    while left != {}
      invariant left <= containers.Keys
      invariant forall k :: 0 <= k < |errs| ==> errs[k] != None
      invariant errs == [] <==> forall k :: k in containers && k !in left ==> AllKnown(containers[k].destinations)
      decreases left
    {
      var k :| k in left;
      left := left - {k};
      var e := ValidateDestinations(containers[k].destinations, [Uploads.DOCKER, Uploads.GENERIC]);
      if e != None {
        errs := errs + [e];
      }
    }
  }

  /** Validating one release leaves those already done as they are. */
  method ValidateNextRelease(
    releases: map<string, Release>, k: string, ghost done: set<string>, syntax: Syntax, errs: seq<Option<Error>>)
    returns (more: seq<Option<Error>>)
    requires SeparateReleases(releases) && k in releases && k !in done && done <= releases.Keys
    requires forall j :: j in done ==> ReleaseCompiled(releases[j], syntax)
    requires forall i :: 0 <= i < |errs| ==> errs[i] != None
    modifies releases[k].assets.Values
    ensures forall i :: 0 <= i < |more| ==> more[i] != None
    ensures more == [] <==> errs == [] && ReleaseSound(releases[k], syntax)
    ensures forall j :: j in done + {k} ==> ReleaseCompiled(releases[j], syntax)
  {
    var err := ValidateRelease(releases[k], syntax);
    more := if err != None then errs + [err] else errs;
  }

  method ValidateReleases(releases: map<string, Release>, syntax: Syntax) returns (errs: seq<Option<Error>>)
    requires SeparateReleases(releases)
    modifies AssetsUnder(releases)
    ensures forall i :: 0 <= i < |errs| ==> errs[i] != None
    ensures errs == [] <==> forall k :: k in releases ==> ReleaseSound(releases[k], syntax)
    ensures forall k :: k in releases ==> ReleaseCompiled(releases[k], syntax)
  {
    errs := [];
    var left := releases.Keys;
    ghost var done: set<string> := {};
    while left != {}
      invariant done <= releases.Keys && forall k :: k in releases ==> (k in done <==> k !in left)
      invariant left <= releases.Keys
      invariant forall k :: 0 <= k < |errs| ==> errs[k] != None
      invariant errs == [] <==> forall k :: k in done ==> ReleaseSound(releases[k], syntax)
      invariant forall k :: k in done ==> ReleaseCompiled(releases[k], syntax)
      decreases left
    {
      var k :| k in left;
      assert releases[k].assets.Values <= AssetsUnder(releases);
      errs := ValidateNextRelease(releases, k, done, syntax, errs);
      left, done := left - {k}, done + {k};
    }
  }

  /** Validating one workflow leaves those already done as they are. */
  method ValidateNextWorkflow(
    workflows: map<string, Workflow>, k: string, ghost done: set<string>, syntax: Syntax, errs: seq<Option<Error>>)
    returns (more: seq<Option<Error>>)
    requires SeparateWorkflows(workflows) && k in workflows && k !in done && done <= workflows.Keys
    requires forall j :: j in done ==> WorkflowCompiled(workflows[j], syntax)
    requires forall i :: 0 <= i < |errs| ==> errs[i] != None
    modifies workflows[k], workflows[k].artifacts.Values
    ensures forall i :: 0 <= i < |more| ==> more[i] != None
    ensures more == [] <==> errs == [] && WorkflowSound(workflows[k], syntax)
    ensures forall j :: j in done + {k} ==> WorkflowCompiled(workflows[j], syntax)
  {
    var err := ValidateWorkflow(workflows[k], syntax);
    more := if err != None then errs + [err] else errs;
  }

  method ValidateWorkflows(workflows: map<string, Workflow>, syntax: Syntax) returns (errs: seq<Option<Error>>)
    requires SeparateWorkflows(workflows)
    modifies workflows.Values, ArtifactsUnder(workflows)
    ensures forall i :: 0 <= i < |errs| ==> errs[i] != None
    ensures errs == [] <==> forall k :: k in workflows ==> WorkflowSound(workflows[k], syntax)
    ensures WorkflowsCompiled(workflows, syntax)
  {
    errs := [];
    var left := workflows.Keys;
    ghost var done: set<string> := {};
    while left != {}
      invariant done <= workflows.Keys && forall k :: k in workflows ==> (k in done <==> k !in left)
      invariant left <= workflows.Keys
      invariant forall k :: 0 <= k < |errs| ==> errs[k] != None
      invariant errs == [] <==> forall k :: k in done ==> WorkflowSound(workflows[k], syntax)
      invariant forall k :: k in done ==> WorkflowCompiled(workflows[k], syntax)
      decreases left
    {
      var k :| k in left;
      assert workflows[k].artifacts.Values <= ArtifactsUnder(workflows);
      errs := ValidateNextWorkflow(workflows, k, done, syntax, errs);
      left, done := left - {k}, done + {k};
    }
  }

  /** Release patterns, then the releases. */
  method ValidateReleaseTree(releases: map<string, Release>, syntax: Syntax)
    returns (own: seq<Option<Error>>, errs: seq<Option<Error>>)
    requires Injective(releases) && SeparateReleases(releases)
    modifies releases.Values, AssetsUnder(releases)
    ensures forall i :: 0 <= i < |own| ==> own[i] != None
    ensures forall i :: 0 <= i < |errs| ==> errs[i] != None
    ensures own == [] <==> forall k :: k in releases ==> syntax(k)
    ensures errs == [] <==> forall k :: k in releases ==> ReleaseSound(releases[k], syntax)
    ensures ReleasesCompiled(releases, syntax)
  {
    own := CompileReleases(releases, syntax);
    errs := ValidateReleases(releases, syntax);
  }

  /** The workflows, after the releases: what the releases hold stays. */
  method ValidateWorkflowTree(r: Repository, syntax: Syntax) returns (errs: seq<Option<Error>>)
    requires SeparateWorkflows(r.workflows) && ReleasesCompiled(r.releases, syntax)
    requires AssetsUnder(r.releases) !! ArtifactsUnder(r.workflows)
    modifies r.workflows.Values, ArtifactsUnder(r.workflows)
    ensures forall i :: 0 <= i < |errs| ==> errs[i] != None
    ensures errs == [] <==> forall k :: k in r.workflows ==> WorkflowSound(r.workflows[k], syntax)
    ensures RepositoryCompiled(r, syntax)
  {
    errs := ValidateWorkflows(r.workflows, syntax);
  }

  lemma SoundInParts(r: Repository, syntax: Syntax)
    ensures RepositorySound(r, syntax) <==>
              && (forall k :: k in r.releases ==> syntax(k))
              && (forall k :: k in r.containers ==> AllKnown(r.containers[k].destinations))
              && (forall k :: k in r.releases ==> ReleaseSound(r.releases[k], syntax))
              && (forall k :: k in r.workflows ==> WorkflowSound(r.workflows[k], syntax))
  {}

  method ValidateRepository(r: Repository, syntax: Syntax) returns (err: Option<Error>)
    requires Unshared(r)
    modifies NodesOf(r)
    ensures err == None <==> RepositorySound(r, syntax)
    ensures RepositoryCompiled(r, syntax)
  {
    var own, releases := ValidateReleaseTree(r.releases, syntax);
    var containers := ValidateContainers(r.containers);
    var workflows := ValidateWorkflowTree(r, syntax);
    SoundInParts(r, syntax);
    err := FlattenAll(own, containers, releases, workflows);
  }

  function AllNodes(c: Configuration): set<object> {
    set k, o | k in c.repositories && o in NodesOf(c.repositories[k]) :: o
  }

  /** No node is shared, within a repository or between two. */
  ghost predicate IsTree(c: Configuration) {
    && (forall k :: k in c.repositories ==> Unshared(c.repositories[k]))
    && (forall a, b :: a in c.repositories && b in c.repositories && a != b ==>
          NodesOf(c.repositories[a]) !! NodesOf(c.repositories[b]))
  }

  /** Validating one repository leaves those already done as they are. */
  method ValidateNext(
    c: Configuration, k: string, ghost done: set<string>, syntax: Syntax, errs: seq<Option<Error>>)
    returns (more: seq<Option<Error>>)
    requires k in c.repositories && k !in done && done <= c.repositories.Keys
    requires Unshared(c.repositories[k])
    requires forall j :: j in done ==> NodesOf(c.repositories[j]) !! NodesOf(c.repositories[k])
    requires forall j :: j in done ==> RepositoryCompiled(c.repositories[j], syntax)
    requires forall i :: 0 <= i < |errs| ==> errs[i] != None
    modifies NodesOf(c.repositories[k])
    ensures forall i :: 0 <= i < |more| ==> more[i] != None
    ensures more == [] <==> errs == [] && RepositorySound(c.repositories[k], syntax)
    ensures forall j :: j in done + {k} ==> RepositoryCompiled(c.repositories[j], syntax)
  {
    var err := ValidateRepository(c.repositories[k], syntax);
    more := if err != None then errs + [err] else errs;
  }

  method ValidateRepositories(c: Configuration, syntax: Syntax) returns (errs: seq<Option<Error>>)
    requires IsTree(c)
    modifies AllNodes(c)
    ensures forall i :: 0 <= i < |errs| ==> errs[i] != None
    ensures errs == [] <==> forall k :: k in c.repositories ==> RepositorySound(c.repositories[k], syntax)
    ensures forall k :: k in c.repositories ==> RepositoryCompiled(c.repositories[k], syntax)
  {
    errs := [];
    var left := c.repositories.Keys;
    ghost var done: set<string> := {};
    while left != {}
      invariant done <= c.repositories.Keys && forall k :: k in c.repositories ==> (k in done <==> k !in left)
      invariant left <= c.repositories.Keys
      invariant forall k :: 0 <= k < |errs| ==> errs[k] != None
      invariant errs == [] <==> forall k :: k in done ==> RepositorySound(c.repositories[k], syntax)
      invariant forall k :: k in done ==> RepositoryCompiled(c.repositories[k], syntax)
      decreases left
    {
      var k :| k in left;
      assert NodesOf(c.repositories[k]) <= AllNodes(c);
      errs := ValidateNext(c, k, done, syntax, errs);
      left, done := left - {k}, done + {k};
    }
  }

  /**
   `Config.Validate`: nil exactly when every check in the tree passes. Whatever it returns, every release, asset and
   artifact whose key compiles holds the compiled form of its own key, and actor lookup agrees with the list.
   */
  method Validate(c: Configuration, syntax: Syntax) returns (err: Option<Error>)
    requires IsTree(c)
    modifies AllNodes(c)
    ensures err == None <==>
              && (forall i :: 0 <= i < |c.others| ==> c.others[i] == None)
              && (forall k :: k in c.repositories ==> RepositorySound(c.repositories[k], syntax))
    ensures forall k :: k in c.repositories ==> RepositoryCompiled(c.repositories[k], syntax)
  {
    var errs := [];
    for i := 0 to |c.others|
      invariant forall k :: 0 <= k < |errs| ==> errs[k] != None
      invariant errs == [] <==> forall k :: 0 <= k < i ==> c.others[k] == None
    {
      if c.others[i] != None {
        errs := errs + [c.others[i]];
      }
    }
    var more := ValidateRepositories(c, syntax);
    FlattenFound(errs + more);
    err := Flatten(errs + more);
  }

  // ---------- what validity does and does not promise ----------

  /** One local check somewhere in the tree. */
  datatype Check =
    | Pattern(source: string)
    | GenericOnly(destinations: seq<Destination>)
    | KnownOnly(destinations: seq<Destination>)

  predicate Passes(check: Check, syntax: Syntax) {
    match check
    case Pattern(source) => syntax(source)
    case GenericOnly(ds) => OnlyGeneric(ds)
    case KnownOnly(ds) => AllKnown(ds)
  }

  /** The checks a repository's nodes carry, wherever they sit. */
  ghost predicate Carries(r: Repository, check: Check) {
    match check
    case Pattern(source) =>
      || source in r.releases
      || (exists k :: k in r.releases && source in r.releases[k].assets)
      || (exists k :: k in r.workflows && source in r.workflows[k].artifacts)
    case GenericOnly(ds) =>
      || (exists k, a :: k in r.releases && a in r.releases[k].assets && r.releases[k].assets[a].destinations == ds)
      || (exists k, a ::
            k in r.workflows && a in r.workflows[k].artifacts && r.workflows[k].artifacts[a].destinations == ds)
    case KnownOnly(ds) => exists k :: k in r.containers && r.containers[k].destinations == ds
  }

  /** Soundness as validation asks it is soundness of every check, however deep its node. */
  lemma SoundIffEveryCheckPasses(r: Repository, syntax: Syntax)
    ensures RepositorySound(r, syntax) <==> forall check :: Carries(r, check) ==> Passes(check, syntax)
  {
    if forall check :: Carries(r, check) ==> Passes(check, syntax) {
      forall k | k in r.containers ensures AllKnown(r.containers[k].destinations) {
        assert Carries(r, KnownOnly(r.containers[k].destinations));
      }
      forall k | k in r.releases ensures syntax(k) && ReleaseSound(r.releases[k], syntax) {
        assert Carries(r, Pattern(k));
        forall a | a in r.releases[k].assets
          ensures syntax(a) && OnlyGeneric(r.releases[k].assets[a].destinations)
        {
          assert Carries(r, Pattern(a)) && Carries(r, GenericOnly(r.releases[k].assets[a].destinations));
        }
      }
      forall k | k in r.workflows ensures WorkflowSound(r.workflows[k], syntax) {
        forall a | a in r.workflows[k].artifacts
          ensures syntax(a) && OnlyGeneric(r.workflows[k].artifacts[a].destinations)
        {
          assert Carries(r, Pattern(a)) && Carries(r, GenericOnly(r.workflows[k].artifacts[a].destinations));
        }
      }
    }
  }

  /** Destinations with this type and these results. */
  ghost predicate Configured(ds: seq<Destination>, uploads: seq<Uploads.Destination>) {
    |uploads| == |ds| && forall i :: 0 <= i < |ds| ==> uploads[i].typeName == ds[i]
  }

  /** The jobs of valid releases and workflows never hit the type assertion of the upload. */
  lemma ValidFileJobsNeverPanic(ds: seq<Destination>, uploads: seq<Uploads.Destination>)
    requires OnlyGeneric(ds) && Configured(ds, uploads)
    ensures forall u :: u in uploads ==> !Uploads.Mismatched(Uploads.FileJob, u)
  {
    forall u | u in uploads ensures !Uploads.Mismatched(Uploads.FileJob, u) {
      var i :| 0 <= i < |uploads| && uploads[i] == u;
      assert ds[i] in ds;
    }
  }

  /** A valid container's job panics exactly when it has a generic destination, and validation allows those. */
  lemma ValidContainerJobPanicsIff(ds: seq<Destination>, uploads: seq<Uploads.Destination>)
    requires AllKnown(ds) && Configured(ds, uploads)
    ensures (exists u :: u in uploads && Uploads.Mismatched(Uploads.ContainerJob, u)) <==> Uploads.GENERIC in ds
  {
    if Uploads.GENERIC in ds {
      var i :| 0 <= i < |ds| && ds[i] == Uploads.GENERIC;
      assert uploads[i] in uploads;
    }
    if u :| u in uploads && Uploads.Mismatched(Uploads.ContainerJob, u) {
      var i :| 0 <= i < |uploads| && uploads[i] == u;
      assert ds[i] in ds;
    }
  }
}
