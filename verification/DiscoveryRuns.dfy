/**
 The discovery handler inside the queue, over runs in which any other goroutine may step between any two of its saves:
 what it does is what the queue lets a handler do, and when its job's file leaves, all it was to find is on disk.
 */
module DiscoveryRuns {
  import opened Discovery
  import opened JobsDir
  import opened Queue
  import opened QueueRuns
  import opened Wrappers
  import Errors
  import Jobs

  /** The children the queue sees for the saves a handler makes. */
  function Children(dir: string, made: seq<Attempt>): seq<Child> {
    seq(|made|, i requires 0 <= i < |made| =>
      Child(Jobs.FileName(dir, made[i].key), Jobs.Marshal(Jobs.NewJob(made[i].key, made[i].payload))))
  }

  function Outcomes(made: seq<Attempt>): seq<bool> {
    seq(|made|, i requires 0 <= i < |made| => made[i].ok)
  }

  /** Whether each of the handler's saves among events `i` to `j` worked, whatever happened in between. */
  function SaveOutcomes(es: seq<Event>, i: nat, j: nat): seq<bool>
    requires i <= j <= |es|
  {
    if i == j then [] else SaveOutcomes(es, i, j - 1) + if es[j - 1].SaveChild? then [es[j - 1].saved] else []
  }

  /** No handler returns, and the process lives, during events `i` to `j`. */
  ghost predicate Uninterrupted(es: seq<Event>, i: nat, j: nat)
    requires i <= j <= |es|
  {
    forall m :: i <= m < j ==> !es[m].Finish? && !es[m].Crash?
  }

  lemma HandlerStep(s: State, e: Event)
    requires Enabled(s, e) && s.worker.Handling? && !e.Finish? && !e.Crash?
    ensures var w, w' := s.worker, Next(s, e).worker;
            && w'.Handling? && w'.flight == w.flight && w'.children == w.children
            && w'.next == w.next + (if e.SaveChild? then 1 else 0)
            && (w'.failed <==> w.failed || (e.SaveChild? && !e.saved))
  {}

  /**
   From the moment the worker takes a job, with any other steps in between, its progress is exactly the saves of its
   handler, and it has failed exactly when one of them has.
   */
  lemma {:induction false} ProgressIsSaves(ss: seq<State>, es: seq<Event>, r: nat, i: nat)
    requires IsRun(ss, es) && r < i <= |es| && es[r].Receive? && Uninterrupted(es, r + 1, i)
    ensures ss[r].jobs != [] && MayReceive(ss[r].jobs[0], es[r].children)
    ensures var w := ss[i].worker;
            && w.Handling? && w.flight == ss[r].jobs[0] && w.children == es[r].children
            && w.next == |SaveOutcomes(es, r + 1, i)| <= |w.children|
            && (w.failed <==> false in SaveOutcomes(es, r + 1, i))
  {
    assert StepAt(ss, es, i - 1);
    if i > r + 1 {
      ProgressIsSaves(ss, es, r, i - 1);
      HandlerStep(ss[i - 1], es[i - 1]);
    }
    Reachable(ss, es, i);
  }

  /** A job being handled was taken by the worker, and nothing has returned since. */
  lemma {:induction false} HandlingSince(ss: seq<State>, es: seq<Event>, i: nat) returns (r: nat)
    requires IsRun(ss, es) && i < |ss| && ss[i].worker.Handling?
    ensures r < i && es[r].Receive? && Uninterrupted(es, r + 1, i)
  {
    if i == 0 {
      assert false;
    } else {
      assert StepAt(ss, es, i - 1);
      if es[i - 1].Receive? {
        r := i - 1;
      } else {
        BeforeHandling(ss[i - 1], es[i - 1]);
        r := HandlingSince(ss, es, i - 1);
      }
    }
  }

  lemma BeforeHandling(s: State, e: Event)
    requires Enabled(s, e) && Next(s, e).worker.Handling? && !e.Receive?
    ensures s.worker.Handling? && !e.Finish? && !e.Crash?
  {}

  // ---------- the handler fits the queue ----------

  /** GitHub's client knows nothing of this program's non-retryable errors. */
  ghost predicate Retryable(fetch: int -> Page) {
    forall page :: fetch(page).Failed? ==> Errors.FindNonRetryable(fetch(page).error) == None
  }

  lemma {:induction false} FailureIsRetryable(fetch: int -> Page, page: int, calls: nat)
    requires Retryable(fetch)
    ensures var listed := Collect(fetch, page, calls);
            listed.Some? && listed.value.Err? ==> Errors.FindNonRetryable(listed.value.error) == None
    decreases calls
  {
    if calls > 0 && fetch(page).Page? {
      FailureIsRetryable(fetch, fetch(page).nextPage, calls - 1);
    }
  }

  lemma AllOkIffNoneFailed(made: seq<Attempt>)
    ensures AllOk(made) <==> false !in Outcomes(made)
  {
    if i :| 0 <= i < |made| && !made[i].ok {
      assert !Outcomes(made)[i];
    }
  }

  /** What a handler returns is nil, or an error that keeps the job. */
  lemma ReturnIsNilOrRetryable(x: Situation, made: seq<Attempt>, err: Option<Errors.Error>)
    requires IsHandled(x, made, Returned(err)) && Retryable(x.fetch)
    ensures err == None ==> AllOk(made)
    ensures err != None ==> Errors.FindNonRetryable(err.value) == None && (made == [] || !AllOk(made))
  {
    FailureIsRetryable(x.fetch, 0, x.calls);
    CollectedDecision(made);
  }

  /**
   Whatever the handler is up against, and whoever else steps between its saves: once it has made them, the queue lets
   it return what it returns.
   */
  lemma HandlerFitsQueue(
    ss: seq<State>, es: seq<Event>, r: nat, i: nat, dir: string, x: Situation, made: seq<Attempt>,
    err: Option<Errors.Error>)
    requires IsRun(ss, es) && r < i <= |es| && Uninterrupted(es, r + 1, i)
    requires es[r] == Receive(Children(dir, made)) && ss[r].jobs != []
    requires ss[r].jobs[0].job.kind == Jobs.DiscoverKind
    requires SaveOutcomes(es, r + 1, i) == Outcomes(made)
    requires IsHandled(x, made, Returned(err)) && Retryable(x.fetch)
    ensures Enabled(ss[i], Finish(err))
  {
    ProgressIsSaves(ss, es, r, i);
    AllOkIffNoneFailed(made);
    ReturnIsNilOrRetryable(x, made, err);
  }

  /** Before that, each save is one the queue lets it make. */
  lemma SaveFitsQueue(ss: seq<State>, es: seq<Event>, r: nat, i: nat, dir: string, made: seq<Attempt>)
    requires IsRun(ss, es) && r < i <= |es| && Uninterrupted(es, r + 1, i)
    requires es[r] == Receive(Children(dir, made)) && |SaveOutcomes(es, r + 1, i)| < |made|
    ensures var n := |SaveOutcomes(es, r + 1, i)|;
            && Enabled(ss[i], SaveChild(made[n].ok))
            && Next(ss[i], SaveChild(made[n].ok)).files == Replay(ss[i].files, dir, [made[n]])
  {
    ProgressIsSaves(ss, es, r, i);
    var n := |SaveOutcomes(es, r + 1, i)|;
    assert [made[n]][..0] == [];
  }

  /** A job stored under its own name never shares a file with what its handler saves. */
  lemma ChildrenFitQueue(
    f: Flight, dir: string, x: Situation, made: seq<Attempt>, ending: Ending, parent: int)
    requires f.job.kind == Jobs.DiscoverKind && f.job.path == Jobs.FileName(dir, Jobs.Discover(parent))
    requires IsHandled(x, made, ending)
    ensures MayReceive(f, Children(dir, made))
  {
    forall i | 0 <= i < |made|
      ensures Jobs.IsJson(Children(dir, made)[i].path) && Children(dir, made)[i].path != f.job.path
    {
      SavesAreArtifacts(x, made, ending, i);
      Jobs.FileNameIsJson(dir, made[i].key);
      Jobs.SameFileIffSameJob(dir, made[i].key, Jobs.Discover(parent));
    }
  }

  lemma SavesAreArtifacts(x: Situation, made: seq<Attempt>, ending: Ending, i: nat)
    requires IsHandled(x, made, ending) && i < |made|
    ensures made[i].key.Artifact?
  {
    var artifacts := Collect(x.fetch, 0, x.calls).value.value;
    FanOutIsWants(x, artifacts, Requests(made));
    assert Requests(made)[i] in Requests(made);
  }

  // ---------- nothing found is lost ----------

  /** The worker takes a discovery job at event `r`, and its handler returns at event `m`. */
  ghost predicate IsHandling(ss: seq<State>, es: seq<Event>, r: nat, m: nat)
    requires r < m < |es| < |ss|
  {
    && es[r].Receive? && ss[r].jobs != [] && ss[r].jobs[0].job.kind == Jobs.DiscoverKind
    && es[m].Finish? && Uninterrupted(es, r + 1, m)
  }

  /** In between it did what the handler does in this situation. */
  ghost predicate IsOwnDoing(es: seq<Event>, r: nat, m: nat, dir: string, x: Situation)
    requires r < m < |es| && es[m].Finish?
  {
    exists made ::
      && IsHandled(x, made, Returned(es[m].outcome))
      && es[r] == Receive(Children(dir, made))
      && SaveOutcomes(es, r + 1, m) == Outcomes(made)
  }

  /** All discovery in this run is the handler's own doing; `met(r)` is what it meets when it starts at event `r`. */
  ghost predicate HandlersOnly(ss: seq<State>, es: seq<Event>, dir: string, met: nat -> Situation)
    requires |es| < |ss|
  {
    forall r, m :: 0 <= r < m < |es| && IsHandling(ss, es, r, m) ==> IsOwnDoing(es, r, m, dir, met(r))
  }

  /** On disk at state `i`, after the step taken there, and after a crash right then. */
  ghost predicate OutlivesStep(ss: seq<State>, i: nat, path: Path)
    requires i + 1 < |ss|
  {
    path in ss[i].files && path in ss[i + 1].files && path in Next(ss[i + 1], Crash).files
  }

  /** Where the handler that let a discovery job go started and returned. */
  lemma WasHandled(ss: seq<State>, es: seq<Event>, i: nat, p: Path) returns (r: nat, m: nat)
    requires IsRun(ss, es) && i < |es| && Leaves(ss, es, i, p)
    requires ss[i].worker.Unlinking? && ss[i].worker.flight.job.kind == Jobs.DiscoverKind
    ensures r < m < i && IsHandling(ss, es, r, m) && NoCrash(es, r, i)
    ensures ss[r].jobs[0] == ss[i].worker.flight && es[r].children == ss[i].worker.children
    ensures es[m].outcome == None
  {
    m := RemovalWasDecided(ss, es, i);
    r := HandlingSince(ss, es, m);
    ProgressIsSaves(ss, es, r, m);
    assert StepAt(ss, es, m);
  }

  /** Each artifact on these pages that some pattern suits has its job still there. */
  ghost predicate AllFoundOutlive(ss: seq<State>, i: nat, dir: string, x: Situation, pages: seq<int>)
    requires i + 1 < |ss| && x.Configured()
  {
    forall a, pattern :: Listed(x.fetch, pages, a) && Suits(a, pattern, x.PatternRules(), x.submatch) ==>
      OutlivesStep(ss, i, Jobs.FileName(dir, Jobs.Artifact(a.run, a.id)))
  }

  /**
   Discovery hands over durably. When the file of a discovery job leaves the directory, the handler that let it go, in
   the same process, had read every page to the last, if repository and workflow are configured; and each valid,
   unexpired artifact that a pattern matches has its job on disk, then, after the removal, and after a crash right then.
   */
  lemma DiscoveryIsDurable(
    ss: seq<State>, es: seq<Event>, dir: string, met: nat -> Situation, i: nat, p: Path)
    returns (r: nat, pages: seq<int>)
    requires IsRun(ss, es) && HandlersOnly(ss, es, dir, met) && i < |es| && Leaves(ss, es, i, p)
    requires ss[i].worker.Unlinking? && ss[i].worker.flight.job.kind == Jobs.DiscoverKind
    ensures r < i && NoCrash(es, r, i) && ss[r].jobs != [] && ss[r].jobs[0] == ss[i].worker.flight
    ensures met(r).Configured() ==>
              IsPageChain(met(r).fetch, 0, pages) && AllFoundOutlive(ss, i, dir, met(r), pages)
  {
    var m;
    r, m := WasHandled(ss, es, i, p);
    pages := [];
    if met(r).Configured() {
      assert IsOwnDoing(es, r, m, dir, met(r));
      var made :| IsHandled(met(r), made, Returned(None)) && es[r] == Receive(Children(dir, made));
      pages := FoundOutlives(ss, es, i, p, dir, met(r), made);
    }
  }

  /** A handler that returned nil had read all pages and asked for every job wanted. */
  lemma FoundOutlives(
    ss: seq<State>, es: seq<Event>, i: nat, p: Path, dir: string, x: Situation, made: seq<Attempt>)
    returns (pages: seq<int>)
    requires IsRun(ss, es) && i < |es| && Leaves(ss, es, i, p)
    requires ss[i].worker.Unlinking? && ss[i].worker.children == Children(dir, made)
    requires x.Configured() && IsHandled(x, made, Returned(None))
    ensures IsPageChain(x.fetch, 0, pages) && AllFoundOutlive(ss, i, dir, x, pages)
  {
    pages := EveryPageRead(x.fetch, x.calls);
    var artifacts := Collect(x.fetch, 0, x.calls).value.value;
    forall a, pattern | Listed(x.fetch, pages, a) && Suits(a, pattern, x.PatternRules(), x.submatch)
      ensures OutlivesStep(ss, i, Jobs.FileName(dir, Jobs.Artifact(a.run, a.id)))
    {
      WantedIffSuits(a, pattern, x.PatternRules(), x.run, x.submatch);
      var w := Wanted(a, pattern, x.PatternRules(), x.run, x.submatch).value;
      WantedOutlives(ss, es, i, p, dir, x, made, artifacts, a, pattern, w.0, w.1);
    }
  }

  lemma WantedOutlives(
    ss: seq<State>, es: seq<Event>, i: nat, p: Path, dir: string, x: Situation, made: seq<Attempt>,
    artifacts: seq<GhArtifact>, a: GhArtifact, pattern: string, k: Jobs.Key, payload: Jobs.Payload)
    requires IsRun(ss, es) && i < |es| && Leaves(ss, es, i, p)
    requires ss[i].worker.Unlinking? && ss[i].worker.children == Children(dir, made)
    requires x.Configured() && IsFanOut(x, artifacts, Requests(made)) && a in artifacts
    requires Wanted(a, pattern, x.PatternRules(), x.run, x.submatch) == Some((k, payload))
    ensures OutlivesStep(ss, i, Jobs.FileName(dir, k))
  {
    FanOutIsWants(x, artifacts, Requests(made));
    var n :| 0 <= n < |artifacts| && artifacts[n] == a;
    assert Wants(artifacts, x.PatternRules(), x.run, x.submatch, (k, payload));
    var j :| 0 <= j < |made| && Requests(made)[j] == (k, payload);
    assert Children(dir, made)[j].path == Jobs.FileName(dir, k);
    assert Children(dir, made)[j] in ss[i].worker.children;
    DiscoveryHandsOver(ss, es, i, p);
  }
}
