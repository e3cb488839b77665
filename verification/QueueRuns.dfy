/**
 What holds over whole runs of the job queue: nothing is lost, the counter can be trusted, nothing is in flight twice,
 and every round ends having handled its listing.
 */
module QueueRuns {
  import opened Wrappers
  import opened Queue
  import opened Sequences
  import Errors
  import Jobs

  predicate Step(s: State, e: Event, s': State) {
    Enabled(s, e) && s' == Next(s, e)
  }

  ghost predicate StepAt(ss: seq<State>, es: seq<Event>, i: nat)
    requires i < |es| < |ss|
  {
    Step(ss[i], es[i], ss[i + 1])
  }

  /** A run from a fresh process: any directory, any interleaving, any number of crashes. */
  ghost predicate IsRun(ss: seq<State>, es: seq<Event>) {
    && |ss| == |es| + 1
    && ss[0] == Start(ss[0].files, ss[0].softDelete)
    && forall i :: 0 <= i < |es| ==> StepAt(ss, es, i)
  }

  /** A run goes on with any enabled event. */
  lemma RunExtends(ss: seq<State>, es: seq<Event>, e: Event, s': State)
    requires IsRun(ss, es) && Step(ss[|es|], e, s')
    ensures IsRun(ss + [s'], es + [e])
  {
    var ss', es' := ss + [s'], es + [e];
    forall i | 0 <= i < |es'| ensures StepAt(ss', es', i) {
      if i < |es| {
        assert StepAt(ss, es, i);
      }
    }
  }

  lemma {:induction false} Reachable(ss: seq<State>, es: seq<Event>, i: nat)
    requires IsRun(ss, es) && i < |ss|
    ensures Inv(ss[i])
    ensures i < |es| ==> Step(ss[i], es[i], ss[i + 1])
  {
    if i == 0 {
      InvStart(ss[0].files, ss[0].softDelete);
    } else {
      Reachable(ss, es, i - 1);
      InvStep(ss[i - 1], es[i - 1]);
    }
    if i < |es| {
      assert StepAt(ss, es, i);
    }
  }

  // ---------- the counter ----------

  /**
   The counter is the queued jobs plus the one being handled, one less exactly between send and add. So it never goes
   below -1, is exact whenever the ingester looks at it, and a round begins only over an empty pipeline.
   */
  lemma CounterTracksFlights(ss: seq<State>, es: seq<Event>, i: nat)
    requires IsRun(ss, es) && i < |ss|
    ensures var s := ss[i];
            && s.inFlight >= -1
            && (s.inFlight == -1 ==> s.ingester.Counting? && s.jobs == [] && s.worker.Idle?)
            && s.inFlight == |s.jobs| + (if s.worker.Idle? then 0 else 1) - (if s.ingester.Counting? then 1 else 0)
            && (s.ingester.Waiting? && s.inFlight <= 0 ==> Pipeline(s) == [])
            && (s.ingester.Listing? ==> Pipeline(s) == [])
  {
    Reachable(ss, es, i);
  }

  // ---------- nothing in flight twice ----------

  /**
   In every reachable state the paths being handled, queued, about to be queued and still to be visited are pairwise
   distinct, and the job files still to be visited are on disk. So a visited file is always there to be loaded, and it
   is not one that is in flight already.
   */
  lemma NeverInFlightTwice(ss: seq<State>, es: seq<Event>, i: nat)
    requires IsRun(ss, es) && i < |ss|
    ensures NoDuplicates(Pipeline(ss[i]))
    ensures forall p :: p in Todo(ss[i]) && Jobs.IsJson(p) ==> p in ss[i].files
    ensures i < |es| && es[i].Load? ==>
              && ss[i].ingester.Walking? && ss[i].ingester.todo != []
              && ss[i].ingester.todo[0] in ss[i].files
              && forall f :: f in Flights(ss[i]) ==> f.job.path != ss[i].ingester.todo[0]
  {
    Reachable(ss, es, i);
    if i < |es| && es[i].Load? {
      var s := ss[i];
      var p := Todo(s)[0];
      assert p in Todo(s);
      assert Pipeline(s)[|Flights(s)|] == p;
      forall f | f in Flights(s) ensures f.job.path != p {
        var k :| 0 <= k < |Flights(s)| && Flights(s)[k] == f;
        assert Pipeline(s)[k] == f.job.path;
      }
    }
  }

  // ---------- no work is lost ----------

  /** What the event writes at `p`, if it does. */
  function WrittenAt(s: State, e: Event, p: Path): Option<Jobs.File> {
    if e.Write? && e.path == p then Some(e.file)
    else if e.SaveChild? && e.saved && s.worker.Handling? && s.worker.next < |s.worker.children|
            && s.worker.children[s.worker.next].path == p then
      Some(s.worker.children[s.worker.next].file)
    else None
  }

  /** The last thing written at `p` by events `k` to `i`, or `base` when nothing was. */
  function LastWritten(ss: seq<State>, es: seq<Event>, k: nat, i: nat, p: Path, base: Jobs.File): Jobs.File
    requires k <= i <= |es| < |ss|
  {
    if k == i then base
    else
      var w := WrittenAt(ss[i - 1], es[i - 1], p);
      if w.Some? then w.value else LastWritten(ss, es, k, i - 1, p, base)
  }

  ghost predicate Unwritten(ss: seq<State>, es: seq<Event>, k: nat, i: nat, p: Path)
    requires k <= i <= |es| < |ss|
  {
    forall m :: k <= m < i ==> WrittenAt(ss[m], es[m], p) == None
  }

  lemma {:induction false} UnwrittenKeepsBase(
    ss: seq<State>, es: seq<Event>, k: nat, i: nat, p: Path, base: Jobs.File)
    requires k <= i <= |es| < |ss|
    requires Unwritten(ss, es, k, i, p)
    ensures LastWritten(ss, es, k, i, p, base) == base
  {
    if k < i {
      UnwrittenKeepsBase(ss, es, k, i - 1, p, base);
    }
  }

  lemma FileStep(s: State, e: Event, p: Path)
    requires Enabled(s, e) && Jobs.IsJson(p) && p in Next(s, e).files
    ensures WrittenAt(s, e, p).Some? ==> Next(s, e).files[p] == WrittenAt(s, e, p).value
    ensures WrittenAt(s, e, p) == None ==> p in s.files && Next(s, e).files[p] == s.files[p]
  {}

  /** A job file on disk holds the last thing written to it. */
  lemma {:induction false} DiskHoldsLastWrite(ss: seq<State>, es: seq<Event>, k: nat, i: nat, p: Path)
    requires IsRun(ss, es) && k <= i <= |es| && Jobs.IsJson(p)
    requires p in ss[k].files && p in ss[i].files
    ensures ss[i].files[p] == LastWritten(ss, es, k, i, p, ss[k].files[p])
  {
    if k < i {
      assert StepAt(ss, es, i - 1);
      FileStep(ss[i - 1], es[i - 1], p);
      if WrittenAt(ss[i - 1], es[i - 1], p) == None {
        DiskHoldsLastWrite(ss, es, k, i - 1, p);
      }
    }
  }

  ghost predicate NoCrash(es: seq<Event>, k: nat, i: nat)
    requires k <= i <= |es|
  {
    forall m :: k <= m < i ==> !es[m].Crash?
  }

  /** Event `k` loaded this very flight, from the file then on disk. */
  ghost predicate LoadedAt(ss: seq<State>, es: seq<Event>, k: nat, f: Flight)
    requires k < |es| < |ss|
  {
    && es[k].Load?
    && ss[k].ingester.Walking? && ss[k].ingester.todo != []
    && ss[k].ingester.todo[0] == f.job.path
    && f.job.path in ss[k].files
    && f.source == ss[k].files[f.job.path]
    && f == Loaded(ss[k], f.job.path, es[k].readable)
  }

  /** Event `m` is the handler's return: nil, or an error tree with a non-retryable node. */
  ghost predicate DecidedAt(ss: seq<State>, es: seq<Event>, m: nat, f: Flight)
    requires m < |es| < |ss|
  {
    && es[m].Finish?
    && ss[m].worker.Handling?
    && ss[m].worker.flight == f
    && Errors.Removes(es[m].outcome)
  }

  lemma FlightsStep(s: State, e: Event, f: Flight)
    requires Enabled(s, e) && f in Flights(Next(s, e))
    ensures !e.Crash?
    ensures f in Flights(s) || (e.Load? && f == Loaded(s, Todo(s)[0], e.readable))
  {
    if WithinRound(e) {
      PipelineStep(s, e);
    }
  }

  lemma {:induction false} FlightWasLoaded(ss: seq<State>, es: seq<Event>, i: nat, f: Flight)
    returns (k: nat)
    requires IsRun(ss, es) && i < |ss|
    requires f in Flights(ss[i])
    ensures k < i && LoadedAt(ss, es, k, f) && NoCrash(es, k, i)
  {
    if i == 0 {
      assert false;
    } else {
      assert StepAt(ss, es, i - 1);
      FlightsStep(ss[i - 1], es[i - 1], f);
      if f in Flights(ss[i - 1]) {
        k := FlightWasLoaded(ss, es, i - 1, f);
      } else {
        k := i - 1;
        NeverInFlightTwice(ss, es, k);
        Jobs.ParseFacts(Todo(ss[k])[0], OnDisk(ss[k], Todo(ss[k])[0]));
      }
    }
  }

  lemma UnlinkingStep(s: State, e: Event)
    requires Enabled(s, e) && Next(s, e).worker.Unlinking?
    ensures !e.Crash?
    ensures e.Finish? ==> s.worker.Handling? && Errors.Removes(e.outcome)
    ensures !e.Finish? ==> s.worker.Unlinking?
    ensures s.worker.flight == Next(s, e).worker.flight && s.worker.children == Next(s, e).worker.children
  {}

  lemma {:induction false} RemovalWasDecided(ss: seq<State>, es: seq<Event>, i: nat)
    returns (m: nat)
    requires IsRun(ss, es) && i < |ss|
    requires ss[i].worker.Unlinking?
    ensures m < i && DecidedAt(ss, es, m, ss[i].worker.flight) && NoCrash(es, m, i)
    ensures ss[m].worker.children == ss[i].worker.children
  {
    if i == 0 {
      assert false;
    } else {
      assert StepAt(ss, es, i - 1);
      UnlinkingStep(ss[i - 1], es[i - 1]);
      if es[i - 1].Finish? {
        m := i - 1;
      } else {
        m := RemovalWasDecided(ss, es, i - 1);
      }
    }
  }

  lemma LeavingStep(s: State, e: Event, p: Path)
    requires Enabled(s, e) && Jobs.IsJson(p)
    requires p in s.files && p !in Next(s, e).files
    ensures e == Unlink(true) && s.worker.Unlinking? && s.worker.flight.job.path == p
  {}

  ghost predicate Leaves(ss: seq<State>, es: seq<Event>, i: nat, p: Path)
    requires i < |es| < |ss|
  {
    Jobs.IsJson(p) && p in ss[i].files && p !in ss[i + 1].files
  }

  /**
   No work is lost. A job file leaves the directory only by the worker's unlink, for a job loaded from that very path
   earlier in the same process. Either the load had failed, or the job's handler has returned nil or an error tree with
   a non-retryable node. What is removed is the last thing written there since the load.
   */
  lemma NothingLost(ss: seq<State>, es: seq<Event>, i: nat, p: Path)
    returns (k: nat, m: nat)
    requires IsRun(ss, es) && i < |es| && Leaves(ss, es, i, p)
    ensures es[i] == Unlink(true) && ss[i].worker.Unlinking?
    ensures var f := ss[i].worker.flight;
            && f.job.path == p
            && k < m < i && NoCrash(es, k, i)
            && LoadedAt(ss, es, k, f)
            && DecidedAt(ss, es, m, f)
            && (f.job.kind == Jobs.CleanupKind ==> !es[k].readable || Jobs.Parse(p, f.source).Err?)
            && (f.job.kind != Jobs.CleanupKind ==> Jobs.Parse(p, f.source) == Ok(f.job))
            && ss[i].files[p] == LastWritten(ss, es, k, i, p, f.source)
  {
    assert StepAt(ss, es, i);
    LeavingStep(ss[i], es[i], p);
    m := RemovalWasDecided(ss, es, i);
    var f := ss[i].worker.flight;
    assert Flights(ss[m])[0] == f;
    k := FlightWasLoaded(ss, es, m, f);
    Jobs.ParseFacts(p, f.source);
    DiskHoldsLastWrite(ss, es, k, i, p);
  }

  /** If nobody writes that path between load and removal, the payload removed is the payload handled. */
  lemma HandledPayloadIsRemoved(ss: seq<State>, es: seq<Event>, i: nat, p: Path)
    returns (k: nat)
    requires IsRun(ss, es) && i < |es| && Leaves(ss, es, i, p)
    ensures ss[i].worker.Unlinking?
    ensures k < i && LoadedAt(ss, es, k, ss[i].worker.flight) && NoCrash(es, k, i)
    ensures Unwritten(ss, es, k, i, p) ==> ss[i].files[p] == ss[i].worker.flight.source
  {
    var m: nat;
    k, m := NothingLost(ss, es, i, p);
    if Unwritten(ss, es, k, i, p) {
      UnwrittenKeepsBase(ss, es, k, i, p, ss[i].worker.flight.source);
    }
  }

  // ---------- discovery hands its work over ----------

  /**
   When the file of a discovery job leaves the directory, each child its handler set out to save is on disk, in that
   state and in the next. So a crash at any point leaves the parent or all of its children.
   */
  lemma DiscoveryHandsOver(ss: seq<State>, es: seq<Event>, i: nat, p: Path)
    requires IsRun(ss, es) && i < |es| && Leaves(ss, es, i, p)
    ensures ss[i].worker.Unlinking? && ss[i].worker.flight.job.path == p
    ensures forall c :: c in ss[i].worker.children ==>
              && c.path in ss[i].files
              && c.path in ss[i + 1].files
              && c.path in Next(ss[i + 1], Crash).files
  {
    assert StepAt(ss, es, i);
    LeavingStep(ss[i], es[i], p);
    Reachable(ss, es, i);
  }

  // ---------- a round ends, and handles its listing ----------

  /** Names a walk hands to the worker. */
  function JsonOnly(names: seq<Path>): seq<Path> {
    if names == [] then []
    else (if Jobs.IsJson(names[0]) then [names[0]] else []) + JsonOnly(names[1..])
  }

  /** Loaded jobs whose handler has not returned yet. */
  function Unhandled(s: State): seq<Flight> {
    (if s.worker.Handling? then [s.worker.flight] else []) + s.jobs
    + (if s.ingester.Sending? then [s.ingester.flight] else [])
  }

  /** Paths whose handler is still to return in this round, in order. */
  function Pending(s: State): seq<Path> {
    Paths(Unhandled(s)) + JsonOnly(Todo(s))
  }

  ghost predicate RoundOver(s: State) {
    s.ingester.Waiting? && s.jobs == [] && s.worker.Idle?
  }

  ghost predicate OneRound(es: seq<Event>, i: nat, j: nat)
    requires i <= j <= |es|
  {
    forall m :: i <= m < j ==> WithinRound(es[m])
  }

  function HandledBy(s: State, e: Event): seq<Path> {
    if e.Finish? && s.worker.Handling? then [s.worker.flight.job.path] else []
  }

  /** The paths whose handlers returned during events `i` to `j`, in order. */
  function Handled(ss: seq<State>, es: seq<Event>, i: nat, j: nat): seq<Path>
    requires i <= j <= |es| < |ss|
  {
    if i == j then [] else Handled(ss, es, i, j - 1) + HandledBy(ss[j - 1], es[j - 1])
  }

  /** The worker's flight is either the first unhandled one or already handled. */
  lemma FlightsSplit(s: State)
    ensures Flights(s) == (if s.worker.Idle? || s.worker.Handling? then [] else [s.worker.flight]) + Unhandled(s)
  {}

  lemma HandlerReturns(s: State, e: Event)
    requires Enabled(s, e) && e.Finish?
    ensures Unhandled(s) == [s.worker.flight] + Unhandled(Next(s, e))
  {}

  lemma UnhandledStep(s: State, e: Event)
    requires Enabled(s, e) && WithinRound(e)
    ensures e.Finish? ==> Unhandled(s) == [s.worker.flight] + Unhandled(Next(s, e))
    ensures e.Load? ==> Unhandled(Next(s, e)) == Unhandled(s) + [Loaded(s, Todo(s)[0], e.readable)]
    ensures !e.Finish? && !e.Load? ==> Unhandled(Next(s, e)) == Unhandled(s)
  {
    if e.Finish? {
      HandlerReturns(s, e);
    } else {
      PipelineStep(s, e);
      FlightsSplit(s);
      FlightsSplit(Next(s, e));
    }
  }

  lemma LoadKeepsPending(s: State, e: Event)
    requires Enabled(s, e) && e.Load?
    ensures Pending(Next(s, e)) == Pending(s)
  {
    UnhandledStep(s, e);
    Jobs.ParseFacts(Todo(s)[0], OnDisk(s, Todo(s)[0]));
    PathsGrow(Unhandled(s), Loaded(s, Todo(s)[0], e.readable));
    assert Todo(s)[1..] == Todo(Next(s, e));
    Regroup(Paths(Unhandled(s)), [Todo(s)[0]], JsonOnly(Todo(Next(s, e))));
  }

  lemma ReturnAdvancesPending(s: State, e: Event)
    requires Enabled(s, e) && e.Finish?
    ensures Pending(s) == HandledBy(s, e) + Pending(Next(s, e))
  {
    HandlerReturns(s, e);
    TodoStep(s, e);
    PathsOfFirst(s.worker.flight, Unhandled(Next(s, e)));
    Regroup(HandledBy(s, e), Paths(Unhandled(Next(s, e))), JsonOnly(Todo(s)));
  }

  lemma PendingStep(s: State, e: Event)
    requires Enabled(s, e) && WithinRound(e)
    ensures Pending(s) == HandledBy(s, e) + Pending(Next(s, e))
  {
    if e.Load? {
      LoadKeepsPending(s, e);
    } else if e.Finish? {
      ReturnAdvancesPending(s, e);
    } else {
      UnhandledStep(s, e);
      TodoStep(s, e);
      if e.Skip? {
        assert Todo(s)[1..] == Todo(Next(s, e));
      }
    }
  }

  lemma PendingStepAt(ss: seq<State>, es: seq<Event>, i: nat)
    requires IsRun(ss, es) && i < |es| && WithinRound(es[i])
    ensures Pending(ss[i]) == HandledBy(ss[i], es[i]) + Pending(ss[i + 1])
  {
    assert StepAt(ss, es, i);
    PendingStep(ss[i], es[i]);
  }

  /** Within a round, what has been handled followed by what is pending never changes. */
  lemma {:induction false} HandledThenPending(ss: seq<State>, es: seq<Event>, i: nat, j: nat)
    requires IsRun(ss, es) && i <= j <= |es| && OneRound(es, i, j)
    ensures Handled(ss, es, i, j) + Pending(ss[j]) == Pending(ss[i])
  {
    if i < j {
      HandledThenPending(ss, es, i, j - 1);
      PendingStepAt(ss, es, j - 1);
      Regroup(Handled(ss, es, i, j - 1), HandledBy(ss[j - 1], es[j - 1]), Pending(ss[j]));
    }
  }

  lemma {:induction false} JsonOnlyOnce(names: seq<Path>)
    requires NoDuplicates(names)
    ensures forall p :: multiset(JsonOnly(names))[p] == if p in names && Jobs.IsJson(p) then 1 else 0
  {
    if names != [] {
      assert names == [names[0]] + names[1..];
      JsonOnlyOnce(names[1..]);
    }
  }

  /** From a listing to the end of its round, the handlers return for its job files in the order listed. */
  lemma HandledIsListing(ss: seq<State>, es: seq<Event>, i: nat, j: nat)
    requires IsRun(ss, es) && i < j <= |es|
    requires es[i].List? && OneRound(es, i + 1, j) && RoundOver(ss[j])
    ensures NoDuplicates(es[i].names)
    ensures Handled(ss, es, i + 1, j) == JsonOnly(es[i].names)
  {
    var handled := Handled(ss, es, i + 1, j);
    assert NoDuplicates(es[i].names) && Pending(ss[i + 1]) == JsonOnly(es[i].names) by {
      PendingAfterListing(ss, es, i);
    }
    assert handled + Pending(ss[j]) == Pending(ss[i + 1]) by {
      HandledThenPending(ss, es, i + 1, j);
    }
    assert Pending(ss[j]) == [] by {
      PendingAtEnd(ss[j]);
    }
    NothingAppended(handled);
  }

  /**
   A round that has ended has handled each job file of its listing exactly once, in the order listed, and nothing else,
   however many files were saved meanwhile.
   */
  lemma RoundHandlesListing(ss: seq<State>, es: seq<Event>, i: nat, j: nat)
    requires IsRun(ss, es) && i < j <= |es|
    requires es[i].List? && OneRound(es, i + 1, j) && RoundOver(ss[j])
    ensures Handled(ss, es, i + 1, j) == JsonOnly(es[i].names)
    ensures forall p :: multiset(Handled(ss, es, i + 1, j))[p] == if p in es[i].names && Jobs.IsJson(p) then 1 else 0
  {
    HandledIsListing(ss, es, i, j);
    JsonOnlyOnce(es[i].names);
  }

  lemma NothingAppended(a: seq<Path>)
    ensures a + [] == a
  {}

  lemma PendingAfterListing(ss: seq<State>, es: seq<Event>, i: nat)
    requires IsRun(ss, es) && i < |es| && es[i].List?
    ensures NoDuplicates(es[i].names)
    ensures Pending(ss[i + 1]) == JsonOnly(es[i].names)
  {
    Reachable(ss, es, i);
    PendingAtStart(ss[i], es[i]);
  }

  lemma PendingAtStart(s: State, e: Event)
    requires Inv(s) && Enabled(s, e) && e.List?
    ensures Pending(Next(s, e)) == JsonOnly(e.names)
  {
    assert Unhandled(Next(s, e)) == [];
    assert Paths([]) == [];
  }

  lemma PendingAtEnd(s: State)
    requires RoundOver(s)
    ensures Pending(s) == []
  {
    assert Unhandled(s) == [];
  }

  /** Steps of the process itself; webhooks, temporary files, the ticker and restarts come from outside. */
  predicate OwnStep(e: Event) {
    !e.Write? && !e.Scratch? && !e.Tick? && !e.List? && !e.Crash?
  }

  function IngesterLeft(g: Ingester, each: nat): nat {
    match g
    case Waiting => 0
    case Listing => 0
    case Walking(todo) => 1 + |todo| * each
    case Sending(_, todo) => each + |todo| * each
    case Counting(todo) => 2 + |todo| * each
  }

  function WorkerLeft(w: Worker): nat {
    match w
    case Idle => 0
    case Handling(_, children, next, _) => (if next <= |children| then |children| - next else 0) + 6
    case Unlinking(_, _, left) => left + 1
    case Finished(_) => 1
  }

  /** Upper bound on the process's own steps left in the round when no handler saves more than `most` children. */
  function Remaining(s: State, most: nat): nat {
    IngesterLeft(s.ingester, 10 + most) + |s.jobs| * (7 + most) + WorkerLeft(s.worker)
  }

  lemma OneLess(n: nat, each: nat)
    ensures (n + 1) * each == n * each + each
  {}

  lemma RemainingShrinks(s: State, e: Event, most: nat)
    requires Enabled(s, e) && Inv(s) && WithinRound(e)
    requires e.Receive? ==> |e.children| <= most
    ensures OwnStep(e) ==> Remaining(Next(s, e), most) < Remaining(s, most)
    ensures !OwnStep(e) ==> Remaining(Next(s, e), most) == Remaining(s, most)
  {
    var s' := Next(s, e);
    if e.Skip? || e.Load? {
      OneLess(|Todo(s')|, 10 + most);
    } else if e.Send? {
      OneLess(|s.jobs|, 7 + most);
    } else if e.Receive? {
      OneLess(|s'.jobs|, 7 + most);
      assert WorkerLeft(s'.worker) == |e.children| + 6;
    }
  }

  function OwnSteps(es: seq<Event>, i: nat, j: nat): nat
    requires i <= j <= |es|
  {
    if i == j then 0 else OwnSteps(es, i, j - 1) + if OwnStep(es[j - 1]) then 1 else 0
  }

  /** A round is finite: the process takes at most this many steps in it, whatever is saved from outside. */
  lemma {:induction false} RoundIsFinite(ss: seq<State>, es: seq<Event>, i: nat, j: nat, most: nat)
    requires IsRun(ss, es) && i <= j <= |es| && OneRound(es, i, j)
    requires forall m :: i <= m < j && es[m].Receive? ==> |es[m].children| <= most
    ensures OwnSteps(es, i, j) + Remaining(ss[j], most) <= Remaining(ss[i], most)
  {
    if i < j {
      RoundIsFinite(ss, es, i, j - 1, most);
      Reachable(ss, es, j - 1);
      RemainingShrinks(ss[j - 1], es[j - 1], most);
    }
  }

  /** Never stuck: until the round is over the process has a step of its own, even with the channel full. */
  lemma RoundAdvances(ss: seq<State>, es: seq<Event>, i: nat)
    returns (e: Event)
    requires IsRun(ss, es) && i < |ss|
    requires !RoundOver(ss[i]) && !ss[i].ingester.Listing?
    ensures Enabled(ss[i], e) && OwnStep(e)
  {
    Reachable(ss, es, i);
    var s := ss[i];
    match s.worker {
      case Idle =>
        if s.jobs != [] {
          e := Receive([]);
        } else {
          e := IngesterAdvances(s);
        }
      case Handling(_, children, next, failed) =>
        if next < |children| {
          e := SaveChild(true);
        } else if failed {
          e := Finish(Some(Errors.Plain("save failed")));
        } else {
          e := Finish(None);
        }
      case Unlinking(_, _, _) => e := Unlink(true);
      case Finished(_) => e := Sub;
    }
  }

  lemma IngesterAdvances(s: State) returns (e: Event)
    requires Inv(s) && s.jobs == [] && !s.ingester.Waiting? && !s.ingester.Listing?
    ensures Enabled(s, e) && OwnStep(e)
  {
    match s.ingester {
      case Walking(todo) =>
        if todo == [] {
          e := EndWalk;
        } else if Jobs.IsJson(todo[0]) {
          assert todo[0] in Todo(s);
          e := Load(true);
        } else {
          e := Skip;
        }
      case Sending(_, _) => e := Send;
      case Counting(_) => e := Add;
    }
  }
}
