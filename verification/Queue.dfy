/**
 The crash-safe job queue as a labelled transition system (server/scheduler.go, server/server.go, server/remove.go).

 The jobs directory, the bounded channel, the in-flight counter, the ingesting goroutine and the worker goroutine are
 separate parts of the state, and every event is one step of one of them, so all interleavings are there. What the
 outside decides (what a webhook saves, whether a read or an unlink works, a handler's result) is carried by the event;
 given the event, the next state is determined.
 */
module Queue {
  import opened Wrappers
  import opened Sequences
  import Errors
  import Jobs

  type Path = string

  /** The buffer of `Server.jobs`. */
  const CAPACITY: nat := 100

  /** A loaded job on its way to the worker. `source` is what was on disk when it was loaded: bookkeeping only. */
  datatype Flight = Flight(job: Jobs.Job, source: Jobs.File)

  /** A file the discovery handler is about to save. */
  datatype Child = Child(path: Path, file: Jobs.File)

  /** Where `schedulerIngestJobs` stands. */
  datatype Ingester =
    | Waiting                                     // for the ticker
    | Listing                                     // past the counter check, directory not read yet
    | Walking(todo: seq<Path>)                    // between two callbacks of the walk
    | Sending(flight: Flight, todo: seq<Path>)    // loaded, blocked on or about to do the channel send
    | Counting(todo: seq<Path>)                   // sent, counter not incremented yet

  /** Where the worker loop stands. */
  datatype Worker =
    | Idle
    | Handling(flight: Flight, children: seq<Child>, next: nat, failed: bool)
    | Unlinking(flight: Flight, children: seq<Child>, left: nat)   // `left` system calls that may take the file away
    | Finished(flight: Flight)                                     // only the deferred decrement remains

  datatype State = State(
    files: map<Path, Jobs.File>,
    softDelete: bool,
    inFlight: int,
    jobs: seq<Flight>,
    ingester: Ingester,
    worker: Worker)

  datatype Event =
    | Write(path: Path, file: Jobs.File)                    // a webhook's atomic Save
    | Scratch(path: Path, content: Option<Jobs.File>)       // temporary files beside the job files come and go
    | Tick
    | List(names: seq<Path>)
    | Skip
    | Load(readable: bool)
    | EndWalk
    | Send
    | Add
    | Receive(children: seq<Child>)
    | SaveChild(saved: bool)
    | Finish(outcome: Option<Errors.Error>)
    | Unlink(gone: bool)
    | Sub
    | Crash

  // ---------- one step ----------

  function OnDisk(s: State, p: Path): Jobs.File {
    if p in s.files then s.files[p] else Jobs.File(None, map[])
  }

  /** `Load`, or the cleanup job put in its place when reading or parsing fails. */
  function Loaded(s: State, p: Path, readable: bool): Flight {
    var parsed := Jobs.Parse(p, OnDisk(s, p));
    Flight(if readable && parsed.Ok? then parsed.value else Jobs.CleanupJob(p), OnDisk(s, p))
  }

  /**
   How many system calls may take the file away once a handler is done: `SoftDelete` renames first when a
   soft-delete directory is set, and a cleanup job is removed by its handler and once more by the scheduler.
   */
  function Unlinks(s: State, k: Jobs.Kind): nat {
    (if s.softDelete then 2 else 1) * (if k == Jobs.CleanupKind then 2 else 1)
  }

  /** What a handler of each kind may return, given how far it got. */
  predicate MayFinish(w: Worker, outcome: Option<Errors.Error>)
    requires w.Handling?
  {
    match w.flight.job.kind
    case CleanupKind => outcome == None
    case DiscoverKind =>
      if outcome == None then w.next == |w.children| && !w.failed
      else Errors.FindNonRetryable(outcome.value) == None && (w.next == 0 || (w.failed && w.next == |w.children|))
    case _ => true
  }

  predicate MayReceive(f: Flight, children: seq<Child>) {
    && (f.job.kind != Jobs.DiscoverKind ==> children == [])
    && forall i :: 0 <= i < |children| ==> Jobs.IsJson(children[i].path) && children[i].path != f.job.path
  }

  predicate Enabled(s: State, e: Event) {
    match e
    case Write(p, _) => Jobs.IsJson(p)
    case Scratch(p, _) => !Jobs.IsJson(p)
    case Tick => s.ingester.Waiting?
    case List(names) => s.ingester.Listing? && NoDuplicates(names) && forall p :: p in names ==> p in s.files
    case Skip => s.ingester.Walking? && s.ingester.todo != [] && !Jobs.IsJson(s.ingester.todo[0])
    case Load(readable) =>
      && s.ingester.Walking? && s.ingester.todo != [] && Jobs.IsJson(s.ingester.todo[0])
      && (readable ==> s.ingester.todo[0] in s.files)
    case EndWalk => s.ingester == Walking([])
    case Send => s.ingester.Sending? && |s.jobs| < CAPACITY
    case Add => s.ingester.Counting?
    case Receive(children) => s.worker.Idle? && s.jobs != [] && MayReceive(s.jobs[0], children)
    case SaveChild(_) => s.worker.Handling? && s.worker.next < |s.worker.children|
    case Finish(outcome) => s.worker.Handling? && MayFinish(s.worker, outcome)
    case Unlink(_) => s.worker.Unlinking? && s.worker.left > 0
    case Sub => s.worker.Finished?
    case Crash => true
  }

  function Next(s: State, e: Event): State
    requires Enabled(s, e)
  {
    match e
    case Write(p, f) => s.(files := s.files[p := f])
    case Scratch(p, c) => s.(files := if c == None then s.files - {p} else s.files[p := c.value])
    case Tick => if s.inFlight > 0 then s else s.(ingester := Listing)
    case List(names) => s.(ingester := Walking(names))
    case Skip => s.(ingester := Walking(s.ingester.todo[1..]))
    case Load(readable) => s.(ingester := Sending(Loaded(s, s.ingester.todo[0], readable), s.ingester.todo[1..]))
    case EndWalk => s.(ingester := Waiting)
    case Send => s.(jobs := s.jobs + [s.ingester.flight], ingester := Counting(s.ingester.todo))
    case Add => s.(inFlight := s.inFlight + 1, ingester := Walking(s.ingester.todo))
    case Receive(children) => s.(jobs := s.jobs[1..], worker := Handling(s.jobs[0], children, 0, false))
    case SaveChild(saved) =>
      var c := s.worker.children[s.worker.next];
      if saved then s.(files := s.files[c.path := c.file], worker := s.worker.(next := s.worker.next + 1))
      else s.(worker := s.worker.(next := s.worker.next + 1, failed := true))
    case Finish(outcome) =>
      if Errors.Removes(outcome) then
        s.(worker := Unlinking(s.worker.flight, s.worker.children, Unlinks(s, s.worker.flight.job.kind)))
      else s.(worker := Finished(s.worker.flight))
    case Unlink(gone) =>
      s.(files := if gone then s.files - {s.worker.flight.job.path} else s.files,
         worker := if s.worker.left == 1 then Finished(s.worker.flight) else s.worker.(left := s.worker.left - 1))
    case Sub => s.(inFlight := s.inFlight - 1, worker := Idle)
    case Crash => Start(s.files, s.softDelete)
  }

  /** A freshly started process over whatever the directory holds. */
  function Start(files: map<Path, Jobs.File>, softDelete: bool): State {
    State(files, softDelete, 0, [], Waiting, Idle)
  }

  // ---------- what is on its way ----------

  function Todo(s: State): seq<Path> {
    match s.ingester
    case Waiting => []
    case Listing => []
    case Walking(todo) => todo
    case Sending(_, todo) => todo
    case Counting(todo) => todo
  }

  /** Every job loaded and not yet let go, the worker's first. */
  function Flights(s: State): seq<Flight> {
    (if s.worker.Idle? then [] else [s.worker.flight]) + s.jobs
    + (if s.ingester.Sending? then [s.ingester.flight] else [])
  }

  function Paths(fs: seq<Flight>): seq<Path> {
    seq(|fs|, i requires 0 <= i < |fs| => fs[i].job.path)
  }

  /** The whole round in order: being handled, queued, about to be queued, still to be visited. */
  function Pipeline(s: State): seq<Path> {
    Paths(Flights(s)) + Todo(s)
  }

  // ---------- the invariant ----------

  ghost predicate CounterExact(s: State) {
    s.inFlight == |s.jobs| + (if s.worker.Idle? then 0 else 1) - (if s.ingester.Counting? then 1 else 0)
  }

  ghost predicate FlightWellFormed(f: Flight) {
    && Jobs.IsJson(f.job.path)
    && (f.job == Jobs.CleanupJob(f.job.path) || Jobs.Parse(f.job.path, f.source) == Ok(f.job))
  }

  /** A discovery handler keeps its saved children on disk; once it may remove its parent, all of them are. */
  ghost predicate ChildrenKept(s: State) {
    && (s.worker.Handling? ==>
          && s.worker.next <= |s.worker.children|
          && (s.worker.failed ==> s.worker.next > 0)
          && MayReceive(s.worker.flight, s.worker.children)
          && (!s.worker.failed ==> forall i :: 0 <= i < s.worker.next ==> s.worker.children[i].path in s.files))
    && (s.worker.Unlinking? ==>
          && MayReceive(s.worker.flight, s.worker.children)
          && 0 < s.worker.left <= 4
          && forall i :: 0 <= i < |s.worker.children| ==> s.worker.children[i].path in s.files)
  }

  ghost predicate Inv(s: State) {
    && |s.jobs| <= CAPACITY
    && CounterExact(s)
    && (s.ingester.Listing? ==> s.jobs == [] && s.worker.Idle?)
    && NoDuplicates(Pipeline(s))
    && (forall p :: p in Todo(s) && Jobs.IsJson(p) ==> p in s.files)
    && (forall f :: f in Flights(s) ==> FlightWellFormed(f))
    && ChildrenKept(s)
  }

  lemma NoDuplicatesTail<T>(a: seq<T>, b: seq<T>, x: T)
    requires NoDuplicates(a + [x] + b)
    ensures NoDuplicates(a + b)
  {
    var s, t := a + [x] + b, a + b;
    forall i, j | 0 <= i < j < |t| ensures t[i] != t[j] {
      assert t[i] == s[if i < |a| then i else i + 1];
      assert t[j] == s[if j < |a| then j else j + 1];
    }
  }

  /** The events of the round at hand: everything but a new listing and a restart. */
  predicate WithinRound(e: Event) {
    !e.List? && !e.Crash?
  }

  /**
   Within a round jobs only move along the pipeline: its sequence of paths stays, except that a name that is no job
   file is passed over, and that the worker lets go of the first job.
   */
  lemma PipelineStep(s: State, e: Event)
    requires Enabled(s, e) && WithinRound(e)
    ensures e.Skip? ==>
              && Flights(Next(s, e)) == Flights(s)
              && Todo(s) == [Todo(s)[0]] + Todo(Next(s, e))
    ensures e.Sub? ==> Flights(s) == [s.worker.flight] + Flights(Next(s, e)) && Todo(Next(s, e)) == Todo(s)
    ensures e.Load? ==>
              && Flights(Next(s, e)) == Flights(s) + [Loaded(s, Todo(s)[0], e.readable)]
              && Todo(s) == [Todo(s)[0]] + Todo(Next(s, e))
    ensures !e.Skip? && !e.Sub? && !e.Load? ==> Flights(Next(s, e)) == Flights(s) && Todo(Next(s, e)) == Todo(s)
  {
    TodoStep(s, e);
    if e.Send? || e.Receive? {
      HandOn(s, e);
    } else if e.Load? {
      Append(s, e);
    } else if e.Sub? {
      LetGo(s);
    } else {
      StayPut(s, e);
    }
  }

  lemma HandOn(s: State, e: Event)
    requires Enabled(s, e) && (e.Send? || e.Receive?)
    ensures Flights(Next(s, e)) == Flights(s)
  {
    if e.Receive? {
      assert s.jobs == [s.jobs[0]] + s.jobs[1..];
    }
  }

  lemma Append(s: State, e: Event)
    requires Enabled(s, e) && e.Load?
    ensures Flights(Next(s, e)) == Flights(s) + [Loaded(s, Todo(s)[0], e.readable)]
  {}

  lemma LetGo(s: State)
    requires Enabled(s, Sub)
    ensures Flights(s) == [s.worker.flight] + Flights(Next(s, Sub))
  {}

  lemma StayPut(s: State, e: Event)
    requires Enabled(s, e) && WithinRound(e)
    requires !e.Send? && !e.Receive? && !e.Load? && !e.Sub?
    ensures Flights(Next(s, e)) == Flights(s)
  {
    var s' := Next(s, e);
    assert s'.jobs == s.jobs;
    assert s'.worker.Idle? == s.worker.Idle?;
    assert !s.worker.Idle? ==> s'.worker.flight == s.worker.flight;
    assert !s.ingester.Sending? || s'.ingester == s.ingester;
  }

  lemma TodoStep(s: State, e: Event)
    requires Enabled(s, e) && WithinRound(e)
    ensures if e.Skip? || e.Load? then Todo(s) == [Todo(s)[0]] + Todo(Next(s, e)) else Todo(Next(s, e)) == Todo(s)
  {}

  lemma PathsGrow(fs: seq<Flight>, f: Flight)
    ensures Paths(fs + [f]) == Paths(fs) + [f.job.path]
  {}

  lemma PathsOfFirst(f: Flight, fs: seq<Flight>)
    ensures Paths([f] + fs) == [f.job.path] + Paths(fs)
  {}

  lemma SkipShrinks(s: State)
    requires Enabled(s, Skip)
    ensures Pipeline(s) == Paths(Flights(s)) + [Todo(s)[0]] + Todo(Next(s, Skip))
    ensures Pipeline(Next(s, Skip)) == Paths(Flights(s)) + Todo(Next(s, Skip))
  {
    PipelineStep(s, Skip);
  }

  lemma SubShrinks(s: State)
    requires Enabled(s, Sub)
    ensures Pipeline(s) == [s.worker.flight.job.path] + Pipeline(Next(s, Sub))
  {
    PipelineStep(s, Sub);
    PathsOfFirst(s.worker.flight, Flights(Next(s, Sub)));
    Regroup([s.worker.flight.job.path], Paths(Flights(Next(s, Sub))), Todo(s));
  }

  lemma LoadKeeps(s: State, e: Event)
    requires Enabled(s, e) && e.Load?
    ensures Pipeline(Next(s, e)) == Pipeline(s)
  {
    PipelineStep(s, e);
    Jobs.ParseFacts(Todo(s)[0], OnDisk(s, Todo(s)[0]));
    PathsGrow(Flights(s), Loaded(s, Todo(s)[0], e.readable));
    Regroup(Paths(Flights(s)), [Todo(s)[0]], Todo(Next(s, e)));
  }

  lemma PipelineShrinks(s: State, e: Event)
    requires Enabled(s, e) && WithinRound(e)
    ensures e.Skip? ==>
              && Pipeline(s) == Paths(Flights(s)) + [Todo(s)[0]] + Todo(Next(s, e))
              && Pipeline(Next(s, e)) == Paths(Flights(s)) + Todo(Next(s, e))
    ensures e.Sub? ==> Pipeline(s) == [s.worker.flight.job.path] + Pipeline(Next(s, e))
    ensures !e.Skip? && !e.Sub? ==> Pipeline(Next(s, e)) == Pipeline(s)
  {
    if e.Skip? {
      SkipShrinks(s);
    } else if e.Sub? {
      SubShrinks(s);
    } else if e.Load? {
      LoadKeeps(s, e);
    } else {
      PipelineStep(s, e);
    }
  }

  lemma NoDuplicatesRest<T>(x: T, b: seq<T>)
    requires NoDuplicates([x] + b)
    ensures NoDuplicates(b)
  {
    NoDuplicatesTail([], b, x);
    assert [] + [x] + b == [x] + b && [] + b == b;
  }

  lemma PipelineStaysDistinct(s: State, e: Event)
    requires Enabled(s, e) && Inv(s)
    ensures NoDuplicates(Pipeline(Next(s, e)))
  {
    var s' := Next(s, e);
    if e.List? {
      assert Pipeline(s') == e.names;
    } else if e.Crash? {
      assert Pipeline(s') == [];
    } else {
      PipelineShrinks(s, e);
      if e.Skip? {
        NoDuplicatesTail(Paths(Flights(s)), Todo(s'), Todo(s)[0]);
      } else if e.Sub? {
        NoDuplicatesRest(s.worker.flight.job.path, Pipeline(s'));
      }
    }
  }

  /** The worker's file is none of those queued or still to be visited. */
  lemma WorkerPathApart(s: State)
    requires Inv(s) && !s.worker.Idle?
    ensures forall p :: p in Todo(s) ==> p != s.worker.flight.job.path
    ensures forall f :: f in s.jobs ==> f.job.path != s.worker.flight.job.path
  {
    var p0, fs := s.worker.flight.job.path, Flights(s);
    assert Pipeline(s)[0] == p0;
    forall p | p in Todo(s) ensures p != p0 {
      var i :| 0 <= i < |Todo(s)| && Todo(s)[i] == p;
      assert Pipeline(s)[|fs| + i] == p;
    }
    forall f | f in s.jobs ensures f.job.path != p0 {
      var i :| 0 <= i < |s.jobs| && s.jobs[i] == f;
      assert fs[i + 1] == f && Pipeline(s)[i + 1] == f.job.path;
    }
  }

  lemma TodoStaysOnDisk(s: State, e: Event)
    requires Enabled(s, e) && Inv(s)
    ensures forall p :: p in Todo(Next(s, e)) && Jobs.IsJson(p) ==> p in Next(s, e).files
  {
    if WithinRound(e) {
      PipelineStep(s, e);
    }
    if e.Unlink? {
      WorkerPathApart(s);
    }
  }

  lemma FlightsStayWellFormed(s: State, e: Event)
    requires Enabled(s, e) && Inv(s)
    ensures forall f :: f in Flights(Next(s, e)) ==> FlightWellFormed(f)
  {
    if WithinRound(e) {
      PipelineStep(s, e);
      if e.Load? {
        var p := Todo(s)[0];
        Jobs.ParseFacts(p, OnDisk(s, p));
        assert FlightWellFormed(Loaded(s, p, e.readable));
      } else if e.Sub? {
        assert forall f :: f in Flights(Next(s, e)) ==> f in Flights(s);
      }
    }
  }

  lemma ChildSaved(s: State, e: Event)
    requires Enabled(s, e) && Inv(s) && e.SaveChild?
    ensures ChildrenKept(Next(s, e))
  {
    assert Next(s, e).worker.children == s.worker.children;
  }

  lemma ChildrenStayKept(s: State, e: Event)
    requires Enabled(s, e) && Inv(s)
    ensures ChildrenKept(Next(s, e))
  {
    var s' := Next(s, e);
    if e.SaveChild? {
      ChildSaved(s, e);
    } else if s'.worker.Handling? && !e.Receive? {
      assert s'.worker == s.worker;
    } else if s'.worker.Unlinking? {
      assert s'.worker.children == s.worker.children;
    }
  }

  lemma InvStep(s: State, e: Event)
    requires Enabled(s, e) && Inv(s)
    ensures Inv(Next(s, e))
  {
    PipelineStaysDistinct(s, e);
    TodoStaysOnDisk(s, e);
    FlightsStayWellFormed(s, e);
    ChildrenStayKept(s, e);
  }

  lemma InvStart(files: map<Path, Jobs.File>, softDelete: bool)
    ensures Inv(Start(files, softDelete))
  {}

  /**
   What the outside does is ruled out by nothing: a save or a crash may come at any time, a tick whenever one is waited
   for, a read or an unlink may fail, and the handler of a sync job may return anything.
   */
  lemma OutsideIsFree(s: State, dir: string, k: Jobs.Key, file: Jobs.File, names: seq<Path>, failed: bool,
                      outcome: Option<Errors.Error>)
    ensures Enabled(s, Write(Jobs.FileName(dir, k), file)) && Enabled(s, Crash)
    ensures s.ingester.Waiting? ==> Enabled(s, Tick)
    ensures s.ingester.Listing? && NoDuplicates(names) && (forall p :: p in names <==> p in s.files) ==>
              Enabled(s, List(names))
    ensures s.ingester.Walking? && s.ingester.todo != [] && Jobs.IsJson(s.ingester.todo[0]) ==> Enabled(s, Load(false))
    ensures s.worker.Handling? && s.worker.next < |s.worker.children| ==> Enabled(s, SaveChild(failed))
    ensures s.worker.Unlinking? && s.worker.left > 0 ==> Enabled(s, Unlink(failed))
    ensures s.worker.Handling?
            && s.worker.flight.job.kind in {Jobs.PackageKind, Jobs.ReleaseKind, Jobs.ArtifactKind} ==>
              Enabled(s, Finish(outcome))
  {
    Jobs.FileNameIsJson(dir, k);
  }
}
