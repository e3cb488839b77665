/**
 The server object whose fields the queue's steps update in place (server/server.go, server/scheduler.go,
 server/remove.go). Each method is one atomic piece of a goroutine, the part between two points where another goroutine
 can run; its contract is the step of the transition system it takes, and the invariant it keeps.
 */
module Scheduler {
  import opened Wrappers
  import opened Queue
  import opened QueueRuns
  import opened Sequences
  import Errors
  import Jobs

  class Server {
    const softDelete: bool              // whether `cfg.SoftDelete.Jobs` is set
    var files: map<Path, Jobs.File>     // the jobs directory
    var jobInFlight: int
    var jobs: seq<Flight>               // the channel's buffer
    var ingester: Ingester              // where the ticker goroutine stands
    var worker: Worker                  // where the worker goroutine stands

    function View(): State
      reads this
    {
      State(files, softDelete, jobInFlight, jobs, ingester, worker)
    }

    ghost predicate Valid()
      reads this
    {
      Inv(View())
    }

    constructor (files: map<Path, Jobs.File>, softDelete: bool)
      ensures Valid() && View() == Start(files, softDelete)
    {
      this.files, this.softDelete := files, softDelete;
      jobInFlight, jobs := 0, [];
      ingester, worker := Waiting, Idle;
      new;
      InvStart(files, softDelete);
    }

    /** A webhook's save lands: the rename of a complete file. */
    method Save(path: Path, file: Jobs.File)
      requires Valid() && Jobs.IsJson(path)
      modifies this`files
      ensures Valid() && View() == Next(old(View()), Write(path, file))
      ensures files == old(files)[path := file]
    {
      InvStep(View(), Write(path, file));
      files := files[path := file];
    }

    /** The check at the top of `schedulerIngestJobs`. */
    method IngestTick() returns (proceeds: bool)
      requires Valid() && ingester.Waiting?
      modifies this`ingester
      ensures Valid() && View() == Next(old(View()), Tick)
      ensures proceeds <==> old(jobs) == [] && old(worker).Idle?
      ensures ingester == if proceeds then Listing else Waiting
    {
      InvStep(View(), Tick);
      if jobInFlight > 0 {
        return false;
      }
      ingester := Listing;
      return true;
    }

    /** `WalkDir` reads the directory; the entries it got are what it will visit. */
    method ReadDir(names: seq<Path>)
      requires Valid() && Enabled(View(), List(names))
      modifies this`ingester
      ensures Valid() && View() == Next(old(View()), List(names))
      ensures ingester == Walking(names)
    {
      InvStep(View(), List(names));
      ingester := Walking(names);
    }

    /** The walk's callback up to the send: pass over other extensions, load, fall back to a cleanup job. */
    method VisitEntry(readable: bool) returns (loaded: bool)
      requires Valid() && ingester.Walking? && ingester.todo != []
      modifies this`ingester
      ensures Valid()
      ensures loaded == Jobs.IsJson(old(ingester).todo[0])
      ensures View() == Next(old(View()), if loaded then Load(readable) else Skip)
      ensures !loaded ==> ingester == Walking(old(ingester).todo[1..])
      ensures loaded ==>
                var path := old(ingester).todo[0];
                && path in files
                && var parsed := Jobs.Parse(path, files[path]);
                   var job := if readable && parsed.Ok? then parsed.value else Jobs.CleanupJob(path);
                   ingester == Sending(Flight(job, files[path]), old(ingester).todo[1..])
    {
      var path, rest := ingester.todo[0], ingester.todo[1..];
      assert path in Todo(View());
      if !Jobs.IsJson(path) {
        InvStep(View(), Skip);
        ingester := Walking(rest);
        return false;
      }
      InvStep(View(), Load(readable));
      var source := files[path];
      var job := Jobs.CleanupJob(path);
      if readable {
        var parsed := Jobs.Parse(path, source);
        if parsed.Ok? {
          job := parsed.value;
        }
      }
      ingester := Sending(Flight(job, source), rest);
      return true;
    }

    method EndOfWalk()
      requires Valid() && ingester == Walking([])
      modifies this`ingester
      ensures Valid() && View() == Next(old(View()), EndWalk)
      ensures ingester == Waiting
    {
      InvStep(View(), EndWalk);
      ingester := Waiting;
    }

    /** The channel send: it goes through when the buffer has room. */
    method TrySend() returns (sent: bool)
      requires Valid() && ingester.Sending?
      modifies this`jobs, this`ingester
      ensures Valid() && sent == (|old(jobs)| < CAPACITY)
      ensures sent ==> View() == Next(old(View()), Send)
      ensures sent ==> jobs == old(jobs) + [old(ingester).flight] && ingester == Counting(old(ingester).todo)
      ensures !sent ==> View() == old(View())
    {
      if |jobs| == CAPACITY {
        return false;
      }
      InvStep(View(), Send);
      jobs, ingester := jobs + [ingester.flight], Counting(ingester.todo);
      return true;
    }

    method Count()
      requires Valid() && ingester.Counting?
      modifies this`jobInFlight, this`ingester
      ensures Valid() && View() == Next(old(View()), Add)
      ensures jobInFlight == old(jobInFlight) + 1 && ingester == Walking(old(ingester).todo)
    {
      InvStep(View(), Add);
      jobInFlight := jobInFlight + 1;
      ingester := Walking(ingester.todo);
    }

    /** The worker takes the next job; a discovery handler will save `planned`. */
    method ReceiveJob(planned: seq<Child>) returns (j: Jobs.Job)
      requires Valid() && Enabled(View(), Receive(planned))
      modifies this`jobs, this`worker
      ensures Valid() && View() == Next(old(View()), Receive(planned))
      ensures j == old(jobs)[0].job
      ensures jobs == old(jobs)[1..] && worker == Handling(old(jobs)[0], planned, 0, false)
    {
      InvStep(View(), Receive(planned));
      j := jobs[0].job;
      worker := Handling(jobs[0], planned, 0, false);
      jobs := jobs[1..];
    }

    method SaveNextChild(saved: bool)
      requires Valid() && Enabled(View(), SaveChild(saved))
      modifies this`files, this`worker
      ensures Valid() && View() == Next(old(View()), SaveChild(saved))
      ensures var w := old(worker);
              && files == (if saved then old(files)[w.children[w.next].path := w.children[w.next].file] else old(files))
              && worker == Handling(w.flight, w.children, w.next + 1, w.failed || !saved)
    {
      InvStep(View(), SaveChild(saved));
      var c := worker.children[worker.next];
      if saved {
        files := files[c.path := c.file];
        worker := Handling(worker.flight, worker.children, worker.next + 1, worker.failed);
      } else {
        worker := Handling(worker.flight, worker.children, worker.next + 1, true);
      }
    }

    /** The end of `schedulerHandleJob`: keep the file on a retryable error, otherwise go on to remove it. */
    method HandlerReturns(outcome: Option<Errors.Error>) returns (removing: bool)
      requires Valid() && Enabled(View(), Finish(outcome))
      modifies this`worker
      ensures Valid() && View() == Next(old(View()), Finish(outcome))
      ensures removing <==> outcome.None? || Errors.Visible(outcome.value)
      ensures !removing ==> worker == Finished(old(worker).flight)
      ensures removing ==>
                var f := old(worker).flight;
                worker == Unlinking(f, old(worker).children,
                                    (if softDelete then 2 else 1) * (if f.job.kind == Jobs.CleanupKind then 2 else 1))
    {
      InvStep(View(), Finish(outcome));
      if outcome.Some? {
        Errors.FindIffVisible(outcome.value);
        if Errors.FindNonRetryable(outcome.value).None? {
          worker := Finished(worker.flight);
          return false;
        }
      }
      var calls := if softDelete then 2 else 1;
      if worker.flight.job.kind == Jobs.CleanupKind {
        calls := 2 * calls;
      }
      worker := Unlinking(worker.flight, worker.children, calls);
      return true;
    }

    method UnlinkOnce(gone: bool)
      requires Valid() && worker.Unlinking?
      modifies this`files, this`worker
      ensures Valid() && View() == Next(old(View()), Unlink(gone))
      ensures files == if gone then old(files) - {old(worker).flight.job.path} else old(files)
      ensures var w := old(worker);
              worker == if w.left == 1 then Finished(w.flight) else Unlinking(w.flight, w.children, w.left - 1)
    {
      InvStep(View(), Unlink(gone));
      if gone {
        files := files - {worker.flight.job.path};
      }
      if worker.left == 1 {
        worker := Finished(worker.flight);
      } else {
        worker := Unlinking(worker.flight, worker.children, worker.left - 1);
      }
    }

    /** The deferred decrement. */
    method Release()
      requires Valid() && worker.Finished?
      modifies this`jobInFlight, this`worker
      ensures Valid() && View() == Next(old(View()), Sub)
      ensures jobInFlight == old(jobInFlight) - 1 && worker == Idle
    {
      InvStep(View(), Sub);
      jobInFlight, worker := jobInFlight - 1, Idle;
    }

    /** A temporary file beside the job files comes or goes. */
    method TouchScratch(path: Path, content: Option<Jobs.File>)
      requires Valid() && !Jobs.IsJson(path)
      modifies this`files
      ensures Valid() && View() == Next(old(View()), Scratch(path, content))
    {
      InvStep(View(), Scratch(path, content));
      files := if content == None then files - {path} else files[path := content.value];
    }

    /** The process dies and is started again: only the directory is left. */
    method Restart()
      requires Valid()
      modifies this
      ensures Valid() && View() == Next(old(View()), Crash)
      ensures files == old(files) && jobInFlight == 0 && jobs == [] && ingester == Waiting && worker == Idle
    {
      InvStep(View(), Crash);
      jobInFlight, jobs, ingester, worker := 0, [], Waiting, Idle;
    }

    /** The next atomic piece, whichever goroutine it belongs to. */
    method Perform(e: Event)
      requires Valid() && Enabled(View(), e)
      modifies this
      ensures Valid() && View() == Next(old(View()), e)
    {
      match e {
        case Write(path, file) => Save(path, file);
        case Scratch(path, content) => TouchScratch(path, content);
        case Tick => var _ := IngestTick();
        case List(names) => ReadDir(names);
        case Skip => var _ := VisitEntry(false);
        case Load(readable) => var _ := VisitEntry(readable);
        case EndWalk => EndOfWalk();
        case Send => var _ := TrySend();
        case Add => Count();
        case Receive(children) => var _ := ReceiveJob(children);
        case SaveChild(saved) => SaveNextChild(saved);
        case Finish(outcome) => var _ := HandlerReturns(outcome);
        case Unlink(gone) => UnlinkOnce(gone);
        case Sub => Release();
        case Crash => Restart();
      }
    }

    /**
     The goroutines together, for `n` turns: the schedule says whose turn it is, and a turn that cannot be taken is
     lost, as for a send on a full channel. What the object goes through is a run of the transition system, so all that
     holds of runs holds of it.
     */
    method Serve(schedule: nat -> Event, n: nat) returns (ghost ss: seq<State>, ghost es: seq<Event>)
      requires Valid() && View() == Start(files, softDelete)
      modifies this
      ensures Valid() && View() == AfterTurns(old(View()), schedule, n)
      ensures IsRun(ss, es) && ss[0] == old(View()) && ss[|es|] == View()
      ensures jobInFlight >= -1 && NoDuplicates(Pipeline(View()))
    {
      ss, es := [View()], [];
      for turn := 0 to n
        invariant Valid() && View() == AfterTurns(old(View()), schedule, turn)
        invariant IsRun(ss, es) && ss[0] == old(View()) && ss[|es|] == View()
      {
        var e := schedule(turn);
        if Enabled(View(), e) {
          RunExtends(ss, es, e, Next(View(), e));
          Perform(e);
          ss, es := ss + [View()], es + [e];
        }
      }
      CounterTracksFlights(ss, es, |es|);
    }
  }

  /** The state after `n` turns of the schedule. */
  function AfterTurns(s: State, schedule: nat -> Event, n: nat): State {
    if n == 0 then s
    else
      var before := AfterTurns(s, schedule, n - 1);
      if Enabled(before, schedule(n - 1)) then Next(before, schedule(n - 1)) else before
  }
}
