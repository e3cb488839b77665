/**
 What becomes of a job's file once its handler has returned, over whole runs: removed when the job is done or has failed
 for good, kept when it is to be retried; and what is saved stays until then.
 */
module QueueOutcomes {
  import opened Queue
  import opened QueueRuns
  import opened Wrappers
  import Errors
  import Jobs

  // ---------- files stay until they are removed ----------

  /** Event `u` takes the file at `p` away. */
  ghost predicate Takes(ss: seq<State>, es: seq<Event>, u: nat, p: Path)
    requires u < |es| < |ss|
  {
    es[u] == Unlink(true) && ss[u].worker.Unlinking? && ss[u].worker.flight.job.path == p
  }

  /** A job file is there until an unlink for it succeeds. */
  lemma {:induction false} StaysUntilTaken(ss: seq<State>, es: seq<Event>, i: nat, j: nat, p: Path)
    requires IsRun(ss, es) && i <= j <= |es| && Jobs.IsJson(p) && p in ss[i].files
    requires forall u :: i <= u < j ==> !Takes(ss, es, u, p)
    ensures p in ss[j].files
  {
    if i < j {
      StaysUntilTaken(ss, es, i, j - 1, p);
      assert StepAt(ss, es, j - 1);
      if p !in ss[j].files {
        LeavingStep(ss[j - 1], es[j - 1], p);
        assert Takes(ss, es, j - 1, p);
      }
    }
  }

  /** What a webhook saves is on disk at once, and until an unlink for it succeeds; only later saves change it. */
  lemma SavedStays(ss: seq<State>, es: seq<Event>, i: nat, j: nat)
    requires IsRun(ss, es) && i < j <= |es| && es[i].Write?
    requires forall u :: i < u < j ==> !Takes(ss, es, u, es[i].path)
    ensures es[i].path in ss[j].files
    ensures ss[j].files[es[i].path] == LastWritten(ss, es, i + 1, j, es[i].path, es[i].file)
    ensures Unwritten(ss, es, i + 1, j, es[i].path) ==> ss[j].files[es[i].path] == es[i].file
  {
    var p := es[i].path;
    assert StepAt(ss, es, i);
    assert p in ss[i + 1].files && ss[i + 1].files[p] == es[i].file;
    StaysUntilTaken(ss, es, i + 1, j, p);
    DiskHoldsLastWrite(ss, es, i + 1, j, p);
    if Unwritten(ss, es, i + 1, j, p) {
      UnwrittenKeepsBase(ss, es, i + 1, j, p, es[i].file);
    }
  }

  lemma GoneStep(s: State, e: Event, p: Path)
    requires Enabled(s, e) && Jobs.IsJson(p) && p !in s.files && WrittenAt(s, e, p) == None
    ensures p !in Next(s, e).files
  {}

  /** A file once gone stays away until somebody writes it. */
  lemma {:induction false} StaysGone(ss: seq<State>, es: seq<Event>, i: nat, j: nat, p: Path)
    requires IsRun(ss, es) && i <= j <= |es| && Jobs.IsJson(p) && p !in ss[i].files
    requires Unwritten(ss, es, i, j, p)
    ensures p !in ss[j].files
  {
    if i < j {
      StaysGone(ss, es, i, j - 1, p);
      assert StepAt(ss, es, j - 1);
      GoneStep(ss[j - 1], es[j - 1], p);
    }
  }

  // ---------- files of jobs that are not done ----------

  ghost predicate UnhandledOnDisk(s: State) {
    forall f :: f in Unhandled(s) ==> f.job.path in s.files
  }

  lemma UnhandledInFlights(s: State, f: Flight)
    requires f in Unhandled(s)
    ensures f in Flights(s)
  {
    FlightsSplit(s);
  }

  /** An unlink is for none of the jobs still to be handled. */
  lemma UnhandledApart(s: State, f: Flight)
    requires Inv(s) && s.worker.Unlinking? && f in Unhandled(s)
    ensures f.job.path != s.worker.flight.job.path
  {
    var fs := Flights(s);
    FlightsSplit(s);
    var k :| 0 <= k < |Unhandled(s)| && Unhandled(s)[k] == f;
    assert fs[k + 1] == f;
    assert Pipeline(s)[0] == s.worker.flight.job.path && Pipeline(s)[k + 1] == f.job.path;
  }

  lemma UnhandledStays(s: State, e: Event, f: Flight)
    requires Enabled(s, e) && Inv(s) && UnhandledOnDisk(s) && f in Unhandled(s) && f in Unhandled(Next(s, e))
    ensures f.job.path in Next(s, e).files
  {
    UnhandledInFlights(s, f);
    assert FlightWellFormed(f);
    if f.job.path !in Next(s, e).files {
      LeavingStep(s, e, f.job.path);
      UnhandledApart(s, f);
    }
  }

  lemma UnhandledOnDiskStep(s: State, e: Event)
    requires Enabled(s, e) && Inv(s) && UnhandledOnDisk(s)
    ensures UnhandledOnDisk(Next(s, e))
  {
    var s' := Next(s, e);
    forall f | f in Unhandled(s') ensures f.job.path in s'.files {
      if WithinRound(e) {
        UnhandledStep(s, e);
        if f in Unhandled(s) {
          UnhandledStays(s, e, f);
        } else {
          assert f == Loaded(s, Todo(s)[0], e.readable);
          Jobs.ParseFacts(Todo(s)[0], OnDisk(s, Todo(s)[0]));
          assert Todo(s)[0] in Todo(s);
        }
      }
    }
  }

  /** The file of a loaded job is on disk for as long as its handler has not returned. */
  lemma {:induction false} UnhandledHasFile(ss: seq<State>, es: seq<Event>, i: nat)
    requires IsRun(ss, es) && i < |ss|
    ensures UnhandledOnDisk(ss[i])
  {
    if i > 0 {
      UnhandledHasFile(ss, es, i - 1);
      Reachable(ss, es, i - 1);
      UnhandledOnDiskStep(ss[i - 1], es[i - 1]);
    }
  }

  // ---------- what follows a handler's return ----------

  /**
   The decision. On nil, or an error some unwrapping path of which leads to a non-retryable node, the worker goes on to
   unlink: at least once, twice with a soft-delete directory, and twice as often for a cleanup job. On any other error
   it lets go.
   */
  lemma ReturnDecides(ss: seq<State>, es: seq<Event>, m: nat)
    requires IsRun(ss, es) && m < |es| && es[m].Finish?
    ensures ss[m].worker.Handling? && ss[m + 1].files == ss[m].files
    ensures es[m].outcome == None || Errors.Visible(es[m].outcome.value) ==>
              && ss[m + 1].worker.Unlinking? && ss[m + 1].worker.flight == ss[m].worker.flight
              && ss[m + 1].worker.left == (if ss[m].softDelete then 2 else 1)
                                          * (if ss[m].worker.flight.job.kind == Jobs.CleanupKind then 2 else 1)
              && ss[m + 1].worker.left > 0
    ensures es[m].outcome != None && !Errors.Visible(es[m].outcome.value) ==>
              ss[m + 1].worker == Finished(ss[m].worker.flight)
  {
    assert StepAt(ss, es, m);
    if es[m].outcome.Some? {
      Errors.FindIffVisible(es[m].outcome.value);
    }
  }

  function UnlinksDone(es: seq<Event>, i: nat, j: nat): nat
    requires i <= j <= |es|
  {
    if i == j then 0 else UnlinksDone(es, i, j - 1) + if es[j - 1].Unlink? then 1 else 0
  }

  /** From the handler's return at event `m`, the worker is still with the same job at state `t`. */
  ghost predicate Concluding(es: seq<Event>, m: nat, t: nat)
    requires m < t <= |es|
  {
    es[m].Finish? && forall u :: m < u < t ==> !es[u].Sub? && !es[u].Crash?
  }

  /** A worker that has returned from a handler: still unlinking, or done with all its attempts. */
  ghost predicate Unwinds(w: Worker, f: Flight, attempts: nat, made: nat) {
    || (w.Unlinking? && w.flight == f && w.left > 0 && w.left + made == attempts)
    || (w == Finished(f) && made == attempts)
  }

  lemma UnwindStep(s: State, e: Event, f: Flight, attempts: nat, made: nat)
    requires Enabled(s, e) && Unwinds(s.worker, f, attempts, made) && !e.Sub? && !e.Crash?
    ensures Unwinds(Next(s, e).worker, f, attempts, made + if e.Unlink? then 1 else 0)
  {}

  /** Whatever the others do meanwhile, the worker makes the attempts it set out to make. */
  lemma {:induction false} AttemptsAreMade(ss: seq<State>, es: seq<Event>, m: nat, t: nat)
    requires IsRun(ss, es) && m < t <= |es| && Concluding(es, m, t)
    ensures ss[m].worker.Handling?
    ensures var attempts := if ss[m + 1].worker.Unlinking? then ss[m + 1].worker.left else 0;
            Unwinds(ss[t].worker, ss[m].worker.flight, attempts, UnlinksDone(es, m + 1, t))
  {
    ReturnDecides(ss, es, m);
    if m + 1 < t {
      AttemptsAreMade(ss, es, m, t - 1);
      assert StepAt(ss, es, t - 1);
      var attempts := if ss[m + 1].worker.Unlinking? then ss[m + 1].worker.left else 0;
      UnwindStep(ss[t - 1], es[t - 1], ss[m].worker.flight, attempts, UnlinksDone(es, m + 1, t - 1));
    }
  }

  /** The handler returns at event `m`, and the worker is through with the job at event `j`. */
  ghost predicate Concludes(es: seq<Event>, m: nat, j: nat)
    requires m < j < |es|
  {
    Concluding(es, m, j) && es[j].Sub?
  }

  lemma TakenMeansGone(ss: seq<State>, es: seq<Event>, u: nat, j: nat, p: Path)
    requires IsRun(ss, es) && u < j <= |es| && Jobs.IsJson(p) && Takes(ss, es, u, p)
    requires Unwritten(ss, es, u + 1, j, p)
    ensures p !in ss[j].files
  {
    assert StepAt(ss, es, u);
    StaysGone(ss, es, u + 1, j, p);
  }

  /** What an unlink between return and release is for. */
  lemma UnlinkIsForIt(ss: seq<State>, es: seq<Event>, m: nat, u: nat)
    requires IsRun(ss, es) && m < u < |es| && Concluding(es, m, u) && es[u].Unlink?
    ensures ss[m].worker.Handling? && ss[u].worker.Unlinking? && ss[u].worker.flight == ss[m].worker.flight
  {
    AttemptsAreMade(ss, es, m, u);
    assert StepAt(ss, es, u);
  }

  /** The file is a job file, there when the handler returns. */
  lemma FileAtReturn(ss: seq<State>, es: seq<Event>, m: nat)
    requires IsRun(ss, es) && m < |es| && es[m].Finish?
    ensures ss[m].worker.Handling?
    ensures Jobs.IsJson(ss[m].worker.flight.job.path)
    ensures ss[m].worker.flight.job.path in ss[m].files && ss[m].worker.flight.job.path in ss[m + 1].files
  {
    ReturnDecides(ss, es, m);
    Reachable(ss, es, m);
    UnhandledHasFile(ss, es, m);
    assert ss[m].worker.flight == Unhandled(ss[m])[0];
    UnhandledInFlights(ss[m], ss[m].worker.flight);
    assert FlightWellFormed(ss[m].worker.flight);
  }

  /**
   A job that is done, or has failed for good, is removed. By the time the worker is through with it, it has tried as
   often as it should; the file is gone if a try succeeded and nobody has written it since, and there if none did.
   */
  lemma DoneJobIsRemoved(ss: seq<State>, es: seq<Event>, m: nat, j: nat)
    requires IsRun(ss, es) && m < j < |es| && Concludes(es, m, j)
    requires es[m].outcome == None || Errors.Visible(es[m].outcome.value)
    ensures ss[m].worker.Handling?
    ensures UnlinksDone(es, m + 1, j) == (if ss[m].softDelete then 2 else 1)
                                         * (if ss[m].worker.flight.job.kind == Jobs.CleanupKind then 2 else 1)
    ensures var p := ss[m].worker.flight.job.path;
            && (forall u :: m < u < j && es[u] == Unlink(true) && Unwritten(ss, es, u + 1, j + 1, p) ==>
                  p !in ss[j + 1].files)
            && ((forall u :: m < u < j ==> es[u] != Unlink(true)) ==> p in ss[j + 1].files)
  {
    ReturnDecides(ss, es, m);
    FileAtReturn(ss, es, m);
    var p := ss[m].worker.flight.job.path;
    AttemptsAreMade(ss, es, m, j);
    assert StepAt(ss, es, j);
    forall u | m < u < j && es[u] == Unlink(true) && Unwritten(ss, es, u + 1, j + 1, p)
      ensures p !in ss[j + 1].files
    {
      UnlinkIsForIt(ss, es, m, u);
      TakenMeansGone(ss, es, u, j + 1, p);
    }
    if forall u :: m < u < j ==> es[u] != Unlink(true) {
      StaysUntilTaken(ss, es, m + 1, j + 1, p);
    }
  }

  /** A job to be retried is kept: its file is there all the while, and no unlink is tried. */
  lemma RetriedJobIsKept(ss: seq<State>, es: seq<Event>, m: nat, j: nat, t: nat)
    requires IsRun(ss, es) && m < j < |es| && Concludes(es, m, j) && m < t <= j + 1
    requires es[m].outcome != None && !Errors.Visible(es[m].outcome.value)
    ensures ss[m].worker.Handling? && ss[m].worker.flight.job.path in ss[t].files
    ensures UnlinksDone(es, m + 1, j) == 0
  {
    ReturnDecides(ss, es, m);
    FileAtReturn(ss, es, m);
    var p := ss[m].worker.flight.job.path;
    AttemptsAreMade(ss, es, m, j);
    forall u | m + 1 <= u < t ensures !Takes(ss, es, u, p) {
      if u < j {
        AttemptsAreMade(ss, es, m, u);
      }
    }
    StaysUntilTaken(ss, es, m + 1, t, p);
  }
}
