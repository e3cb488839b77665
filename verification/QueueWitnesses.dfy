/**
 Concrete runs that show where the queue's promises end: the counter's dip, and the two ways a payload can be removed
 without having been handled.
 */
module QueueWitnesses {
  import opened Wrappers
  import opened Queue
  import opened QueueRuns
  import Errors
  import Jobs

  lemma Listed(p: Path, f: Jobs.File) returns (ss: seq<State>, es: seq<Event>)
    ensures IsRun(ss, es) && es == [Tick, List([p])]
    ensures ss[0] == Start(map[p := f], false) && ss[2] == ss[0].(ingester := Walking([p]))
  {
    var s0 := Start(map[p := f], false);
    var s1 := s0.(ingester := Listing);
    ss, es := [s0], [];
    RunExtends(ss, es, Tick, s1);
    ss, es := ss + [s1], es + [Tick];
    RunExtends(ss, es, List([p]), s1.(ingester := Walking([p])));
    ss, es := ss + [s1.(ingester := Walking([p]))], es + [List([p])];
  }

  /** One job file, picked up, queued and received by the worker before the ingester has counted it. */
  lemma PickedUp(p: Path, f: Jobs.File, readable: bool) returns (ss: seq<State>, es: seq<Event>)
    requires Jobs.IsJson(p)
    requires Loaded(Start(map[p := f], false), p, readable).job.kind != Jobs.DiscoverKind
    ensures IsRun(ss, es) && |es| == 5
    ensures ss[0] == Start(map[p := f], false)
    ensures es[2] == Load(readable)
    ensures ss[5] == ss[0].(
              ingester := Counting([]),
              worker := Handling(Loaded(ss[0], p, readable), [], 0, false))
  {
    ss, es := Listed(p, f);
    var s0 := ss[0];
    var flight := Loaded(s0, p, readable);
    var s3 := s0.(ingester := Sending(flight, []));
    var s4 := s0.(ingester := Counting([]), jobs := [flight]);
    var s5 := s0.(ingester := Counting([]), worker := Handling(flight, [], 0, false));
    assert [p][1..] == [];
    RunExtends(ss, es, Load(readable), s3);
    ss, es := ss + [s3], es + [Load(readable)];
    RunExtends(ss, es, Send, s4);
    ss, es := ss + [s4], es + [Send];
    RunExtends(ss, es, Receive([]), s5);
    ss, es := ss + [s5], es + [Receive([])];
  }

  /** System calls that may remove the file of a job of this kind, without a soft-delete directory. */
  function Calls(k: Jobs.Kind): nat {
    if k == Jobs.CleanupKind then 2 else 1
  }

  function Deciding(s: State): State
    requires s.worker.Handling?
  {
    s.(worker := Unlinking(s.worker.flight, s.worker.children, Calls(s.worker.flight.job.kind)))
  }

  function Removed(s: State): State
    requires s.worker.Handling?
  {
    var f := s.worker.flight;
    s.(files := s.files - {f.job.path},
       worker := if f.job.kind == Jobs.CleanupKind then Unlinking(f, s.worker.children, 1) else Finished(f))
  }

  /** The handler returns nil, and the first unlink works. */
  lemma HandledAndRemoved(ss: seq<State>, es: seq<Event>) returns (ss': seq<State>, es': seq<Event>)
    requires IsRun(ss, es) && !ss[|es|].softDelete
    requires ss[|es|].worker.Handling? && ss[|es|].worker.flight.job.kind != Jobs.DiscoverKind
    ensures IsRun(ss', es')
    ensures es' == es + [Finish(None), Unlink(true)]
    ensures ss' == ss + [Deciding(ss[|es|]), Removed(ss[|es|])]
  {
    var s := ss[|es|];
    RunExtends(ss, es, Finish(None), Deciding(s));
    ss', es' := ss + [Deciding(s)], es + [Finish(None)];
    RunExtends(ss', es', Unlink(true), Removed(s));
    assert ss' + [Removed(s)] == ss + [Deciding(s), Removed(s)];
    assert es' + [Unlink(true)] == es + [Finish(None), Unlink(true)];
    ss', es' := ss' + [Removed(s)], es' + [Unlink(true)];
  }

  /** The dip to -1 is real: the worker can be done with a job before the ingester has counted it. */
  lemma CounterCanDip(p: Path, f: Jobs.File, j: Jobs.Job) returns (ss: seq<State>, es: seq<Event>)
    requires Jobs.IsJson(p) && Jobs.Parse(p, f) == Ok(j) && j.kind == Jobs.PackageKind
    ensures IsRun(ss, es) && ss[|es|].inFlight == -1
  {
    ss, es := PickedUp(p, f, true);
    ss, es := HandledAndRemoved(ss, es);
    RunExtends(ss, es, Sub, Next(ss[7], Sub));
    ss, es := ss + [Next(ss[7], Sub)], es + [Sub];
  }

  /** Without the condition on writes, false: a payload saved while its older version is handled is removed unseen. */
  lemma ResaveIsLost(p: Path, older: Jobs.File, newer: Jobs.File, j: Jobs.Job)
    returns (ss: seq<State>, es: seq<Event>)
    requires Jobs.IsJson(p) && Jobs.Parse(p, older) == Ok(j) && j.kind == Jobs.PackageKind && older != newer
    ensures IsRun(ss, es) && |es| == 8
    ensures es[5] == Write(p, newer) && Leaves(ss, es, 7, p)
    ensures ss[7].files[p] == newer && ss[7].worker.Unlinking? && ss[7].worker.flight == Flight(j, older)
  {
    ss, es := PickedUp(p, older, true);
    var s6 := ss[5].(files := map[p := newer]);
    RunExtends(ss, es, Write(p, newer), s6);
    ss, es := ss + [s6], es + [Write(p, newer)];
    Jobs.ParseFacts(p, older);
    ss, es := HandledAndRemoved(ss, es);
  }

  /** A read that fails once is enough to lose a file that parses: any error of `Load` leads to the cleanup job. */
  lemma UnreadableIsLost(p: Path, f: Jobs.File, j: Jobs.Job) returns (ss: seq<State>, es: seq<Event>)
    requires Jobs.IsJson(p) && Jobs.Parse(p, f) == Ok(j)
    ensures IsRun(ss, es) && |es| == 7
    ensures es[2] == Load(false) && Leaves(ss, es, 6, p)
    ensures ss[6].worker.Unlinking? && ss[6].worker.flight == Flight(Jobs.CleanupJob(p), f)
  {
    ss, es := PickedUp(p, f, false);
    ss, es := HandledAndRemoved(ss, es);
  }
}
