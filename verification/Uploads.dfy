/**
 One archive to all destinations of its job, and the decision on the job file that follows (server/upload.go,
 server/handle_sync_*.go, server/scheduler.go).
 */
module Uploads {
  import opened Wrappers
  import opened Errors

  /** Whether the job has a version (release assets, workflow artifacts) or tags (container packages): never both. */
  datatype Shape = FileJob | ContainerJob

  const GENERIC := "gcp.artifactregistry.generic"
  const DOCKER := "gcp.artifactregistry.docker"

  /** A configured destination and what uploading to it would return. */
  datatype Destination = Destination(typeName: string, result: Option<Error>)

  datatype Dispatch = Panicked | Returned(err: Option<Error>)

  const UNEXPECTED_TYPE: Error := Plain("unexpected destination type")

  /** The type assertion on the job fails. */
  predicate Mismatched(shape: Shape, d: Destination) {
    (d.typeName == GENERIC && shape == ContainerJob) || (d.typeName == DOCKER && shape == FileJob)
  }

  function ResultOf(d: Destination): Option<Error> {
    if d.typeName == GENERIC || d.typeName == DOCKER then d.result else Some(UNEXPECTED_TYPE)
  }

  function Results(ds: seq<Destination>): seq<Option<Error>> {
    seq(|ds|, i requires 0 <= i < |ds| => ResultOf(ds[i]))
  }

  /**
   `uploadFromZip`: every destination is tried whatever the others returned. It panics exactly when some destination's
   type does not suit the job.
   */
  method UploadFromZip(shape: Shape, destinations: seq<Destination>) returns (r: Dispatch)
    ensures r == Panicked <==> exists d :: d in destinations && Mismatched(shape, d)
    ensures r.Returned? ==> r.err == Flatten(Results(destinations))
    ensures r.Returned? ==>
              (r.err == None <==>
                forall d :: d in destinations ==> d.typeName in {GENERIC, DOCKER} && d.result == None)
    ensures r.Returned? ==>
              (Removes(r.err) <==>
                || (forall d :: d in destinations ==> d.typeName in {GENERIC, DOCKER} && d.result == None)
                || (exists d :: d in destinations && d.typeName in {GENERIC, DOCKER} && d.result.Some?
                                && Visible(d.result.value)))
  {
    var errs := [];
    for i := 0 to |destinations|
      invariant errs == Results(destinations[..i])
      invariant forall k :: 0 <= k < i ==> !Mismatched(shape, destinations[k])
    {
      var dst := destinations[i];
      assert destinations[..i + 1] == destinations[..i] + [dst];
      if dst.typeName == GENERIC {
        if shape != FileJob {
          assert dst in destinations;
          return Panicked;
        }
        errs := errs + [dst.result];
      } else if dst.typeName == DOCKER {
        if shape != ContainerJob {
          assert dst in destinations;
          return Panicked;
        }
        errs := errs + [dst.result];
      } else {
        errs := errs + [Some(UNEXPECTED_TYPE)];
      }
    }
    assert destinations[..|destinations|] == destinations;
    DecisionOverDestinations(destinations);
    return Returned(Flatten(errs));
  }

  /** The type assertion fails on a generic destination of a container's job, and on a docker one of a file's. */
  lemma MismatchedIff(shape: Shape, d: Destination)
    ensures Mismatched(shape, d) <==>
              || (d.typeName == "gcp.artifactregistry.generic" && shape == ContainerJob)
              || (d.typeName == "gcp.artifactregistry.docker" && shape == FileJob)
  {}

  lemma ResultsMembers(ds: seq<Destination>, x: Option<Error>)
    ensures x in Results(ds) <==> exists d :: d in ds && ResultOf(d) == x
  {
    if d :| d in ds && ResultOf(d) == x {
      var i :| 0 <= i < |ds| && ds[i] == d;
      assert Results(ds)[i] == x;
    }
    if x in Results(ds) {
      var i :| 0 <= i < |ds| && Results(ds)[i] == x;
      assert ds[i] in ds;
    }
  }

  /** The decision read off the destinations: one non-retryable failure outweighs any number of retryable ones. */
  lemma DecisionOverDestinations(ds: seq<Destination>)
    ensures Flatten(Results(ds)) == None <==>
              forall d :: d in ds ==> d.typeName in {GENERIC, DOCKER} && d.result == None
    ensures Removes(Flatten(Results(ds))) <==>
              || (forall d :: d in ds ==> d.typeName in {GENERIC, DOCKER} && d.result == None)
              || (exists d :: d in ds && d.typeName in {GENERIC, DOCKER} && d.result.Some? && Visible(d.result.value))
  {
    var errs := Results(ds);
    FindIffVisible(UNEXPECTED_TYPE);
    FlattenNil(errs);
    FlattenDecision(errs);
    if e :| Some(e) in errs && Visible(e) {
      ResultsMembers(ds, Some(e));
    }
    if d :| d in ds && d.typeName in {GENERIC, DOCKER} && d.result.Some? && Visible(d.result.value) {
      ResultsMembers(ds, ResultOf(d));
    }
    if forall i :: 0 <= i < |errs| ==> errs[i] == None {
      forall d | d in ds ensures ResultOf(d) == None {
        ResultsMembers(ds, ResultOf(d));
      }
    }
    if forall d :: d in ds ==> ResultOf(d) == None {
      forall i | 0 <= i < |errs| ensures errs[i] == None {
        assert ds[i] in ds;
      }
    }
  }

  /** Listing the destinations in another order changes neither the panic nor the decision. */
  lemma OrderOfDestinationsIsIrrelevant(shape: Shape, a: seq<Destination>, b: seq<Destination>)
    requires multiset(a) == multiset(b)
    ensures (exists d :: d in a && Mismatched(shape, d)) <==> (exists d :: d in b && Mismatched(shape, d))
    ensures Removes(Flatten(Results(a))) == Removes(Flatten(Results(b)))
  {
    forall d ensures d in a <==> d in b {
      assert d in a <==> d in multiset(a);
      assert d in b <==> d in multiset(b);
    }
    DecisionOverDestinations(a);
    DecisionOverDestinations(b);
  }

  /** A sync handler: a failed download is returned as it is, and only then are destinations tried. */
  function SyncOutcome(download: Option<Error>, upload: Option<Error>): Option<Error> {
    if download.Some? then download else upload
  }

  /**
   When a sync job's file goes away, if its destinations suit it: everything worked, or the download failed for good, or
   it worked and some destination failed for good.
   */
  lemma SyncJobRemovedIff(download: Option<Error>, ds: seq<Destination>)
    ensures Removes(SyncOutcome(download, Flatten(Results(ds)))) <==>
              if download.Some? then Visible(download.value)
              else
                || (forall d :: d in ds ==> d.typeName in {GENERIC, DOCKER} && d.result == None)
                || (exists d ::
                      d in ds && d.typeName in {GENERIC, DOCKER} && d.result.Some? && Visible(d.result.value))
  {
    if download.Some? {
      FindIffVisible(download.value);
    } else {
      DecisionOverDestinations(ds);
    }
  }
}
