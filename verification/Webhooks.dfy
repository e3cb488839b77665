/**
 Package and workflow-run events (`webhookProcessRegistryPackageEvent`, `webhookProcessWorkflowEvent`,
 server/webhook.go), and which of the handlers' successes mean that a job is on disk.
 */
module Webhooks {
  import opened Wrappers
  import opened JobsDir
  import Errors
  import Jobs
  import Paths
  import Releases
  import Rules

  /** `wellFormed` is the verdict of `sanitiseRegistryPackageEvent`. */
  datatype PackageEvent = PackageEvent(
    wellFormed: bool, action: string, ecosystem: string, repo: string, name: string, versionId: int, body: string)

  /** `wellFormed` is the verdict of `sanitiseWorkflowEvent`. */
  datatype WorkflowEvent = WorkflowEvent(
    wellFormed: bool, status: string, conclusion: string, repo: string, runPath: string, actor: string, run: int,
    body: string)

  function WorkflowFile(e: WorkflowEvent): string {
    Paths.TrimPrefix(e.runPath, ".github/workflows/")
  }

  /** A workflow is configured under its file's name in `.github/workflows/`. */
  lemma WorkflowFileOf(e: WorkflowEvent, name: string)
    requires e.runPath == ".github/workflows/" + name
    ensures WorkflowFile(e) == name
  {
    Paths.PrefixTrimmed(name, ".github/workflows/");
  }

  /** The job is on disk under its own name and loads as itself. */
  ghost predicate Persisted(files: Jobs.Directory, dir: string, k: Jobs.Key, payload: Jobs.Payload) {
    var path := Jobs.FileName(dir, k);
    path in files && Jobs.Parse(path, files[path]) == Ok(Jobs.NewJob(k, payload).(path := path))
  }

  lemma SavedIsPersisted(files: Jobs.Directory, dir: string, k: Jobs.Key, payload: Jobs.Payload)
    ensures Persisted(Replay(files, dir, [Attempt(k, payload, true)]), dir, k, payload)
    ensures Replay(files, dir, [Attempt(k, payload, false)]) == files
  {
    var a := Attempt(k, payload, true);
    assert [a][..0] == [] && [a.(ok := false)][..0] == [];
    Jobs.LoadAfterSave(Jobs.NewJob(k, payload), Jobs.FileName(dir, k));
  }

  /** An accepted package event succeeds exactly when its job has been written; then the job can be loaded back. */
  method ProcessPackage(repositories: Rules.Repositories, e: PackageEvent, jobs: JobsDirectory)
    returns (err: Option<Errors.Error>)
    modifies jobs
    ensures if && e.wellFormed && e.action == "published" && e.ecosystem == "CONTAINER"
               && e.repo in repositories && e.name in repositories[e.repo].containers then
              var payload := Jobs.Payload(e.body, "", repositories[e.repo].containers[e.name]);
              && (err == None <==> jobs.works(|old(jobs.attempts)|))
              && (err == None ==> Persisted(jobs.files, jobs.dir, Jobs.Package(e.versionId), payload))
              && (err != None ==> jobs.files == old(jobs.files))
            else
              && (err == None <==> e.wellFormed)
              && jobs.files == old(jobs.files) && jobs.attempts == old(jobs.attempts)
  {
    if !e.wellFormed {
      return Some(Releases.MALFORMED);
    }
    if e.action != "published" {
      return None;
    }
    if e.ecosystem != "CONTAINER" {
      return None;
    }
    if e.repo !in repositories {
      return None;
    }
    if e.name !in repositories[e.repo].containers {
      return None;
    }
    var payload := Jobs.Payload(e.body, "", repositories[e.repo].containers[e.name]);
    SavedIsPersisted(jobs.files, jobs.dir, Jobs.Package(e.versionId), payload);
    err := jobs.SaveJob(Jobs.Package(e.versionId), payload);
  }

  /**
   An accepted workflow event always succeeds, written or not: the handler logs a failed save and returns nil. So its
   success means a persisted job exactly when the write worked, or when that very job was on disk already.
   */
  method ProcessWorkflow(repositories: Rules.Repositories, e: WorkflowEvent, jobs: JobsDirectory)
    returns (err: Option<Errors.Error>)
    modifies jobs
    ensures err == None <==> e.wellFormed
    ensures var payload := Jobs.Payload(e.body, "", []);
            if && e.wellFormed && e.status == "completed" && e.conclusion == "success"
               && e.repo in repositories && WorkflowFile(e) in repositories[e.repo].workflows
               && (repositories[e.repo].workflows[WorkflowFile(e)].actors == []
                   || e.actor in repositories[e.repo].workflows[WorkflowFile(e)].actors) then
              var before := Persisted(old(jobs.files), jobs.dir, Jobs.Discover(e.run), payload);
              && err == None
              && (Persisted(jobs.files, jobs.dir, Jobs.Discover(e.run), payload)
                  <==> jobs.works(|old(jobs.attempts)|) || before)
              && (!jobs.works(|old(jobs.attempts)|) ==> jobs.files == old(jobs.files))
            else jobs.files == old(jobs.files) && jobs.attempts == old(jobs.attempts)
  {
    if !e.wellFormed {
      return Some(Releases.MALFORMED);
    }
    if e.status != "completed" {
      return None;
    }
    if e.conclusion != "success" {
      return None;
    }
    if e.repo !in repositories {
      return None;
    }
    if WorkflowFile(e) !in repositories[e.repo].workflows {
      return None;
    }
    var actors := repositories[e.repo].workflows[WorkflowFile(e)].actors;
    if |actors| > 0 && e.actor !in actors {
      return None;
    }
    var payload := Jobs.Payload(e.body, "", []);
    SavedIsPersisted(jobs.files, jobs.dir, Jobs.Discover(e.run), payload);
    var _ := jobs.SaveJob(Jobs.Discover(e.run), payload);
    return None;
  }
}
