# Verification of gh-artifacts-sync

A Dafny model of the service that listens to GitHub events, keeps one file per pending job in a directory, and carries
release assets, workflow artifacts and container packages over to a registry. It covers two components in depth, the
crash-safe job queue and the rebuilding of multi-platform container indexes, and the smaller algorithms their guarantees
rest on. `dafny verify dfyconfig.toml` checks everything.

| file | covers |
|---|---|
| `Queue.dfy` | the queue as a transition system: directory, bounded channel, counter, ingester, worker, crash; its invariant |
| `QueueRuns.dfy` | theorems over all runs: nothing lost, exact counter, no job in flight twice, rounds end and are fair |
| `QueueOutcomes.dfy` | what becomes of a job's file after its handler has returned: removed, or kept for a retry |
| `QueueWitnesses.dfy` | concrete runs showing where the promises end |
| `Scheduler.dfy` | the server object, one method per atomic step, each proved to take that step of the system |
| `Jobs.dfy`, `JobsDir.dfy` | job identity, file names, save and load, the directory as a map, runs of saves that can fail |
| `Discovery.dfy` | pagination and fan-out of the discovery handler |
| `DiscoveryRuns.dfy` | that handler inside the queue, with any other step in between: what it finds is not lost |
| `Releases.dfy`, `Webhooks.dfy` | which jobs an event leaves on disk, and what its success means |
| `Index.dfy` | extraction, platform filtering and rebuilding of a container index |
| `Archive.dfy` | the download archive as a codec for digests: write, read back, prepare |
| `RoundTrip.dfy` | what becomes of a package on its way through the archive |
| `GenericUpload.dfy`, `Uploads.dfy` | hash-checked uploads, the outcome over all destinations |
| `Errors.dfy`, `SoftDelete.dfy`, `Config.dfy`, `StringJoin.dfy` | error trees and the retry decision, moving files aside, configuration, the guarded join |
| `Paths.dfy`, `Rules.dfy`, `Sequences.dfy`, `Wrappers.dfy` | shared definitions |

What the outside decides is a parameter everywhere: which reads, writes and calls work, what GitHub and the registry
answer, how a regular expression matches. Go's map iteration is an arbitrary choice at each loop step. A Go `nil` error
is `None`; a panic is an outcome of its own.

## Where the code falls short of the obvious claim

Each is kept as the code has it, with a witness or an exact condition.

- Any error of `Load`, a failed read included, turns the job into a cleanup job, so one unreadable moment removes a
  file that parses (`UnreadableIsLost`). `NothingLost` therefore names two causes: the load failed, or the handler is done.
- A payload saved while its older version is being handled is removed with it (`ResaveIsLost`); the removed payload is the
  handled one when nobody writes the path in between (`HandledPayloadIsRemoved`).
- The in-flight counter can dip to -1, and no lower (`CounterCanDip`, `CounterTracksFlights`).
- Success of a workflow event does not mean that a job was written (`ProcessWorkflow` states when it does).
- Rules that match one asset or artifact with different versions or destinations share its job file; which of them
  survives depends on map order (`Releases.PayloadsIgnoreOrderIff`, `Discovery.PayloadsIgnoreOrderIff`).
- `SoftDelete` returns nil and keeps no copy when the soft-delete directory is missing
  (`DeleteIntoMissingDirectory`), destroys the file when that directory is the file's own, and removes it although a copy
  to another device has broken off (`Delete`).
- A container with a generic destination passes validation, and its job panics (`ValidContainerJobPanicsIff`).
- Files of one name in an archive settle in the generic registry exactly when they have the same hashes
  (`SameNameNeverSettles`, `CleanRunSettlesIff`), and a file for which the registry reports no hash the client understands
  never does (`MatchedAfterCleanRunIff`).
- The join's separator guard refuses outputs that would fit, at exactly one separator length
  (`RefusedWithoutNeedIff`).
- A digest with a dash does not survive the archive's file names (`NameRoundTripIff`).
- Preparing a downloaded package panics when a destination with a platform list meets an image without a platform, and
  when only some of the manifests kept have a tarball in the archive (`PreparingPanicsIff`).

Where the readme and the code differ the code is followed: the options `accept_drafts` and `accept_prereleases` are
documented, but no event handler reads them.

## Model

| member | source | states |
|---|---|---|
| Queue.InvStep | server/scheduler.go:16-101 | every step of every goroutine, and a crash at any point, keeps the invariant: exact counter, bounded channel, distinct paths in flight, unvisited files on disk, well-formed loaded jobs, saved children on disk |
| Queue.PipelineShrinks | server/scheduler.go:26-49 | within a round the sequence handled, queued, being sent, unvisited only ever loses a name that is no job file or its first element |
| Queue.WorkerPathApart | server/scheduler.go:58-100 | the worker's path is none of those queued or still to be visited |
| Queue.OutsideIsFree | server/server.go:83-101 | no save, crash, tick, failed read, failed unlink or result of a sync handler is ever ruled out |
| QueueRuns.CounterTracksFlights | server/scheduler.go:19-59 | in every reachable state the counter is queued plus handled, minus one exactly between send and add; it is at least -1 and a round starts only over an empty pipeline |
| QueueRuns.NeverInFlightTwice | server/scheduler.go:26-100 | in every reachable state the paths in flight and unvisited are pairwise distinct, unvisited files exist, and a load hits an existing file that is not in flight |
| QueueRuns.NothingLost | server/scheduler.go:42-100 | a job file leaves the directory only by the worker's unlink of a job loaded from that path in the same process, whose load failed or whose handler returned nil or a non-retryable tree; what goes is the last payload written there |
| QueueRuns.HandledPayloadIsRemoved | server/scheduler.go:86-100 | with no write to the path between load and removal, the removed payload is the handled one |
| QueueRuns.DiscoveryHandsOver | server/handle_discover_artifacts.go:101-116 | when a discovery job's file leaves, each file its handler set out to save is on disk, also after a crash right then |
| QueueRuns.HandledThenPending | server/scheduler.go:26-59 | within a round, the handled paths followed by the pending ones never change |
| QueueRuns.RoundHandlesListing | server/scheduler.go:26-49 | a finished round handled each job file of its listing exactly once, in order, and nothing else, whatever was saved meanwhile |
| QueueRuns.RoundIsFinite | server/scheduler.go:26-59 | the process takes a bounded number of steps in a round |
| QueueRuns.RoundAdvances | server/server.go:88-98 | until the round is over some own step is enabled, even with the channel full |
| QueueOutcomes.SavedStays | job/job.go:83-96 | what a webhook saves is on disk at once and until an unlink for it succeeds, changed only by later saves |
| QueueOutcomes.UnhandledHasFile | server/scheduler.go:36-100 | the file of a loaded job is on disk for as long as its handler has not returned |
| QueueOutcomes.ReturnDecides | server/scheduler.go:86-100 | on nil or a visible non-retryable error the worker goes on to unlink, one to four times as the configuration and the kind ask; on any other error it lets go |
| QueueOutcomes.AttemptsAreMade | server/remove.go:25-36 | whatever others do meanwhile, it makes exactly those attempts before it is through |
| QueueOutcomes.DoneJobIsRemoved | server/scheduler.go:86-100 | a job that is done or has failed for good is removed: its file is gone once an attempt has worked and nobody has written it since |
| QueueOutcomes.RetriedJobIsKept | server/scheduler.go:86-100 | after a retryable error the file stays and no unlink is tried |
| QueueWitnesses.CounterCanDip | server/scheduler.go:46-47 | a run in which the counter is -1 |
| QueueWitnesses.ResaveIsLost | server/remove.go:25-36 | a run in which a newer payload is removed unhandled |
| QueueWitnesses.UnreadableIsLost | server/scheduler.go:42-45 | a run in which a failed read removes a file that parses |
| Scheduler.Server.constructor | server/server.go:43-52 | a new server has an empty channel and a zero counter |
| Scheduler.Server.Save | job/job.go:83-96 | a save lands as one atomic write |
| Scheduler.Server.IngestTick | server/scheduler.go:19-24 | goes on exactly when nothing is queued or being handled |
| Scheduler.Server.ReadDir | server/scheduler.go:26-34 | the listing becomes the list to visit |
| Scheduler.Server.VisitEntry | server/scheduler.go:37-45 | passes over other extensions, loads, and puts a cleanup job in place of a failed load |
| Scheduler.Server.TrySend | server/scheduler.go:46 | sends exactly when the buffer has room |
| Scheduler.Server.Count | server/scheduler.go:47 | the counter follows the send |
| Scheduler.Server.ReceiveJob | server/server.go:89-91 | the single worker takes the oldest job |
| Scheduler.Server.SaveNextChild | server/handle_discover_artifacts.go:101-110 | one save of the discovery handler, remembered if it failed |
| Scheduler.Server.HandlerReturns | server/scheduler.go:86-100 | starts unlinking exactly on nil or a visible non-retryable error, with the right number of attempts; otherwise is done with the job |
| Scheduler.Server.UnlinkOnce | server/remove.go:25-36 | one system call; the file is gone exactly when it works |
| Scheduler.Server.Release | server/scheduler.go:59 | the deferred decrement |
| Scheduler.Server.Restart | server/server.go:43-52 | a crash leaves nothing but the directory |
| Scheduler.Server.Serve | server/server.go:82-101 | the object's goroutines under any schedule go through a run of the transition system, so all theorems about runs hold of it |
| Jobs.SameFileIffSameJob | job/sync_workflow_artifact.go:29-38 | two saves hit the same file exactly when kind and id or ids agree, for all integers, negative ones included |
| Jobs.PairInjective | job/sync_workflow_artifact.go:35 | the two-part id is unambiguous |
| Jobs.DecimalSpelled | job/sync_workflow_artifact.go:35 | printed numbers have no leading zeros and a minus sign exactly when negative |
| Jobs.FileNamesSpelled | job/job.go:89 | the names of the four kinds' files |
| Jobs.FileNameIsJson | job/job.go:89 | every job file is one the walk picks up |
| Jobs.ParseFacts | job/job.go:28-81 | a loaded job has its path set, is of the kind its header names, and is never a cleanup job |
| Jobs.ParsesIff | job/job.go:28-81 | a file loads exactly when its header names a persisted kind and its body decodes as that kind |
| Jobs.LoadAfterSave | job/job.go:28-96 | loading a saved job gives it back with its path; a cleanup job would be unparseable |
| Jobs.DirectoryRefinesIdentityMap | job/job.go:83-96 | after any saves the directory holds, per identity, the last payload, and other files are untouched |
| JobsDir.JobsDirectory.SaveJob | job/job.go:83-96 | a save writes its file and returns nil, or leaves everything and returns an error |
| JobsDir.CollectedDecision | server/handle_discover_artifacts.go:61-116 | a handler's collected save errors are nil exactly when all saves worked, and otherwise keep the job |
| JobsDir.SaveAllIgnoresOrder | job/job.go:83-96 | saves commute when no identity is asked for with two payloads |
| JobsDir.SaveAllByLast | job/job.go:83-96 | what saves leave depends only on the last payload asked for each identity |
| Discovery.ListArtifacts | server/handle_discover_artifacts.go:39-59 | all artifacts, the first failure, or nothing yet when the process ends before the last page |
| Discovery.EveryPageRead | server/handle_discover_artifacts.go:41-59 | a listing that succeeds has read a chain of pages from the first to the last and holds exactly their artifacts |
| Discovery.EnoughCallsFinish | server/handle_discover_artifacts.go:41-59 | as many calls as there are pages list the artifacts of all of them, in order |
| Discovery.FewCallsAreCutOff | server/handle_discover_artifacts.go:41-59 | fewer calls list nothing yet |
| Discovery.FailedPageEnds | server/handle_discover_artifacts.go:48-53 | the first page that cannot be had ends the listing with its error |
| Discovery.WantedIffSuits | server/handle_discover_artifacts.go:63-99 | a job is asked for exactly for a valid, unexpired artifact and a matching pattern, with its captured version or the head commit |
| Discovery.SaveMatches | server/handle_discover_artifacts.go:78-111 | the saves of one artifact are those of some order of all its rules |
| Discovery.Handle | server/handle_discover_artifacts.go:15-117 | nothing without rules, on a failed page or when cut off; otherwise the saves of some map orders, and nil exactly when all worked |
| Discovery.WritesAreWants | server/handle_discover_artifacts.go:63-111 | for every map order the requests are exactly what some rule wants for some valid, unexpired artifact |
| Discovery.NilMeansPersisted | server/handle_discover_artifacts.go:63-116 | after nil every artifact a pattern suits has its job on disk, with the body, version and destinations of an artifact of those ids and a pattern that suits it |
| Discovery.PayloadsIgnoreOrderIff | server/handle_discover_artifacts.go:63-111 | the directory is the same for every map order exactly when the patterns matching an artifact agree, on the last one listed under its ids |
| DiscoveryRuns.ProgressIsSaves | server/handle_discover_artifacts.go:101-116 | with any steps of others in between, the handler's progress in the queue is exactly its saves, and it has failed exactly when one has |
| DiscoveryRuns.SaveFitsQueue | server/handle_discover_artifacts.go:101-110 | each save is a step the queue lets it take, and does to the directory what the save does |
| DiscoveryRuns.ChildrenFitQueue | job/sync_workflow_artifact.go:29-38 | what it saves never shares the file of a discovery job under its own name |
| DiscoveryRuns.HandlerFitsQueue | server/handle_discover_artifacts.go:27-116 | whatever it meets, the queue lets it return what it returns |
| DiscoveryRuns.DiscoveryIsDurable | server/handle_discover_artifacts.go:39-116 | when a discovery job's file leaves, all pages had been read, and every valid, unexpired artifact on them that a pattern matches has its job on disk, then, afterwards, and after a crash right then |
| Releases.SaveAssets | server/webhook.go:206-250 | one rule pair over all assets: version choice, state and content type |
| Releases.SaveReleases | server/webhook.go:194-252 | the writes of the loops are those of some grouped visiting order |
| Releases.Process | server/webhook.go:155-259 | ignored events save nothing; an accepted one succeeds exactly when all its saves do |
| Releases.WritesAreWants | server/webhook.go:194-252 | for every order the requests are exactly what some configured pair wants |
| Releases.WantedIffSuits | server/webhook.go:194-238 | a job is asked for exactly for an uploaded zip asset and a matching pair, with the asset's, the release's or the whole matched version |
| Releases.FilesIgnoreOrder | server/webhook.go:190-258 | for every map order the job files are those there before and one per uploaded zip asset that some configured pair suits |
| Releases.SuccessMeansPersisted | server/webhook.go:190-258 | after success each such asset's job loads, with the body of an asset of its id and the version and destinations of a pair that suits it |
| Releases.LastAssetDecides | server/webhook.go:206-250 | within one pair the last asset of an id decides |
| Releases.PayloadsIgnoreOrderIff | server/webhook.go:190-258 | the directory is the same for every map order exactly when no two pairs ask for different jobs in one file |
| Webhooks.ProcessPackage | server/webhook.go:85-153 | an accepted package event succeeds exactly when its job was written |
| Webhooks.ProcessWorkflow | server/webhook.go:261-330 | an accepted workflow event always succeeds; its job is on disk exactly when the write worked or it was there |
| Webhooks.WorkflowFileOf | server/webhook.go:298-299 | a workflow is looked up under its file's name in the workflows directory |
| Index.AttestationsTold | server/docker.go:45-51 | what counts as an attestation and what it refers to, in the annotations' own terms |
| Index.Extract | server/docker.go:33-71 | images, attestations and errors as specified, for a nil index too |
| Index.HasImageIff | server/docker.go:44-48 | exactly the digests some image has are kept |
| Index.ImageIsLast | server/docker.go:45-48 | the image kept for a digest is the last one |
| Index.HasAttestationIff | server/docker.go:50-67 | exactly the digests some attestation refers to are kept |
| Index.AttestationIsFirst | server/docker.go:50-67 | the attestation kept for a reference is the first one |
| Index.FaultPerFaulty | server/docker.go:50-65 | one error per keyless attestation and per later one for a taken reference, naming the digests concerned, and no other |
| Index.ExtractionConserves | server/docker.go:33-71 | manifests are images plus attestations plus errors, by digest exactly when image digests are distinct |
| Index.Reject | server/docker.go:90-97 | images of other platforms and their attestations go; panics exactly when a platform list meets an image without a platform |
| Index.Filter | server/docker.go:73-108 | a nil dereference exactly on an image without a platform; otherwise some filtering of the index, with extraction errors exactly for a bare index |
| Index.FilteringShape | server/docker.go:90-105 | accepted images once each, the last per digest, each directly followed by its first attestation, no orphans, for every iteration order |
| Index.FilteringSubset | server/docker.go:99-105 | filtering invents no descriptor |
| Index.BareStays | server/docker.go:85-87 | an index of nothing but attestations without a key stays as it is |
| Index.OnlyListedKept | server/docker.go:90-97 | with a platform list, every image kept is on it |
| Index.KeptIffListed | server/docker.go:90-105 | the last image of a digest is kept exactly when there is no platform list or its platform is on it |
| Index.FilterTwiceIsFilterOnce | server/docker.go:73-108 | filtering for two destinations in turn gives the multiset of filtering once by both tests, bare indexes included |
| Index.FilteringsPermute | server/docker.go:90-105 | which manifests are kept, and how often, does not depend on the iteration order |
| Index.FilterIsIdempotent | server/docker.go:73-108 | filtering again changes nothing but the order |
| Index.Build | server/docker.go:243-268 | fails exactly when a descriptor has no container; otherwise one entry per descriptor |
| Index.EntriesStandForContainers | server/docker.go:258-266 | each entry has the image, digest and platform of its own descriptor's container |
| Index.ReferencesSurvive | server/docker.go:243-268 | each keyed attestation refers to the new digest of the very image it named, which is the entry before it; all other annotations are unchanged |
| Archive.NameRoundTripIff | server/docker.go:180 | a digest comes back from its archive name exactly when it has no dash and no slash |
| Archive.NamesDistinct | server/download_github_container.go:225-227 | tarballs of such digests share a name only with platform and digest the same |
| Archive.GroupByPlatform | server/download_github_container.go:143-170 | images grouped by platform in index order, or a failure when one cannot be had |
| Archive.DownloadedInOrder | server/download_github_container.go:143-164 | within a platform, images keep the order of the index |
| Archive.WriteImages | server/download_github_container.go:212-247 | exactly one tarball per image wanted on a platform that is not blank, for every map order |
| Archive.Download | server/download_github_container.go:94-250 | succeeds exactly when an index has an image and all its images can be had, and what the archive then holds; its own errors are retryable |
| Archive.Read | server/docker.go:122-190 | containers by decoded digest, the index, one error per unreadable member |
| Archive.LastIndexCounts | server/docker.go:134-148 | the last index in the archive counts, as far as it could be decoded |
| Archive.LastTarCounts | server/docker.go:150-187 | the last tarball of a digest counts |
| Archive.OnlyTarsCount | server/docker.go:125-187 | nothing but tarballs gives containers |
| Archive.FailurePerUnreadable | server/docker.go:134-177 | one error per index or tarball that cannot be read in full, and no other |
| Archive.Assemble | server/docker.go:215-269 | nothing, one image, a rebuilt index or the nil dereference, and when the error is nil |
| Archive.Prepare | server/docker.go:110-270 | reading, filtering and assembling together, both nil dereferences included; its errors are retryable |
| Archive.PreparingWithoutIndex | server/docker.go:192-241 | without an index: a container of a listed platform if there is one, and a panic exactly when a platform list meets one without a platform |
| RoundTrip.ImagesAreFiled | server/download_github_container.go:143-247 | one tarball per image not on a blank platform, filed under its platform or under `unknown/unknown` |
| RoundTrip.DownloadThenRead | server/docker.go:125-189 | a downloaded archive reads back to the same index and, per digest whose tarball can be read, to the container of that very image; an error exactly when one cannot |
| RoundTrip.PreparingPanicsIff | server/docker.go:192-269 | preparing such an archive panics exactly when a platform list meets an image without a platform, or when several manifests are kept of which only some have a container |
| RoundTrip.DownloadThenPrepare | server/docker.go:192-269 | otherwise each entry carries its own descriptor's image and platform, each attestation the new digest of the entry before it, and the error is nil exactly when nothing failed |
| RoundTrip.SingleDownloadThenPrepare | server/docker.go:192-241 | the same for a package that is one image |
| GenericUpload.Run | server/upload_gcp_generic.go:56-185 | the labelled loops do to registry and errors what one file after the other asks for; its errors are retryable |
| GenericUpload.MatchesByHash | server/upload_gcp_generic.go:89-131 | a file matches by the first hash of a known kind of the first artifact listed under its name |
| GenericUpload.UnknownDoesNotMatch | server/upload_gcp_generic.go:83-137 | a file not listed, or without such a hash, does not match |
| GenericUpload.FailsIff | server/upload_gcp_generic.go:68-182 | exactly what is reported as a file's failure, a lost reply included |
| GenericUpload.EffectIff | server/upload_gcp_generic.go:83-182 | exactly when a file is stored, over whatever was there, and what the registry is then |
| GenericUpload.AllWellIsErrorFree | server/upload_gcp_generic.go:58-185 | a run in which all goes well returns nil, whatever the registry held |
| GenericUpload.AllWellSettles | server/upload_gcp_generic.go:58-185 | it also leaves every file matching, when files of one name have the same hashes |
| GenericUpload.ExactlyOneEffect | server/upload_gcp_generic.go:56-185 | a file to be uploaded takes effect exactly once over any runs, once all goes well for it in one |
| GenericUpload.FilesAreIndependent | server/upload_gcp_generic.go:58-183 | each file with a name of its own fares in a run as it would alone |
| GenericUpload.MatchedAfterCleanRunIff | server/upload_gcp_generic.go:83-137 | after an error-free run a file with a name of its own matches exactly when it did before or the registry reports it faithfully |
| GenericUpload.SettledStays | server/upload_gcp_generic.go:83-131 | on a matching registry no run uploads anything |
| GenericUpload.OneEffect | server/upload_gcp_generic.go:56-185 | over any runs, lost replies included, each file takes effect at most once; files may repeat with the same hashes |
| GenericUpload.RetriesConverge | server/upload_gcp_generic.go:56-185 | after any failing runs an error-free one leaves everything matching for good; files may repeat with the same hashes |
| GenericUpload.SameNameNeverSettles | server/upload_gcp_generic.go:58-183 | an archive with two files of one name and different hashes is settled on no registry |
| GenericUpload.CleanRunSettlesIff | server/upload_gcp_generic.go:58-183 | a run without errors settles an archive exactly when files of one name have the same hashes |
| Uploads.UploadFromZip | server/upload.go:36-75 | panics exactly on a destination that does not suit the job; otherwise all destinations are tried, nil exactly when all are known and worked, removal as their own results decide |
| Uploads.MismatchedIff | server/upload.go:52-67 | which destination types do not suit which jobs |
| Uploads.OrderOfDestinationsIsIrrelevant | server/upload.go:45-74 | permuting destinations changes neither panic nor decision |
| Uploads.SyncJobRemovedIff | server/handle_sync_artifact.go:26-40 | when a sync job's file goes: all worked, or something failed for good |
| Errors.FindIffVisible | server/scheduler.go:87-88 | the search finds a non-retryable node exactly when an unwrapping path leads to one |
| Errors.VisibleThroughContext | utils/errors.go:7-13 | no wrapping or joining hides such a node |
| Errors.FlattenNil | utils/flatten_errors.go:5-14 | nil exactly when all entries are |
| Errors.FlattenKeepsAll | utils/flatten_errors.go:5-14 | every error is kept once, in order: a lone one as it is, several joined |
| Errors.FlattenDecision | server/scheduler.go:86-100 | the job is removed exactly when nothing failed or some entry shows a non-retryable node |
| Errors.DecisionIgnoresOrder | utils/flatten_errors.go:5-14 | the decision does not depend on the order of entries |
| Errors.MissingDownloadDecides | server/download.go:37-44 | a missing download stays non-retryable under its callers' wrapping |
| SoftDelete.FileSystem.Copy | utils/soft_delete.go:36-51 | nil exactly for a whole copy, a truncated target when it breaks off; nothing but the target changes |
| SoftDelete.FileSystem.Delete | utils/soft_delete.go:11-34 | the whole state and when nil is returned, in each case: no or a missing directory, its own, the same device, another device |
| SoftDelete.TargetKeepsName | utils/soft_delete.go:16 | the target is in the soft-delete directory, under the file's own name |
| SoftDelete.FileSystem.DeleteIntoMissingDirectory | utils/soft_delete.go:15-33 | a missing soft-delete directory means removal without copy and without error |
| Config.ValidateDestinations | config/destination.go:32-49 | nil exactly when every destination is supported by its owner |
| Config.CompileReleases | config/repository.go:21-35 | each release holds the compiled form of its own key |
| Config.CompileFiles | config/release.go:23-37 | each asset or artifact holds the compiled form of its own key |
| Config.IndexActors | config/workflow.go:25-50 | actor lookup agrees with the configured list |
| Config.ValidateWorkflow | config/workflow.go:22-45 | nil exactly when patterns and destinations are sound; patterns compiled, actors indexed |
| Config.ValidateRepository | config/config.go:79-131 | the same for all nodes of a repository |
| Config.Validate | config/config.go:62-77 | nil exactly when every check in the tree passes, and the compiled forms it leaves |
| Config.SoundIffEveryCheckPasses | config/config.go:79-131 | the nested conditions are those of every reachable node, listed flat |
| Config.ValidFileJobsNeverPanic | config/asset.go:23-41 | jobs of valid releases and workflows never hit the failing type assertion |
| Config.ValidContainerJobPanicsIff | config/container.go:20-41 | a valid container's job panics exactly when it has a generic destination |
| StringJoin.Join | utils/join.go:8-40 | returns exactly under its two guards, gives the join, reserves its length, never overflows |
| StringJoin.JoinedSplit | utils/join.go:33-38 | one separator stands between what is joined first and what is joined last |
| StringJoin.RefusedThoughItFits | utils/join.go:20-22 | an output that fits and is refused |
| StringJoin.RefusedWithoutNeedIff | utils/join.go:19-24 | the refused outputs that would fit, exactly |

## Left out

- HTTP, GitHub, GCP and registry clients, tokens and signature checks: their answers are parameters.
- JSON, YAML, regular expressions, hashes, zip and tar: abstract; encoding a persisted kind is assumed inverse to decoding it.
- Directories below the jobs directory: the walk is modelled on a flat directory.
- Files removed from the jobs directory by anything but the worker, and a soft-delete directory inside the jobs directory.
- Graceful shutdown closing the channel under a blocked sender: process end is a crash step.
- Nil checks of incoming events, and job ids drawn at random when an event carries none: events are taken as sanitised.
- Tagging of sub-images at the destination, pushing to the registry, and the tag-less shortcut before it.
- Logging, metrics, flags, timeouts, merging of configuration files.
- A registry or configuration tree shared between two holders: uploads and validation are modelled without interference.
- DiscoveryRuns.HandlerFitsQueue: assumes that no error of GitHub's client holds this program's non-retryable type.
- DiscoveryRuns.DiscoveryIsDurable: a discovery job stored by hand under the name of a job it would save is excluded.
- RoundTrip.DownloadThenRead: digests with a dash or a slash are excluded; they do not come back from their names.
- GenericUpload.FilesAreIndependent: says nothing of a file whose name another file of the archive has.
- GenericUpload.MatchedAfterCleanRunIff: the same (CleanRunSettlesIff covers those files).
- GenericUpload.RetriesConverge: concludes equal hashes, not equal contents.
- GenericUpload.CleanRunSettlesIff: assumes that the two hashes tell the same contents apart among files of one name.
- Config.Validate: nil nodes and nodes reachable by two keys are excluded; directory, GitHub, log and server checks are opaque results.
