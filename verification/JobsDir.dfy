/**
 The jobs directory as the handlers write to it: one atomic save after another, any of which can fail
 (`job.Save`, job/job.go).
 */
module JobsDir {
  import opened Wrappers
  import opened Jobs
  import opened Sequences
  import Errors

  /** One call of `Save` and whether it worked. */
  datatype Attempt = Attempt(key: Key, payload: Payload, ok: bool)

  function Replay(files: Directory, dir: string, attempts: seq<Attempt>): Directory {
    if attempts == [] then files
    else
      var before := Replay(files, dir, attempts[..|attempts| - 1]);
      var a := attempts[|attempts| - 1];
      if a.ok then Save(before, dir, a.key, a.payload) else before
  }

  predicate AllOk(attempts: seq<Attempt>) {
    forall i :: 0 <= i < |attempts| ==> attempts[i].ok
  }

  /** The error a handler collects for a failed save is a plain one: retryable. */
  const SAVE_FAILED: Errors.Error := Errors.Plain("failed to write job file")

  function ErrorsOf(attempts: seq<Attempt>): seq<Option<Errors.Error>> {
    if attempts == [] then []
    else
      ErrorsOf(attempts[..|attempts| - 1])
      + if attempts[|attempts| - 1].ok then [] else [Some(SAVE_FAILED)]
  }

  class JobsDirectory {
    const dir: string
    const works: nat -> bool       // whether the n-th save of the process works
    var files: Directory
    var attempts: seq<Attempt>

    constructor (dir: string, works: nat -> bool, files: Directory)
      ensures this.dir == dir && this.works == works && this.files == files && attempts == []
    {
      this.dir, this.works, this.files, attempts := dir, works, files, [];
    }

    method SaveJob(k: Key, payload: Payload) returns (err: Option<Errors.Error>)
      modifies this
      ensures var a := Attempt(k, payload, works(|old(attempts)|));
              && attempts == old(attempts) + [a]
              && files == Replay(old(files), dir, [a])
              && err == (if a.ok then None else Some(SAVE_FAILED))
    {
      var a := Attempt(k, payload, works(|attempts|));
      assert [a][..0] == [];
      if a.ok {
        files := Save(files, dir, k, payload);
        err := None;
      } else {
        err := Some(SAVE_FAILED);
      }
      attempts := attempts + [a];
    }
  }

  lemma {:induction false} ReplaySplit(files: Directory, dir: string, a: seq<Attempt>, b: seq<Attempt>)
    ensures Replay(files, dir, a + b) == Replay(Replay(files, dir, a), dir, b)
  {
    if b == [] {
      assert a + b == a;
    } else {
      assert (a + b)[..|a + b| - 1] == a + b[..|b| - 1];
      ReplaySplit(files, dir, a, b[..|b| - 1]);
    }
  }

  lemma {:induction false} ErrorsSplit(a: seq<Attempt>, b: seq<Attempt>)
    ensures ErrorsOf(a + b) == ErrorsOf(a) + ErrorsOf(b)
  {
    if b == [] {
      assert a + b == a;
    } else {
      assert (a + b)[..|a + b| - 1] == a + b[..|b| - 1];
      ErrorsSplit(a, b[..|b| - 1]);
    }
  }

  lemma {:induction false} ErrorsExact(attempts: seq<Attempt>)
    ensures ErrorsOf(attempts) == [] <==> AllOk(attempts)
    ensures forall i :: 0 <= i < |ErrorsOf(attempts)| ==> ErrorsOf(attempts)[i] == Some(SAVE_FAILED)
  {
    if attempts != [] {
      ErrorsExact(attempts[..|attempts| - 1]);
    }
  }

  /** What a handler returns for its saves: nil exactly when all worked, and never an error that ends the job. */
  lemma CollectedDecision(attempts: seq<Attempt>)
    ensures Errors.Flatten(ErrorsOf(attempts)) == None <==> AllOk(attempts)
    ensures Errors.Removes(Errors.Flatten(ErrorsOf(attempts))) <==> AllOk(attempts)
  {
    var errs := ErrorsOf(attempts);
    ErrorsExact(attempts);
    Errors.FlattenNil(errs);
    Errors.FlattenDecision(errs);
    if errs != [] {
      assert errs[0] != None;
      forall e | Some(e) in errs ensures !Errors.Visible(e) {
        assert e == SAVE_FAILED;
        Errors.FindIffVisible(e);
      }
    }
  }

  /** What was asked to be saved, in order, whether or not it worked. */
  function Requests(attempts: seq<Attempt>): seq<(Key, Payload)> {
    seq(|attempts|, i requires 0 <= i < |attempts| => (attempts[i].key, attempts[i].payload))
  }

  lemma AppendAttempts(files: Directory, dir: string, made: seq<Attempt>, more: seq<Attempt>)
    ensures Replay(files, dir, made + more) == Replay(Replay(files, dir, made), dir, more)
    ensures ErrorsOf(made + more) == ErrorsOf(made) + ErrorsOf(more)
    ensures Requests(made + more) == Requests(made) + Requests(more)
  {
    ReplaySplit(files, dir, made, more);
    ErrorsSplit(made, more);
    RequestsSplit(made, more);
  }

  lemma RequestsSplit(a: seq<Attempt>, b: seq<Attempt>)
    ensures Requests(a + b) == Requests(a) + Requests(b)
  {}

  lemma AppendAttempt(files: Jobs.Directory, dir: string, made: seq<Attempt>, a: Attempt)
    ensures Replay(files, dir, made + [a]) == Replay(Replay(files, dir, made), dir, [a])
    ensures ErrorsOf(made + [a]) == ErrorsOf(made) + if a.ok then [] else [Some(SAVE_FAILED)]
    ensures Requests(made + [a]) == Requests(made) + [(a.key, a.payload)]
  {
    AppendAttempts(files, dir, made, [a]);
    assert [a][..0] == [];
  }

  /** When every save works, the attempts are just saves. */
  lemma {:induction false} ReplayAllOk(files: Directory, dir: string, attempts: seq<Attempt>)
    requires AllOk(attempts)
    ensures Replay(files, dir, attempts) == SaveAll(files, dir, Requests(attempts))
  {
    if attempts != [] {
      var front := attempts[..|attempts| - 1];
      ReplayAllOk(files, dir, front);
      assert Requests(attempts)[..|attempts| - 1] == Requests(front);
    }
  }

  ghost predicate OnePayloadEach(saves: seq<(Key, Payload)>) {
    forall k, p, q :: (k, p) in saves && (k, q) in saves ==> p == q
  }

  /** The last payload asked for an identity is one that was asked for it. */
  lemma {:induction false} LastPayloadWasAsked(saves: seq<(Key, Payload)>, k: Key)
    ensures k in LastPayloads(saves) ==> (k, LastPayloads(saves)[k]) in saves
    ensures (exists p :: (k, p) in saves) ==> k in LastPayloads(saves)
  {
    if saves != [] {
      LastPayloadWasAsked(saves[..|saves| - 1], k);
      assert saves == saves[..|saves| - 1] + [saves[|saves| - 1]];
    }
  }

  lemma {:induction false} SaveAllElsewhere(files: Directory, dir: string, saves: seq<(Key, Payload)>, path: string)
    requires forall i :: 0 <= i < |saves| ==> FileName(dir, saves[i].0) != path
    ensures path in SaveAll(files, dir, saves) <==> path in files
    ensures path in files ==> SaveAll(files, dir, saves)[path] == files[path]
  {
    if saves != [] {
      SaveAllElsewhere(files, dir, saves[..|saves| - 1], path);
    }
  }

  lemma {:induction false} SaveAllAt(files: Directory, dir: string, saves: seq<(Key, Payload)>, k: Key)
    requires k in LastPayloads(saves)
    ensures FileName(dir, k) in SaveAll(files, dir, saves)
    ensures SaveAll(files, dir, saves)[FileName(dir, k)] == Marshal(NewJob(k, LastPayloads(saves)[k]))
  {
    var front, last := saves[..|saves| - 1], saves[|saves| - 1];
    SameFileIffSameJob(dir, k, last.0);
    if k != last.0 {
      SaveAllAt(files, dir, front, k);
    }
  }

  /** When every save works, the file of an identity loads as the job with its last payload. */
  lemma LastPayloadLoads(files: Directory, dir: string, made: seq<Attempt>, k: Key)
    requires AllOk(made) && k in LastPayloads(Requests(made))
    ensures var path, files' := FileName(dir, k), Replay(files, dir, made);
            && path in files'
            && Parse(path, files'[path]) == Ok(Job(KindOf(k), Id(k), LastPayloads(Requests(made))[k], path))
  {
    ReplayAllOk(files, dir, made);
    SaveAllAt(files, dir, Requests(made), k);
    LoadAfterSave(NewJob(k, LastPayloads(Requests(made))[k]), FileName(dir, k));
  }

  /** Later saves overwrite earlier ones, identity by identity. */
  lemma {:induction false} LastPayloadsSplit(a: seq<(Key, Payload)>, b: seq<(Key, Payload)>)
    ensures LastPayloads(a + b) == LastPayloads(a) + LastPayloads(b)
  {
    if b == [] {
      assert a + b == a;
    } else {
      assert (a + b)[..|a + b| - 1] == a + b[..|b| - 1];
      LastPayloadsSplit(a, b[..|b| - 1]);
    }
  }

  /** What a run of saves leaves depends on nothing but the last payload asked for each identity. */
  lemma SaveAllByLast(files: Directory, dir: string, a: seq<(Key, Payload)>, b: seq<(Key, Payload)>)
    requires LastPayloads(a) == LastPayloads(b)
    ensures SaveAll(files, dir, a) == SaveAll(files, dir, b)
  {
    var fa, fb := SaveAll(files, dir, a), SaveAll(files, dir, b);
    forall path ensures (path in fa <==> path in fb) && (path in fa && path in fb ==> fa[path] == fb[path]) {
      if k :| k in LastPayloads(a) && FileName(dir, k) == path {
        SaveAllAt(files, dir, a, k);
        SaveAllAt(files, dir, b, k);
      } else {
        SaveAllUnasked(files, dir, a, path);
        SaveAllUnasked(files, dir, b, path);
      }
    }
  }

  lemma SaveAllUnasked(files: Directory, dir: string, saves: seq<(Key, Payload)>, path: string)
    requires forall k :: k in LastPayloads(saves) ==> FileName(dir, k) != path
    ensures path in SaveAll(files, dir, saves) <==> path in files
    ensures path in files ==> SaveAll(files, dir, saves)[path] == files[path]
  {
    forall i | 0 <= i < |saves| ensures FileName(dir, saves[i].0) != path {
      LastPayloadWasAsked(saves, saves[i].0);
      assert (saves[i].0, saves[i].1) in saves;
    }
    SaveAllElsewhere(files, dir, saves, path);
  }

  /** Two runs of saves that end with different payloads for an identity leave different directories. */
  lemma DifferentLastShows(
    files: Directory, dir: string, a: seq<(Key, Payload)>, b: seq<(Key, Payload)>, k: Key)
    requires k in LastPayloads(a) && k in LastPayloads(b) && LastPayloads(a)[k] != LastPayloads(b)[k]
    ensures SaveAll(files, dir, a) != SaveAll(files, dir, b)
  {
    var p, q := LastPayloads(a)[k], LastPayloads(b)[k];
    SaveAllAt(files, dir, a, k);
    SaveAllAt(files, dir, b, k);
    assert Marshal(NewJob(k, p)).bodies[KindOf(k)].1 == p;
    assert Marshal(NewJob(k, q)).bodies[KindOf(k)].1 == q;
  }

  /** The order of saves does not matter when no identity is asked for with two payloads. */
  lemma SaveAllIgnoresOrder(files: Directory, dir: string, a: seq<(Key, Payload)>, b: seq<(Key, Payload)>)
    requires forall x :: x in a <==> x in b
    requires OnePayloadEach(a)
    ensures SaveAll(files, dir, a) == SaveAll(files, dir, b)
  {
    forall k ensures k in LastPayloads(a) <==> k in LastPayloads(b) {
      LastPayloadWasAsked(a, k);
      LastPayloadWasAsked(b, k);
    }
    forall k | k in LastPayloads(a) ensures LastPayloads(a)[k] == LastPayloads(b)[k] {
      LastPayloadWasAsked(a, k);
      SameLast(a, b, k, LastPayloads(a)[k]);
    }
    SaveAllByLast(files, dir, a, b);
  }

  lemma SameLast(a: seq<(Key, Payload)>, b: seq<(Key, Payload)>, k: Key, p: Payload)
    requires forall x :: x in a <==> x in b
    requires OnePayloadEach(a) && (k, p) in a
    ensures k in LastPayloads(a) && k in LastPayloads(b)
    ensures LastPayloads(a)[k] == LastPayloads(b)[k] == p
  {
    LastPayloadWasAsked(a, k);
    LastPayloadWasAsked(b, k);
  }
}
