/**
 Uploading an archive's files to a generic artifact registry (server/upload_gcp_generic.go). A file already there under
 a matching hash is skipped, so repeated deliveries of a job come down to one effect.
 */
module GenericUpload {
  import opened Wrappers
  import Errors

  datatype Hash = Hash(algorithm: string, value: string)

  /** For each file name (package and version are fixed), the hashes of each artifact the registry lists. */
  type Registry = map<string, seq<seq<Hash>>>

  datatype ZipFile = ZipFile(name: string, isDir: bool, content: string)

  datatype UploadReply = Accepted | Refused | ReplyLost   // the last one took effect, yet reports an error

  /** What goes right for one file in one run. */
  datatype Luck = Luck(listed: bool, hashed: bool, extracted: bool, reply: UploadReply)

  /** Hash functions, and what the registry lists for a content once it is uploaded. */
  datatype World = World(sha256: string -> string, md5: string -> string, report: string -> seq<Hash>)

  const FAILED: Errors.Error := Errors.Plain("upload failed")

  predicate Recognised(h: Hash) {
    h.algorithm == "SHA256" || h.algorithm == "MD5"
  }

  function Digest(w: World, algorithm: string, content: string): string {
    if algorithm == "SHA256" then w.sha256(content) else w.md5(content)
  }

  function FirstRecognised(hashes: seq<Hash>): Option<Hash> {
    if hashes == [] then None
    else if Recognised(hashes[0]) then Some(hashes[0])
    else FirstRecognised(hashes[1..])
  }

  function Listed(r: Registry, name: string): seq<seq<Hash>> {
    if name in r then r[name] else []
  }

  /** The registry's artifact agrees with the content under the first hash that is understood. */
  predicate Agrees(w: World, hashes: seq<Hash>, content: string) {
    var h := FirstRecognised(hashes);
    h.Some? && h.value.value == Digest(w, h.value.algorithm, content)
  }

  predicate Matches(w: World, r: Registry, f: ZipFile) {
    Listed(r, f.name) != [] && Agrees(w, Listed(r, f.name)[0], f.content)
  }

  // ---------- one file ----------

  datatype Outcome = Outcome(registry: Registry, failed: bool, effect: bool)

  function Uploaded(w: World, r: Registry, f: ZipFile): Registry {
    r[f.name := [w.report(f.content)]]
  }

  /** What one iteration of the outer loop does. */
  function OneFile(w: World, r: Registry, f: ZipFile, luck: Luck): Outcome {
    if f.isDir then Outcome(r, false, false)
    else if !luck.listed then Outcome(r, true, false)
    else
      var stored := Listed(r, f.name);
      var known := stored != [] && FirstRecognised(stored[0]).Some?;
      if known && !luck.hashed then Outcome(r, true, false)
      else if known && Matches(w, r, f) then Outcome(r, false, false)
      else if !luck.extracted then Outcome(r, true, false)
      else
        match luck.reply
        case Accepted => Outcome(Uploaded(w, r, f), false, true)
        case Refused => Outcome(r, true, false)
        case ReplyLost => Outcome(Uploaded(w, r, f), true, true)
  }

  /** The registry after the first `n` files. */
  function After(w: World, r: Registry, z: seq<ZipFile>, lucks: seq<Luck>, n: nat): Registry
    requires n <= |z| <= |lucks|
  {
    if n == 0 then r else OneFile(w, After(w, r, z, lucks, n - 1), z[n - 1], lucks[n - 1]).registry
  }

  function FailuresIn(w: World, r: Registry, z: seq<ZipFile>, lucks: seq<Luck>, n: nat): seq<Option<Errors.Error>>
    requires n <= |z| <= |lucks|
  {
    if n == 0 then []
    else
      FailuresIn(w, r, z, lucks, n - 1)
      + if OneFile(w, After(w, r, z, lucks, n - 1), z[n - 1], lucks[n - 1]).failed then [Some(FAILED)] else []
  }

  class Store {
    var files: Registry

    constructor (files: Registry)
      ensures this.files == files
    {
      this.files := files;
    }
  }

  lemma ScanStep(hashes: seq<Hash>, k: nat)
    requires k < |hashes|
    ensures FirstRecognised(hashes[k..])
            == if Recognised(hashes[k]) then Some(hashes[k]) else FirstRecognised(hashes[k + 1..])
  {
    assert hashes[k..][1..] == hashes[k + 1..];
  }

  /** The loop over all files. A failure of one file is collected and the loop goes on. */
  method Run(w: World, z: seq<ZipFile>, lucks: seq<Luck>, store: Store)
    returns (err: Option<Errors.Error>)
    requires |z| == |lucks|
    modifies store
    ensures store.files == After(w, old(store.files), z, lucks, |z|)
    ensures err == Errors.Flatten(FailuresIn(w, old(store.files), z, lucks, |z|))
    ensures err != None ==> !Errors.Visible(err.value)
  {
    var errs := [];
    label iteratingFiles:
    for i := 0 to |z|
      invariant store.files == After(w, old(store.files), z, lucks, i)
      invariant errs == FailuresIn(w, old(store.files), z, lucks, i)
    {
      var f, luck := z[i], lucks[i];
      ghost var before, errsBefore := store.files, errs;
      if f.isDir {
        continue iteratingFiles;
      }
      if !luck.listed {
        errs := errs + [Some(FAILED)];
        continue iteratingFiles;
      }
      var stored := Listed(store.files, f.name);
      if |stored| >= 1 {
        var hashes, k := stored[0], 0;
        assert hashes[0..] == hashes;
        label iteratingHashes:
        while k < |hashes|
          invariant 0 <= k <= |hashes|
          invariant FirstRecognised(hashes) == FirstRecognised(hashes[k..])
          invariant store.files == before && errs == errsBefore
        {
          ScanStep(hashes, k);
          var h := hashes[k];
          if h.algorithm == "SHA256" {
            if !luck.hashed {
              errs := errs + [Some(FAILED)];
              continue iteratingFiles;
            }
            if w.sha256(f.content) == h.value {
              continue iteratingFiles;
            }
            break iteratingHashes;
          } else if h.algorithm == "MD5" {
            if !luck.hashed {
              errs := errs + [Some(FAILED)];
              continue iteratingFiles;
            }
            if w.md5(f.content) == h.value {
              continue iteratingFiles;
            }
            break iteratingHashes;
          }
          k := k + 1;
        }
        assert FirstRecognised(hashes).Some? ==> luck.hashed && !Agrees(w, hashes, f.content);
      }
      if !luck.extracted {
        errs := errs + [Some(FAILED)];
        continue iteratingFiles;
      }
      if luck.reply != Refused {
        store.files := Uploaded(w, store.files, f);
      }
      if luck.reply != Accepted {
        errs := errs + [Some(FAILED)];
      }
    }
    err := Errors.Flatten(errs);
    FailuresAreRetryable(w, old(store.files), z, lucks, |z|);
  }

  // ---------- what counts as a match ----------

  /** The first hash of a kind the client knows counts; other kinds before it are passed over. */
  lemma {:induction false} FirstKnownCounts(hashes: seq<Hash>, k: nat)
    requires k < |hashes| && hashes[k].algorithm in {"SHA256", "MD5"}
    requires forall j :: 0 <= j < k ==> hashes[j].algorithm !in {"SHA256", "MD5"}
    ensures FirstRecognised(hashes) == Some(hashes[k])
  {
    if k > 0 {
      FirstKnownCounts(hashes[1..], k - 1);
    }
  }

  lemma {:induction false} NoKnownHash(hashes: seq<Hash>)
    requires forall j :: 0 <= j < |hashes| ==> hashes[j].algorithm !in {"SHA256", "MD5"}
    ensures FirstRecognised(hashes) == None
  {
    if hashes != [] {
      NoKnownHash(hashes[1..]);
    }
  }

  /**
   A file matches when the first artifact listed under its name has, as its first hash of a known kind, the file's own
   hash of that kind.
   */
  lemma MatchesByHash(w: World, r: Registry, f: ZipFile, k: nat)
    requires f.name in r && r[f.name] != [] && k < |r[f.name][0]|
    requires r[f.name][0][k].algorithm in {"SHA256", "MD5"}
    requires forall j :: 0 <= j < k ==> r[f.name][0][j].algorithm !in {"SHA256", "MD5"}
    ensures r[f.name][0][k].algorithm == "SHA256" ==>
              (Matches(w, r, f) <==> r[f.name][0][k].value == w.sha256(f.content))
    ensures r[f.name][0][k].algorithm == "MD5" ==>
              (Matches(w, r, f) <==> r[f.name][0][k].value == w.md5(f.content))
  {
    FirstKnownCounts(r[f.name][0], k);
  }

  /** A file not listed, or listed without a hash of a known kind, does not match. */
  lemma UnknownDoesNotMatch(w: World, r: Registry, f: ZipFile)
    requires f.name !in r || r[f.name] == []
             || forall j :: 0 <= j < |r[f.name][0]| ==> r[f.name][0][j].algorithm !in {"SHA256", "MD5"}
    ensures !Matches(w, r, f)
  {
    if f.name in r && r[f.name] != [] {
      NoKnownHash(r[f.name][0]);
    }
  }

  /** A listed hash has to be compared with one computed from the archive. */
  ghost predicate Compares(r: Registry, f: ZipFile) {
    && f.name in r && r[f.name] != []
    && exists k :: 0 <= k < |r[f.name][0]| && r[f.name][0][k].algorithm in {"SHA256", "MD5"}
  }

  lemma {:induction false} KnownHashFound(hashes: seq<Hash>)
    ensures FirstRecognised(hashes).Some? <==>
              exists k :: 0 <= k < |hashes| && hashes[k].algorithm in {"SHA256", "MD5"}
  {
    if hashes != [] {
      KnownHashFound(hashes[1..]);
      assert forall k :: 0 < k < |hashes| ==> hashes[k] == hashes[1..][k - 1];
    }
  }

  /** Exactly what is reported as a file's failure; a lost reply is one although the upload took effect. */
  lemma FailsIff(w: World, r: Registry, f: ZipFile, luck: Luck)
    ensures OneFile(w, r, f, luck).failed <==>
              && !f.isDir
              && (|| !luck.listed
                  || (Compares(r, f) && !luck.hashed)
                  || (!Matches(w, r, f) && (!luck.extracted || luck.reply == Refused || luck.reply == ReplyLost)))
  {
    if f.name in r && r[f.name] != [] {
      KnownHashFound(r[f.name][0]);
    }
  }

  /** Exactly when a file is stored, and what the registry is then; a lost reply does not undo an upload. */
  lemma EffectIff(w: World, r: Registry, f: ZipFile, luck: Luck)
    ensures OneFile(w, r, f, luck).effect <==>
              && !f.isDir && luck.listed && (Compares(r, f) ==> luck.hashed) && !Matches(w, r, f)
              && luck.extracted && (luck.reply == Accepted || luck.reply == ReplyLost)
    ensures OneFile(w, r, f, luck).registry
            == if OneFile(w, r, f, luck).effect then r[f.name := [w.report(f.content)]] else r
  {
    if f.name in r && r[f.name] != [] {
      KnownHashFound(r[f.name][0]);
    }
  }

  /** When all goes well, a file that does not match is stored, over whatever was there; else nothing changes. */
  lemma AllWellForOne(w: World, r: Registry, f: ZipFile)
    ensures var o := OneFile(w, r, f, Luck(true, true, true, Accepted));
            && !o.failed
            && (o.effect <==> !f.isDir && !Matches(w, r, f))
            && o.registry == if o.effect then r[f.name := [w.report(f.content)]] else r
  {}

  // ---------- one run ----------

  /** No other file of the archive has this one's name. */
  ghost predicate OwnName(z: seq<ZipFile>, i: nat)
    requires i < |z|
  {
    forall k :: 0 <= k < |z| && k != i && !z[k].isDir ==> z[k].name != z[i].name
  }

  ghost predicate Settled(w: World, r: Registry, z: seq<ZipFile>) {
    forall i :: 0 <= i < |z| && !z[i].isDir ==> Matches(w, r, z[i])
  }

  predicate SameDigests(w: World, c: string, d: string) {
    w.sha256(c) == w.sha256(d) && w.md5(c) == w.md5(d)
  }

  /** Every other file of this one's name has the same digests; a name of its own is the plain case. */
  ghost predicate ConsistentAt(w: World, z: seq<ZipFile>, i: nat)
    requires i < |z|
  {
    forall k :: 0 <= k < |z| && !z[k].isDir && z[k].name == z[i].name ==> SameDigests(w, z[i].content, z[k].content)
  }

  /** Files of one name have the same digests. */
  ghost predicate Consistent(w: World, z: seq<ZipFile>) {
    forall i :: 0 <= i < |z| && !z[i].isDir ==> ConsistentAt(w, z, i)
  }

  lemma OneFileTouchesOnlyItsName(w: World, r: Registry, f: ZipFile, luck: Luck, name: string)
    requires f.isDir || f.name != name
    ensures Listed(OneFile(w, r, f, luck).registry, name) == Listed(r, name)
  {}

  /** A file found to match is left alone, whatever goes wrong. */
  lemma MatchedIsSkipped(w: World, r: Registry, f: ZipFile, luck: Luck)
    requires f.isDir || Matches(w, r, f)
    ensures OneFile(w, r, f, luck).registry == r && !OneFile(w, r, f, luck).effect
  {}

  /** What a file's own iteration does depends on nothing but what is listed under its name. */
  lemma OneFileLocal(w: World, r: Registry, s: Registry, f: ZipFile, luck: Luck)
    requires Listed(r, f.name) == Listed(s, f.name)
    ensures OneFile(w, r, f, luck).failed == OneFile(w, s, f, luck).failed
    ensures OneFile(w, r, f, luck).effect == OneFile(w, s, f, luck).effect
    ensures Listed(OneFile(w, r, f, luck).registry, f.name) == Listed(OneFile(w, s, f, luck).registry, f.name)
  {}

  lemma {:induction false} UntouchedSoFar(
    w: World, r: Registry, z: seq<ZipFile>, lucks: seq<Luck>, m: nat, n: nat, name: string)
    requires m <= n <= |z| == |lucks|
    requires forall k :: m <= k < n && !z[k].isDir ==> z[k].name != name
    ensures Listed(After(w, r, z, lucks, n), name) == Listed(After(w, r, z, lucks, m), name)
  {
    if m < n {
      UntouchedSoFar(w, r, z, lucks, m, n - 1, name);
      OneFileTouchesOnlyItsName(w, After(w, r, z, lucks, n - 1), z[n - 1], lucks[n - 1], name);
    }
  }

  /**
   One file's trouble never reaches another: a file with a name of its own fares in a run as it would alone, whatever
   happens to the others.
   */
  lemma FilesAreIndependent(w: World, r: Registry, z: seq<ZipFile>, lucks: seq<Luck>, i: nat)
    requires i < |z| == |lucks| && !z[i].isDir && OwnName(z, i)
    ensures var alone := OneFile(w, r, z[i], lucks[i]);
            var there := OneFile(w, After(w, r, z, lucks, i), z[i], lucks[i]);
            && Listed(After(w, r, z, lucks, |z|), z[i].name) == Listed(alone.registry, z[i].name)
            && there.failed == alone.failed && there.effect == alone.effect
  {
    UntouchedSoFar(w, r, z, lucks, 0, i, z[i].name);
    UntouchedSoFar(w, r, z, lucks, i + 1, |z|, z[i].name);
    OneFileLocal(w, After(w, r, z, lucks, i), r, z[i], lucks[i]);
  }

  /** File `i` fails in this run. */
  predicate Fails(w: World, r: Registry, z: seq<ZipFile>, lucks: seq<Luck>, i: nat)
    requires i < |z| == |lucks|
  {
    OneFile(w, After(w, r, z, lucks, i), z[i], lucks[i]).failed
  }

  lemma FailuresGrow(w: World, r: Registry, z: seq<ZipFile>, lucks: seq<Luck>, n: nat)
    requires n < |z| == |lucks|
    ensures FailuresIn(w, r, z, lucks, n + 1)
            == FailuresIn(w, r, z, lucks, n) + if Fails(w, r, z, lucks, n) then [Some(FAILED)] else []
  {}

  lemma {:induction false} NoFailuresListed(w: World, r: Registry, z: seq<ZipFile>, lucks: seq<Luck>, n: nat)
    requires n <= |z| == |lucks|
    ensures FailuresIn(w, r, z, lucks, n) == [] <==> forall i :: 0 <= i < n ==> !Fails(w, r, z, lucks, i)
  {
    if n > 0 {
      NoFailuresListed(w, r, z, lucks, n - 1);
      FailuresGrow(w, r, z, lucks, n - 1);
    }
  }

  /** The run returns nil exactly when no file failed. */
  lemma NoFailures(w: World, r: Registry, z: seq<ZipFile>, lucks: seq<Luck>)
    requires |z| == |lucks|
    ensures ErrorFree(w, r, z, lucks) <==> forall i :: 0 <= i < |z| ==> !Fails(w, r, z, lucks, i)
  {
    var failures := FailuresIn(w, r, z, lucks, |z|);
    NoFailuresListed(w, r, z, lucks, |z|);
    FailuresAreErrors(w, r, z, lucks, |z|);
    Errors.FlattenNil(failures);
    assert failures != [] ==> failures[0] == Some(FAILED);
  }

  /** Whatever fails is left for a retry. */
  lemma FailuresAreRetryable(w: World, r: Registry, z: seq<ZipFile>, lucks: seq<Luck>, n: nat)
    requires n <= |z| == |lucks|
    ensures var err := Errors.Flatten(FailuresIn(w, r, z, lucks, n)); err != None ==> !Errors.Visible(err.value)
  {
    var failures := FailuresIn(w, r, z, lucks, n);
    FailuresAreErrors(w, r, z, lucks, n);
    Errors.FindIffVisible(FAILED);
    Errors.FlattenDecision(failures);
    if Errors.Flatten(failures) != None {
      Errors.FlattenNil(failures);
      Errors.FindIffVisible(Errors.Flatten(failures).value);
    }
  }

  /** A run in which all goes well returns nil, whatever the registry held. */
  lemma AllWellIsErrorFree(w: World, r: Registry, z: seq<ZipFile>, lucks: seq<Luck>)
    requires |z| == |lucks| && forall k :: 0 <= k < |z| ==> lucks[k] == Luck(true, true, true, Accepted)
    ensures ErrorFree(w, r, z, lucks)
  {
    NoFailures(w, r, z, lucks);
    forall k | 0 <= k < |z| ensures !Fails(w, r, z, lucks, k) {
      AllWellForOne(w, After(w, r, z, lucks, k), z[k]);
    }
  }

  lemma {:induction false} FailuresAreErrors(w: World, r: Registry, z: seq<ZipFile>, lucks: seq<Luck>, n: nat)
    requires n <= |z| == |lucks|
    ensures forall k :: 0 <= k < |FailuresIn(w, r, z, lucks, n)| ==> FailuresIn(w, r, z, lucks, n)[k] == Some(FAILED)
  {
    if n > 0 {
      FailuresAreErrors(w, r, z, lucks, n - 1);
    }
  }

  ghost predicate ErrorFree(w: World, r: Registry, z: seq<ZipFile>, lucks: seq<Luck>)
    requires |z| == |lucks|
  {
    Errors.Flatten(FailuresIn(w, r, z, lucks, |z|)) == None
  }

  /**
   After a run without errors a file matches exactly when it did before, or when what the registry reports for its
   content agrees with that content.
   */
  lemma MatchedAfterCleanRunIff(w: World, r: Registry, z: seq<ZipFile>, lucks: seq<Luck>, i: nat)
    requires i < |z| == |lucks| && !z[i].isDir && OwnName(z, i) && ErrorFree(w, r, z, lucks)
    ensures Matches(w, After(w, r, z, lucks, |z|), z[i]) <==>
              Matches(w, r, z[i]) || Agrees(w, w.report(z[i].content), z[i].content)
  {
    NoFailures(w, r, z, lucks);
    assert !Fails(w, r, z, lucks, i);
    FilesAreIndependent(w, r, z, lucks, i);
  }

  ghost predicate Faithful(w: World) {
    forall content :: Agrees(w, w.report(content), content)
  }

  /** On a settled registry no run changes anything or uploads anything, whatever goes wrong in it. */
  lemma {:induction false} SettledStays(w: World, r: Registry, z: seq<ZipFile>, lucks: seq<Luck>, n: nat)
    requires n <= |z| == |lucks| && Settled(w, r, z)
    ensures After(w, r, z, lucks, n) == r
    ensures n < |z| ==> !OneFile(w, After(w, r, z, lucks, n), z[n], lucks[n]).effect
  {
    if n > 0 {
      SettledStays(w, r, z, lucks, n - 1);
      MatchedIsSkipped(w, r, z[n - 1], lucks[n - 1]);
    }
    if n < |z| {
      MatchedIsSkipped(w, r, z[n], lucks[n]);
    }
  }

  // ---------- many runs ----------

  /** The registry after the first `n` runs over the same archive. */
  function AfterRuns(w: World, r: Registry, z: seq<ZipFile>, runs: seq<seq<Luck>>, n: nat): Registry
    requires n <= |runs| && forall k :: 0 <= k < |runs| ==> |runs[k]| == |z|
  {
    if n == 0 then r else After(w, AfterRuns(w, r, z, runs, n - 1), z, runs[n - 1], |z|)
  }

  /** How often file `i` was in effect uploaded in the first `n` runs. */
  function EffectsOn(w: World, r: Registry, z: seq<ZipFile>, runs: seq<seq<Luck>>, n: nat, i: nat): nat
    requires i < |z| && n <= |runs| && forall k :: 0 <= k < |runs| ==> |runs[k]| == |z|
  {
    if n == 0 then 0
    else
      EffectsOn(w, r, z, runs, n - 1, i)
      + if OneFile(w, After(w, AfterRuns(w, r, z, runs, n - 1), z, runs[n - 1], i), z[i], runs[n - 1][i]).effect
        then 1 else 0
  }

  lemma OneFileEffectMatches(w: World, r: Registry, f: ZipFile, luck: Luck)
    requires Faithful(w) && !f.isDir
    ensures OneFile(w, r, f, luck).effect ==> !Matches(w, r, f) && Matches(w, OneFile(w, r, f, luck).registry, f)
    ensures Matches(w, r, f) ==> Matches(w, OneFile(w, r, f, luck).registry, f)
    ensures !OneFile(w, r, f, luck).failed ==> Matches(w, OneFile(w, r, f, luck).registry, f)
  {}

  /** Handling any file of the archive leaves a match of another one in place. */
  lemma MatchSurvivesFile(w: World, r: Registry, z: seq<ZipFile>, luck: Luck, i: nat, k: nat)
    requires Faithful(w) && i < |z| && k < |z| && !z[i].isDir && ConsistentAt(w, z, i) && Matches(w, r, z[i])
    ensures Matches(w, OneFile(w, r, z[k], luck).registry, z[i])
  {
    if !z[k].isDir && z[k].name == z[i].name {
      assert SameDigests(w, z[i].content, z[k].content);
      MatchedIsSkipped(w, r, z[k], luck);
    } else {
      OneFileTouchesOnlyItsName(w, r, z[k], luck, z[i].name);
    }
  }

  lemma {:induction false} MatchSurvives(
    w: World, r: Registry, z: seq<ZipFile>, lucks: seq<Luck>, m: nat, n: nat, i: nat)
    requires Faithful(w) && i < |z| == |lucks| && !z[i].isDir && ConsistentAt(w, z, i) && m <= n <= |z|
    requires Matches(w, After(w, r, z, lucks, m), z[i])
    ensures Matches(w, After(w, r, z, lucks, n), z[i])
  {
    if m < n {
      MatchSurvives(w, r, z, lucks, m, n - 1, i);
      MatchSurvivesFile(w, After(w, r, z, lucks, n - 1), z, lucks[n - 1], i, n - 1);
    }
  }

  /** What a run does to one file: a match stays, and an effect or the lack of a failure leaves a match. */
  lemma RunOnOneFile(w: World, r: Registry, z: seq<ZipFile>, lucks: seq<Luck>, i: nat)
    requires Faithful(w) && i < |z| == |lucks| && !z[i].isDir && ConsistentAt(w, z, i)
    ensures var there := OneFile(w, After(w, r, z, lucks, i), z[i], lucks[i]);
            && (Matches(w, r, z[i]) ==> !there.effect)
            && (Matches(w, r, z[i]) || there.effect || !there.failed ==> Matches(w, After(w, r, z, lucks, |z|), z[i]))
  {
    var before := After(w, r, z, lucks, i);
    if Matches(w, r, z[i]) {
      MatchSurvives(w, r, z, lucks, 0, i, i);
    }
    OneFileEffectMatches(w, before, z[i], lucks[i]);
    assert After(w, r, z, lucks, i + 1) == OneFile(w, before, z[i], lucks[i]).registry;
    if Matches(w, After(w, r, z, lucks, i + 1), z[i]) {
      MatchSurvives(w, r, z, lucks, i + 1, |z|, i);
    }
  }

  /**
   At least once becomes once: over any sequence of runs, failing, partial or with lost replies, each file takes effect
   at most once, and only if it was not there; from then on it matches.
   */
  lemma {:induction false} OneEffect(w: World, r: Registry, z: seq<ZipFile>, runs: seq<seq<Luck>>, n: nat, i: nat)
    requires Faithful(w) && i < |z| && !z[i].isDir && ConsistentAt(w, z, i)
    requires n <= |runs| && forall k :: 0 <= k < |runs| ==> |runs[k]| == |z|
    ensures EffectsOn(w, r, z, runs, n, i) <= if Matches(w, r, z[i]) then 0 else 1
    ensures EffectsOn(w, r, z, runs, n, i) == 1 || Matches(w, r, z[i]) ==> Matches(w, AfterRuns(w, r, z, runs, n), z[i])
  {
    if n > 0 {
      OneEffect(w, r, z, runs, n - 1, i);
      RunOnOneFile(w, AfterRuns(w, r, z, runs, n - 1), z, runs[n - 1], i);
    }
  }

  /** A file that is to be uploaded, once all goes well for it in some run, takes effect exactly once. */
  lemma {:induction false} ExactlyOneEffect(
    w: World, r: Registry, z: seq<ZipFile>, runs: seq<seq<Luck>>, n: nat, i: nat, k: nat)
    requires Faithful(w) && i < |z| && !z[i].isDir && OwnName(z, i) && !Matches(w, r, z[i])
    requires k < n <= |runs| && forall j :: 0 <= j < |runs| ==> |runs[j]| == |z|
    requires runs[k][i] == Luck(true, true, true, Accepted)
    ensures EffectsOn(w, r, z, runs, n, i) == 1
    ensures Matches(w, AfterRuns(w, r, z, runs, n), z[i])
  {
    OneEffect(w, r, z, runs, n, i);
    if k < n - 1 {
      ExactlyOneEffect(w, r, z, runs, n - 1, i, k);
    } else {
      OneEffect(w, r, z, runs, k, i);
      MatchedOrEffect(w, r, z, runs, k, i);
      FilesAreIndependent(w, AfterRuns(w, r, z, runs, k), z, runs[k], i);
      AllWellForOne(w, AfterRuns(w, r, z, runs, k), z[i]);
    }
  }

  /** A file that has come to match in some runs has taken effect in them. */
  lemma {:induction false} MatchedOrEffect(
    w: World, r: Registry, z: seq<ZipFile>, runs: seq<seq<Luck>>, n: nat, i: nat)
    requires i < |z| && !z[i].isDir && OwnName(z, i) && !Matches(w, r, z[i])
    requires n <= |runs| && forall j :: 0 <= j < |runs| ==> |runs[j]| == |z|
    ensures Matches(w, AfterRuns(w, r, z, runs, n), z[i]) ==> EffectsOn(w, r, z, runs, n, i) > 0
  {
    if n > 0 {
      MatchedOrEffect(w, r, z, runs, n - 1, i);
      var before := AfterRuns(w, r, z, runs, n - 1);
      FilesAreIndependent(w, before, z, runs[n - 1], i);
      NoEffectNoChange(w, before, z[i], runs[n - 1][i]);
    }
  }

  lemma NoEffectNoChange(w: World, r: Registry, f: ZipFile, luck: Luck)
    ensures !OneFile(w, r, f, luck).effect ==> OneFile(w, r, f, luck).registry == r
  {}

  /** A run in which all goes well settles a consistent archive, whatever happened before. */
  lemma AllWellSettles(w: World, r: Registry, z: seq<ZipFile>, lucks: seq<Luck>)
    requires Faithful(w) && Consistent(w, z) && |z| == |lucks|
    requires forall k :: 0 <= k < |z| ==> lucks[k] == Luck(true, true, true, Accepted)
    ensures Settled(w, After(w, r, z, lucks, |z|), z)
  {
    AllWellIsErrorFree(w, r, z, lucks);
    CleanRunSettles(w, r, z, lucks);
  }

  /** A run without errors over consistent files settles all of them. */
  lemma CleanRunSettles(w: World, r: Registry, z: seq<ZipFile>, lucks: seq<Luck>)
    requires Faithful(w) && Consistent(w, z) && |z| == |lucks| && ErrorFree(w, r, z, lucks)
    ensures Settled(w, After(w, r, z, lucks, |z|), z)
  {
    NoFailures(w, r, z, lucks);
    forall i | 0 <= i < |z| && !z[i].isDir ensures Matches(w, After(w, r, z, lucks, |z|), z[i]) {
      assert !Fails(w, r, z, lucks, i);
      RunOnOneFile(w, r, z, lucks, i);
    }
  }

  /**
   Retries converge: whatever happened in earlier runs, a run without errors leaves every file of the archive matching,
   and no later run changes or uploads anything.
   */
  lemma RetriesConverge(
    w: World, r: Registry, z: seq<ZipFile>, runs: seq<seq<Luck>>, last: seq<Luck>, next: seq<Luck>)
    requires Faithful(w) && Consistent(w, z) && |last| == |next| == |z|
    requires forall k :: 0 <= k < |runs| ==> |runs[k]| == |z|
    requires ErrorFree(w, AfterRuns(w, r, z, runs, |runs|), z, last)
    ensures var end := After(w, AfterRuns(w, r, z, runs, |runs|), z, last, |z|);
            && Settled(w, end, z)
            && After(w, end, z, next, |z|) == end
            && forall i :: 0 <= i < |z| ==> !OneFile(w, After(w, end, z, next, i), z[i], next[i]).effect
  {
    var before := AfterRuns(w, r, z, runs, |runs|);
    var end := After(w, before, z, last, |z|);
    CleanRunSettles(w, before, z, last);
    SettledStays(w, end, z, next, |z|);
    forall i | 0 <= i < |z| ensures !OneFile(w, After(w, end, z, next, i), z[i], next[i]).effect {
      SettledStays(w, end, z, next, i);
    }
  }

  // ---------- files of one name ----------

  /** Two files of one name that differ under both hashes never settle, whatever the registry holds. */
  lemma SameNameNeverSettles(w: World, r: Registry, z: seq<ZipFile>, i: nat, j: nat)
    requires i < |z| && j < |z| && !z[i].isDir && !z[j].isDir && z[i].name == z[j].name
    requires w.sha256(z[i].content) != w.sha256(z[j].content) && w.md5(z[i].content) != w.md5(z[j].content)
    ensures !Settled(w, r, z)
  {
    assert !(Matches(w, r, z[i]) && Matches(w, r, z[j]));
  }

  /** Among files of one name, the two hashes tell the same contents apart. */
  ghost predicate HashesConcur(w: World, z: seq<ZipFile>) {
    forall i, j :: 0 <= i < |z| && 0 <= j < |z| && !z[i].isDir && !z[j].isDir && z[i].name == z[j].name ==>
      (w.sha256(z[i].content) == w.sha256(z[j].content) <==> w.md5(z[i].content) == w.md5(z[j].content))
  }

  /** Exactly the consistent archives settle by a run without errors. */
  lemma CleanRunSettlesIff(w: World, r: Registry, z: seq<ZipFile>, lucks: seq<Luck>)
    requires Faithful(w) && HashesConcur(w, z) && |z| == |lucks| && ErrorFree(w, r, z, lucks)
    ensures Settled(w, After(w, r, z, lucks, |z|), z) <==> Consistent(w, z)
  {
    if Consistent(w, z) {
      CleanRunSettles(w, r, z, lucks);
    } else {
      var i :| 0 <= i < |z| && !z[i].isDir && !ConsistentAt(w, z, i);
      var j :| && 0 <= j < |z| && !z[j].isDir && z[j].name == z[i].name
               && !SameDigests(w, z[i].content, z[j].content);
      SameNameNeverSettles(w, After(w, r, z, lucks, |z|), z, i, j);
    }
  }
}
