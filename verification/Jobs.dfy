/**
 Job identity, file names and persistence (job/job.go and the four job constructors).
 */
module Jobs {
  import opened Wrappers
  import Paths

  /** A persisted job's identity: its kind and the numeric id or ids its constructor is given. */
  datatype Key =
    | Discover(run: int)
    | Package(version: int)
    | Release(asset: int)
    | Artifact(run: int, artifact: int)

  /** `Cleanup` stands for `CleanupUnparseableJob`, the one kind that is never written to disk. */
  datatype Kind = DiscoverKind | PackageKind | ReleaseKind | ArtifactKind | CleanupKind

  function KindOf(k: Key): Kind {
    match k
    case Discover(_) => DiscoverKind
    case Package(_) => PackageKind
    case Release(_) => ReleaseKind
    case Artifact(_, _) => ArtifactKind
  }

  function TypeName(k: Kind): string {
    match k
    case DiscoverKind => "discover-workflow-artifacts"
    case PackageKind => "sync-container-registry-package"
    case ReleaseKind => "sync-release-asset"
    case ArtifactKind => "sync-workflow-artifact"
    case CleanupKind => "cleanup-unparseable-job"
  }

  // ---------- decimal numbers, as `%d` prints them ----------

  function DigitChar(d: nat): char
    requires d < 10
  {
    (('0' as int) + d) as char
  }

  predicate IsDigit(c: char) {
    '0' <= c <= '9'
  }

  function Digits(n: nat): (s: string)
    ensures |s| > 0
    ensures forall i :: 0 <= i < |s| ==> IsDigit(s[i])
  {
    if n < 10 then [DigitChar(n)] else Digits(n / 10) + [DigitChar(n % 10)]
  }

  function Decimal(n: int): string {
    if n < 0 then "-" + Digits(-n) else Digits(n)
  }

  /** The number a string of digits denotes. */
  function Denotes(s: string): int {
    if s == "" then 0 else 10 * Denotes(s[..|s| - 1]) + (s[|s| - 1] as int - '0' as int)
  }

  lemma {:induction false} DigitsDenote(n: nat)
    ensures Denotes(Digits(n)) == n
  {
    if n < 10 {
      assert Digits(n)[..0] == "";
    } else {
      DigitsDenote(n / 10);
      assert Digits(n)[..|Digits(n)| - 1] == Digits(n / 10);
    }
  }

  /** Decimal numbers have no leading zeros, and a minus sign in front exactly when they are negative. */
  lemma {:induction false} DecimalSpelled(n: int)
    requires n >= 0
    ensures n > 0 ==> Digits(n)[0] != '0'
    ensures Digits(0) == "0" && Decimal(n) == Digits(n)
    ensures n > 0 ==> Decimal(-n) == "-" + Digits(n)
  {
    if n >= 10 {
      DecimalSpelled(n / 10);
    }
  }

  lemma DecimalInjective(a: int, b: int)
    ensures Decimal(a) == Decimal(b) ==> a == b
  {
    if Decimal(a) == Decimal(b) {
      assert Decimal(a)[0] == '-' <==> a < 0;
      assert Decimal(b)[0] == '-' <==> b < 0;
      if a < 0 {
        assert Decimal(a)[1..] == Digits(-a);
        assert Decimal(b)[1..] == Digits(-b);
        DigitsDenote(-a);
        DigitsDenote(-b);
      } else {
        DigitsDenote(a);
        DigitsDenote(b);
      }
    }
  }

  function FirstDash(s: string): nat {
    if s == "" || s[0] == '-' then 0 else 1 + FirstDash(s[1..])
  }

  lemma {:induction false} FirstDashAfter(x: string, y: string)
    requires '-' !in x
    ensures FirstDash(x + ("-" + y)) == |x|
  {
    if x != "" {
      assert (x + ("-" + y))[1..] == x[1..] + ("-" + y);
      FirstDashAfter(x[1..], y);
    }
  }

  /** Dash-free heads followed by a dash are cut at the same place. */
  lemma CutAtDash(x: string, y: string, x': string, y': string)
    requires '-' !in x && '-' !in x'
    requires x + ("-" + y) == x' + ("-" + y')
    ensures x == x' && y == y'
  {
    FirstDashAfter(x, y);
    FirstDashAfter(x', y');
    var s, s' := x + ("-" + y), x' + ("-" + y');
    assert x == s[..|x|] && x' == s'[..|x'|];
    assert y == s[|x| + 1..] && y' == s'[|x'| + 1..];
  }

  function Magnitude(n: int): nat {
    if n < 0 then -n else n
  }

  lemma SignedHead(n: int, y: string)
    ensures var s := Decimal(n) + y;
            && |s| > 0
            && (s[0] == '-' <==> n < 0)
            && Digits(Magnitude(n)) + y == if n < 0 then s[1..] else s
  {
    var d := Digits(Magnitude(n));
    if n < 0 {
      assert Decimal(n) + y == ['-'] + (d + y);
    } else {
      assert IsDigit(d[0]);
    }
  }

  /** Two numbers printed with a dash between them, either sign, can be told apart again. */
  lemma PairInjective(a: int, b: int, a': int, b': int)
    requires Decimal(a) + ("-" + Decimal(b)) == Decimal(a') + ("-" + Decimal(b'))
    ensures a == a' && b == b'
  {
    var y, y' := Decimal(b), Decimal(b');
    SignedHead(a, "-" + y);
    SignedHead(a', "-" + y');
    CutAtDash(Digits(Magnitude(a)), y, Digits(Magnitude(a')), y');
    DigitsDenote(Magnitude(a));
    DigitsDenote(Magnitude(a'));
    DecimalInjective(b, b');
  }

  // ---------- job ids and file names ----------

  function Id(k: Key): string {
    match k
    case Discover(n) => TypeName(DiscoverKind) + "-" + Decimal(n)
    case Package(n) => TypeName(PackageKind) + "-" + Decimal(n)
    case Release(n) => TypeName(ReleaseKind) + "-" + Decimal(n)
    case Artifact(run, n) => TypeName(ArtifactKind) + "-" + (Decimal(run) + ("-" + Decimal(n)))
  }

  /** `dir` is the cleaned jobs directory with its final slash. */
  function FileName(dir: string, k: Key): string {
    dir + (Id(k) + ".json")
  }

  /** The entries the scheduler's walk picks up. */
  predicate IsJson(path: string) {
    Paths.Ext(path) == ".json"
  }

  lemma KindFromId(a: Key, b: Key)
    requires Id(a) == Id(b)
    ensures KindOf(a) == KindOf(b)
  {
    IdLetters(a);
    IdLetters(b);
  }

  /** The first and sixth letters of an id already tell the four kinds apart. */
  lemma IdLetters(k: Key)
    ensures |Id(k)| > 5
    ensures match k
            case Discover(_) => Id(k)[0] == 'd'
            case Package(_) => Id(k)[0] == 's' && Id(k)[5] == 'c'
            case Release(_) => Id(k)[0] == 's' && Id(k)[5] == 'r'
            case Artifact(_, _) => Id(k)[0] == 's' && Id(k)[5] == 'w'
  {}

  lemma TailFromId(prefix: string, x: string, y: string)
    requires prefix + "-" + x == prefix + "-" + y
    ensures x == y
  {
    assert x == (prefix + "-" + x)[|prefix| + 1..];
    assert y == (prefix + "-" + y)[|prefix| + 1..];
  }

  lemma IdInjective(a: Key, b: Key)
    requires Id(a) == Id(b)
    ensures a == b
  {
    KindFromId(a, b);
    match a {
      case Discover(n) =>
        TailFromId(TypeName(DiscoverKind), Decimal(n), Decimal(b.run));
        DecimalInjective(n, b.run);
      case Package(n) =>
        TailFromId(TypeName(PackageKind), Decimal(n), Decimal(b.version));
        DecimalInjective(n, b.version);
      case Release(n) =>
        TailFromId(TypeName(ReleaseKind), Decimal(n), Decimal(b.asset));
        DecimalInjective(n, b.asset);
      case Artifact(run, n) =>
        TailFromId(TypeName(ArtifactKind), Decimal(run) + ("-" + Decimal(n)),
                   Decimal(b.run) + ("-" + Decimal(b.artifact)));
        PairInjective(run, n, b.run, b.artifact);
    }
  }

  lemma StripName(dir: string, id: string)
    ensures var f := dir + (id + ".json");
            |f| >= |dir| + 5 && f[|dir|..|f| - 5] == id
  {}

  /** Two jobs share a file exactly when they have the same kind and the same id or ids. */
  lemma SameFileIffSameJob(dir: string, a: Key, b: Key)
    ensures FileName(dir, a) == FileName(dir, b) <==> a == b
  {
    StripName(dir, Id(a));
    StripName(dir, Id(b));
    if FileName(dir, a) == FileName(dir, b) {
      IdInjective(a, b);
    }
  }

  /** Every job file is one the scheduler's walk picks up. */
  lemma FileNameIsJson(dir: string, k: Key)
    ensures IsJson(FileName(dir, k))
  {
    assert FileName(dir, k) == (dir + Id(k)) + ".json";
    Paths.ExtOfJson(dir + Id(k));
  }

  // ---------- persistence ----------

  /** The body of a job: what its JSON holds besides `meta`. `subject` is the event, package, asset or artifact. */
  datatype Payload = Payload(subject: string, version: string, destinations: seq<string>)

  datatype Meta = Meta(id: string, typeName: string)

  /**
   A job in memory; `path` is `Meta.persistedPath`, empty until `Load` sets it.
   */
  datatype Job = Job(kind: Kind, id: string, payload: Payload, path: string)

  /**
   The bytes of a job file, seen through `json.Unmarshal`: what the header decodes to, if it does, and for each of
   the four kinds what the whole file decodes to, if it does.
   */
  datatype File = File(header: Option<Meta>, bodies: map<Kind, (string, Payload)>)

  datatype LoadError = BadHeader | UnknownType(typeName: string) | BadBody

  /** JSON encoding and decoding of a persisted kind are inverse to each other. */
  function Marshal(j: Job): File {
    File(Some(Meta(j.id, TypeName(j.kind))), map[j.kind := (j.id, j.payload)])
  }

  function NewJob(k: Key, payload: Payload): Job {
    Job(KindOf(k), Id(k), payload, "")
  }

  function Decode(f: File, kind: Kind, path: string): Result<Job, LoadError> {
    if kind in f.bodies then Ok(Job(kind, f.bodies[kind].0, f.bodies[kind].1, path)) else Err(BadBody)
  }

  /** `Load` once the file has been read: header first, then the body for the type the header names. */
  function Parse(path: string, f: File): Result<Job, LoadError> {
    if f.header == None then Err(BadHeader)
    else
      var t := f.header.value.typeName;
      if t == TypeName(DiscoverKind) then Decode(f, DiscoverKind, path)
      else if t == TypeName(PackageKind) then Decode(f, PackageKind, path)
      else if t == TypeName(ReleaseKind) then Decode(f, ReleaseKind, path)
      else if t == TypeName(ArtifactKind) then Decode(f, ArtifactKind, path)
      else Err(UnknownType(t))
  }

  /** A file loads exactly when its header names a persisted kind and its body decodes as one of that kind. */
  lemma ParsesIff(path: string, f: File)
    ensures Parse(path, f).Ok? <==>
              f.header.Some? && exists k: Kind ::
                k != CleanupKind && f.header.value.typeName == TypeName(k) && k in f.bodies
    ensures Parse(path, f).Ok? ==>
              var j := Parse(path, f).value;
              j.kind in f.bodies && (j.id, j.payload) == f.bodies[j.kind]
  {
    forall a: Kind, b: Kind ensures TypeName(a) == TypeName(b) ==> a == b {
      TypeNamesDistinct(a, b);
    }
    if f.header.Some? {
      if k: Kind :| k != CleanupKind && f.header.value.typeName == TypeName(k) && k in f.bodies {
        assert Parse(path, f).Ok?;
      }
    }
  }

  /** The names of job files, spelled out. */
  lemma FileNamesSpelled(dir: string, k: Key)
    ensures FileName(dir, k) == dir + (match k
              case Discover(n) => "discover-workflow-artifacts" + "-" + Decimal(n)
              case Package(n) => "sync-container-registry-package" + "-" + Decimal(n)
              case Release(n) => "sync-release-asset" + "-" + Decimal(n)
              case Artifact(n, m) => "sync-workflow-artifact" + "-" + (Decimal(n) + ("-" + Decimal(m)))) + ".json"
  {
    assert FileName(dir, k) == dir + Id(k) + ".json";
  }

  function CleanupJob(path: string): Job {
    Job(CleanupKind, TypeName(CleanupKind), Payload("", "", []), path)
  }

  /** A parsed job keeps the path it was read from and is never of the cleanup kind. */
  lemma ParseFacts(path: string, f: File)
    ensures Parse(path, f).Ok? ==>
              && Parse(path, f).value.path == path
              && Parse(path, f).value.kind != CleanupKind
              && f.header.Some?
              && f.header.value.typeName == TypeName(Parse(path, f).value.kind)
  {}

  lemma {:induction false} TypeNamesDistinct(a: Kind, b: Kind)
    ensures TypeName(a) == TypeName(b) ==> a == b
  {
    if TypeName(a) == TypeName(b) {
      assert TypeName(a)[0] == TypeName(b)[0];
      assert TypeName(a)[5] == TypeName(b)[5];
    }
  }

  /** Loading what was saved gives the same kind, id and payload, with the persisted path filled in. */
  lemma LoadAfterSave(j: Job, path: string)
    ensures j.kind != CleanupKind ==> Parse(path, Marshal(j)) == Ok(j.(path := path))
    ensures j.kind == CleanupKind ==> Parse(path, Marshal(j)) == Err(UnknownType(TypeName(CleanupKind)))
  {
    forall k: Kind ensures TypeName(j.kind) == TypeName(k) ==> j.kind == k {
      TypeNamesDistinct(j.kind, k);
    }
  }

  // ---------- the directory as a map from identity to last payload ----------

  type Directory = map<string, File>

  function Save(files: Directory, dir: string, k: Key, payload: Payload): Directory {
    files[FileName(dir, k) := Marshal(NewJob(k, payload))]
  }

  function SaveAll(files: Directory, dir: string, saves: seq<(Key, Payload)>): Directory {
    if saves == [] then files
    else
      var last := saves[|saves| - 1];
      Save(SaveAll(files, dir, saves[..|saves| - 1]), dir, last.0, last.1)
  }

  /** The abstract directory: for each identity, the payload of its last save. */
  function LastPayloads(saves: seq<(Key, Payload)>): map<Key, Payload> {
    if saves == [] then map[]
    else LastPayloads(saves[..|saves| - 1])[saves[|saves| - 1].0 := saves[|saves| - 1].1]
  }

  /**
   However the saves repeat or interleave, loading the file of an identity gives the last payload saved for that
   identity, and an identity never saved keeps whatever its file was.
   */
  lemma {:induction false} DirectoryRefinesIdentityMap(
    files: Directory, dir: string, saves: seq<(Key, Payload)>, k: Key)
    ensures var files' := SaveAll(files, dir, saves);
            var path := FileName(dir, k);
            var last := LastPayloads(saves);
            && (k in last ==> path in files' && Parse(path, files'[path]) == Ok(NewJob(k, last[k]).(path := path)))
            && (k !in last ==> (path in files' <==> path in files))
            && (k !in last && path in files ==> files'[path] == files[path])
  {
    if saves != [] {
      var front, back := saves[..|saves| - 1], saves[|saves| - 1];
      DirectoryRefinesIdentityMap(files, dir, front, k);
      SameFileIffSameJob(dir, k, back.0);
      LoadAfterSave(NewJob(back.0, back.1), FileName(dir, k));
    }
  }
}
