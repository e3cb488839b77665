/**
 The download archive as a codec: the downloader writes each image under a name made of its platform and digest
 (server/download_github_container.go), the uploader reads the original digest back from that name
 (`dockerPrepareImage`, server/docker.go).
 */
module Archive {
  import opened Wrappers
  import opened Sequences
  import Errors
  import Index
  import Paths

  // ---------- member names ----------

  function TarName(platform: string, digest: string): string {
    platform + ("/" + (Paths.ReplaceAll(digest, ':', '-') + ".tar"))
  }

  function OriginalDigest(name: string): string {
    Paths.ReplaceAll(Paths.TrimSuffix(Paths.Base(name), Paths.Ext(name)), '-', ':')
  }

  lemma BaseOfTar(platform: string, stem: string)
    ensures var base := Paths.Base(platform + ("/" + (stem + ".tar")));
            '/' !in base && ('/' !in stem ==> base == stem + ".tar")
  {
    var name := platform + ("/" + (stem + ".tar"));
    assert name[|name| - 1] == 'r';
    Paths.AfterLastFree(name, '/');
    if '/' !in stem {
      Paths.AfterLastSplit(platform, '/', stem + ".tar");
    }
  }

  lemma TarNameExt(platform: string, digest: string)
    ensures Paths.Ext(TarName(platform, digest)) == ".tar"
  {
    var stem := Paths.ReplaceAll(digest, ':', '-');
    assert TarName(platform, digest) == (platform + ("/" + stem)) + ".tar";
    Paths.ExtOfTar(platform + ("/" + stem));
  }

  /** A digest comes back from the name exactly when it holds neither a dash nor a slash. */
  lemma NameRoundTripIff(platform: string, digest: string)
    ensures OriginalDigest(TarName(platform, digest)) == digest <==> '-' !in digest && '/' !in digest
  {
    var stem := Paths.ReplaceAll(digest, ':', '-');
    var name := TarName(platform, digest);
    var base := Paths.Base(name);
    BaseOfTar(platform, stem);
    TarNameExt(platform, digest);
    var trimmed := Paths.TrimSuffix(base, ".tar");
    var decoded := Paths.ReplaceAll(trimmed, '-', ':');
    assert decoded == OriginalDigest(name);
    assert '-' !in decoded && '/' !in decoded by {
      assert forall i :: 0 <= i < |trimmed| ==> trimmed[i] == base[i] && trimmed[i] in base;
    }
    if '-' !in digest && '/' !in digest {
      assert '/' !in stem by {
        assert forall i :: 0 <= i < |digest| ==> digest[i] in digest;
      }
      assert base[|base| - 4..] == ".tar";
      assert trimmed == stem;
      forall i | 0 <= i < |digest| ensures decoded[i] == digest[i] {
        assert digest[i] in digest;
      }
      assert decoded == digest;
    }
  }

  /** Tarballs of clean digests share a name only if platform and digest are the same. */
  lemma NamesDistinct(p: string, d: string, p': string, d': string)
    requires '-' !in d && '/' !in d && '-' !in d' && '/' !in d'
    requires TarName(p, d) == TarName(p', d')
    ensures d == d' && p == p'
  {
    NameRoundTripIff(p, d);
    NameRoundTripIff(p', d');
    var tail := "/" + (Paths.ReplaceAll(d, ':', '-') + ".tar");
    var name := TarName(p, d);
    assert name == p + tail && name == p' + tail;
    assert p == name[..|name| - |tail|] && p' == name[..|name| - |tail|];
  }

  // ---------- writing ----------

  datatype Member =
    | IndexMember(name: string, manifests: seq<Index.Descriptor>)
    | TarMember(name: string, digest: string)

  /** What the registry holds under the package's reference. */
  datatype Remote = SingleImage(image: Index.Descriptor) | MultiPlatform(hex: string, manifests: seq<Index.Descriptor>)

  function PlatformKey(d: Index.Descriptor): string {
    if d.platform.Some? then d.platform.value else "unknown/unknown"
  }

  /** The images to download: platform and digest, in the order of the index. */
  function Wanted(ms: seq<Index.Descriptor>): seq<(string, string)> {
    if ms == [] then []
    else
      var d := ms[|ms| - 1];
      Wanted(ms[..|ms| - 1]) + if d.isImage then [(PlatformKey(d), d.digest)] else []
  }

  function DigestsFor(wanted: seq<(string, string)>, platform: string): seq<string> {
    if wanted == [] then []
    else
      var w := wanted[|wanted| - 1];
      DigestsFor(wanted[..|wanted| - 1], platform) + if w.0 == platform then [w.1] else []
  }

  /** The images by platform, each platform's in the order of the index. */
  function Grouped(wanted: seq<(string, string)>): map<string, seq<string>> {
    if wanted == [] then map[]
    else
      var before, w := Grouped(wanted[..|wanted| - 1]), wanted[|wanted| - 1];
      before[w.0 := (if w.0 in before then before[w.0] else []) + [w.1]]
  }

  lemma {:induction false} GroupHolds(wanted: seq<(string, string)>, platform: string)
    ensures platform in Grouped(wanted) <==> platform in PlatformsOf(wanted)
    ensures platform in Grouped(wanted) ==> Grouped(wanted)[platform] == DigestsFor(wanted, platform)
    ensures platform !in Grouped(wanted) ==> DigestsFor(wanted, platform) == []
  {
    if wanted != [] {
      GroupHolds(wanted[..|wanted| - 1], platform);
      assert wanted == wanted[..|wanted| - 1] + [wanted[|wanted| - 1]];
    }
  }

  function PlatformsOf(wanted: seq<(string, string)>): set<string> {
    set w | w in wanted :: w.0
  }

  /** What is downloaded comes in the order of the index, platform by platform. */
  lemma {:induction false} DownloadedInOrder(a: seq<Index.Descriptor>, b: seq<Index.Descriptor>, platform: string)
    ensures Wanted(a + b) == Wanted(a) + Wanted(b)
    ensures DigestsFor(Wanted(a + b), platform)
            == DigestsFor(Wanted(a), platform) + DigestsFor(Wanted(b), platform)
  {
    if b == [] {
      assert a + b == a;
    } else {
      var front, d := b[..|b| - 1], b[|b| - 1];
      SplitLast(a, b);
      DownloadedInOrder(a, front, platform);
      OneMoreWanted(a + front, d, platform);
      OneMoreWanted(front, d, platform);
      var w := if d.isImage then [(PlatformKey(d), d.digest)] else [];
      var digest := if d.isImage && PlatformKey(d) == platform then [d.digest] else [];
      Regroup(Wanted(a), Wanted(front), w);
      Regroup(DigestsFor(Wanted(a), platform), DigestsFor(Wanted(front), platform), digest);
    }
  }

  lemma OneMoreWanted(front: seq<Index.Descriptor>, d: Index.Descriptor, platform: string)
    ensures Wanted(front + [d]) == Wanted(front) + if d.isImage then [(PlatformKey(d), d.digest)] else []
    ensures DigestsFor(Wanted(front + [d]), platform)
            == DigestsFor(Wanted(front), platform)
               + if d.isImage && PlatformKey(d) == platform then [d.digest] else []
  {
    var before, w := Wanted(front), (PlatformKey(d), d.digest);
    assert (front + [d])[..|front|] == front;
    assert (before + [w])[..|before|] == before;
    assert before + [] == before;
  }

  const NO_IMAGES: Errors.Error := Errors.Plain("no images to download")
  const UNAVAILABLE: Errors.Error := Errors.Plain("failed to get image from an index")

  /** The loop that groups an index's images by platform; an image the registry will not give fails the download. */
  method GroupByPlatform(ms: seq<Index.Descriptor>, available: string -> bool)
    returns (r: Result<map<string, seq<string>>, Errors.Error>)
    ensures r.Ok? <==> forall d :: d in ms && d.isImage ==> available(d.digest)
    ensures r.Ok? ==> r.value == Grouped(Wanted(ms))
    ensures r.Err? ==> r.error == UNAVAILABLE
  {
    var images: map<string, seq<string>> := map[];
    ghost var wanted := [];
    for i := 0 to |ms|
      invariant forall k :: 0 <= k < i && ms[k].isImage ==> available(ms[k].digest)
      invariant wanted == Wanted(ms[..i])
      invariant images == Grouped(wanted)
    {
      var desc := ms[i];
      WantedGrows(ms, i);
      if !desc.isImage {
        continue;
      }
      if !available(desc.digest) {
        assert desc in ms;
        return Err(UNAVAILABLE);
      }
      var platform := if desc.platform.Some? then desc.platform.value else "unknown/unknown";
      GroupedGrows(wanted, platform, desc.digest);
      wanted := wanted + [(platform, desc.digest)];
      var group := if platform in images then images[platform] else [];
      images := images[platform := group + [desc.digest]];
    }
    assert ms[..|ms|] == ms;
    return Ok(images);
  }

  lemma WantedGrows(ms: seq<Index.Descriptor>, i: nat)
    requires i < |ms|
    ensures Wanted(ms[..i + 1])
            == Wanted(ms[..i]) + if ms[i].isImage then [(PlatformKey(ms[i]), ms[i].digest)] else []
  {
    assert ms[..i + 1][..i] == ms[..i];
  }

  lemma GroupedGrows(wanted: seq<(string, string)>, platform: string, digest: string)
    ensures var before := Grouped(wanted);
            Grouped(wanted + [(platform, digest)])
            == before[platform := (if platform in before then before[platform] else []) + [digest]]
  {
    assert (wanted + [(platform, digest)])[..|wanted|] == wanted;
  }

  function Tars(platform: string, digests: seq<string>): seq<Member> {
    seq(|digests|, i requires 0 <= i < |digests| => TarMember(TarName(platform, digests[i]), digests[i]))
  }

  /** The members wanted on platforms already written; blank platforms are passed over. */
  function Written(wanted: seq<(string, string)>, done: set<string>): multiset<Member> {
    if wanted == [] then multiset{}
    else
      var w := wanted[|wanted| - 1];
      Written(wanted[..|wanted| - 1], done)
      + if w.0 in done && w.0 != "" then multiset{TarMember(TarName(w.0, w.1), w.1)} else multiset{}
  }

  lemma TarsGrow(platform: string, digests: seq<string>, digest: string)
    ensures Tars(platform, digests + [digest])
            == Tars(platform, digests) + [TarMember(TarName(platform, digest), digest)]
  {}

  lemma {:induction false} WrittenGrows(wanted: seq<(string, string)>, done: set<string>, platform: string)
    requires platform !in done
    ensures Written(wanted, done + {platform})
            == Written(wanted, done)
               + if platform == "" then multiset{} else multiset(Tars(platform, DigestsFor(wanted, platform)))
  {
    if wanted != [] {
      var front, w := wanted[..|wanted| - 1], wanted[|wanted| - 1];
      WrittenGrows(front, done, platform);
      if w.0 == platform {
        var before := DigestsFor(front, platform);
        assert DigestsFor(wanted, platform) == before + [w.1];
        TarsGrow(platform, before, w.1);
        var tar := TarMember(TarName(platform, w.1), w.1);
        assert multiset(Tars(platform, before) + [tar]) == multiset(Tars(platform, before)) + multiset{tar};
      } else {
        assert DigestsFor(wanted, platform) == DigestsFor(front, platform);
        assert w.0 in done + {platform} <==> w.0 in done;
      }
    }
  }

  lemma {:induction false} WrittenNothing(wanted: seq<(string, string)>)
    ensures Written(wanted, {}) == multiset{}
  {
    if wanted != [] {
      WrittenNothing(wanted[..|wanted| - 1]);
    }
  }

  method WriteGroup(platform: string, digests: seq<string>) returns (members: seq<Member>)
    ensures members == Tars(platform, digests)
  {
    members := [];
    for i := 0 to |digests|
      invariant members == Tars(platform, digests[..i])
    {
      assert digests[..i + 1] == digests[..i] + [digests[i]];
      TarsGrow(platform, digests[..i], digests[i]);
      members := members + [TarMember(TarName(platform, digests[i]), digests[i])];
    }
    assert digests[..|digests|] == digests;
  }

  /** The loop that writes the tarballs, platform by platform in whatever order the map gives them. */
  method WriteImages(images: map<string, seq<string>>, ghost wanted: seq<(string, string)>)
    returns (members: seq<Member>)
    requires images == Grouped(wanted)
    ensures multiset(members) == Written(wanted, PlatformsOf(wanted))
  {
    members := [];
    var left := images.Keys;
    WrittenNothing(wanted);
    assert images.Keys - left == {};
    while left != {}
      invariant left <= images.Keys
      invariant multiset(members) == Written(wanted, images.Keys - left)
      decreases left
    {
      var platform :| platform in left;
      WrittenGrows(wanted, images.Keys - left, platform);
      GroupHolds(wanted, platform);
      assert images.Keys - (left - {platform}) == (images.Keys - left) + {platform};
      left := left - {platform};
      if platform == "" {
        continue;
      }
      var group := WriteGroup(platform, images[platform]);
      members := members + group;
    }
    assert images.Keys - left == images.Keys;
    forall p ensures p in images.Keys <==> p in PlatformsOf(wanted) {
      GroupHolds(wanted, p);
    }
    assert images.Keys == PlatformsOf(wanted);
  }

  function WantedFrom(remote: Remote): seq<(string, string)> {
    match remote
    case SingleImage(d) => [(PlatformKey(d), d.digest)]
    case MultiPlatform(_, ms) => Wanted(ms)
  }

  /**
   The members of a downloaded archive, in some order of the platforms: the index first, if there is one, and exactly
   one tarball for each image wanted on a platform that is not blank.
   */
  ghost predicate IsArchive(remote: Remote, members: seq<Member>) {
    var wanted := WantedFrom(remote);
    match remote
    case SingleImage(_) => multiset(members) == Written(wanted, PlatformsOf(wanted))
    case MultiPlatform(hex, ms) =>
      && members != []
      && members[0] == IndexMember(hex + ".json", ms)
      && multiset(members[1..]) == Written(wanted, PlatformsOf(wanted))
  }

  lemma {:induction false} WantedIffImage(ms: seq<Index.Descriptor>)
    ensures Wanted(ms) != [] <==> exists d :: d in ms && d.isImage
  {
    if ms != [] {
      var front, last := ms[..|ms| - 1], ms[|ms| - 1];
      assert ms == front + [last];
      WantedIffImage(front);
    }
  }

  /** Errors of this package's own making do not end the job. */
  lemma PlainIsRetryable(message: string)
    ensures !Errors.Visible(Errors.Plain(message))
  {
    Errors.FindIffVisible(Errors.Plain(message));
  }

  /**
   `downloadGithubContainer`, once the registry has answered: it fails when an image cannot be had or none is wanted,
   and otherwise writes an archive.
   */
  method Download(remote: Remote, available: string -> bool) returns (r: Result<seq<Member>, Errors.Error>)
    ensures r.Ok? <==> remote.MultiPlatform? ==>
              && (forall d :: d in remote.manifests && d.isImage ==> available(d.digest))
              && (exists d :: d in remote.manifests && d.isImage)
    ensures r.Err? ==> !Errors.Visible(r.error)
    ensures r.Ok? ==> IsArchive(remote, r.value)
  {
    ghost var wanted := WantedFrom(remote);
    var images: map<string, seq<string>> := map[];
    var header := [];
    PlainIsRetryable(NO_IMAGES.message);
    PlainIsRetryable(UNAVAILABLE.message);
    match remote {
      case SingleImage(d) =>
        var platform := if d.platform.Some? then d.platform.value else "unknown/unknown";
        GroupedGrows([], platform, d.digest);
        assert [] + [(platform, d.digest)] == wanted;
        images := map[platform := [] + [d.digest]];
      case MultiPlatform(hex, ms) =>
        WantedIffImage(ms);
        var grouped := GroupByPlatform(ms, available);
        if grouped.Err? {
          return Err(grouped.error);
        }
        images := grouped.value;
        header := [IndexMember(hex + ".json", ms)];
    }
    assert wanted == [] <==> images == map[] by {
      if wanted != [] {
        var w := wanted[|wanted| - 1];
        assert w.0 in Grouped(wanted);
      }
    }
    if |images| == 0 {
      return Err(NO_IMAGES);
    }
    var tars := WriteImages(images, wanted);
    assert header + tars == if remote.MultiPlatform? then header + tars else tars;
    assert remote.MultiPlatform? ==> (header + tars)[1..] == tars;
    return Ok(header + tars);
  }

  // ---------- reading ----------

  datatype Json = CannotOpen | Undecodable(partial: seq<Index.Descriptor>) | Decoded(manifests: seq<Index.Descriptor>)

  /** A member as the uploader finds it: what decoding it as an index and as a tarball gives. */
  datatype File = File(name: string, isDir: bool, json: Json, tar: Option<Index.Container>)

  const UNREADABLE: Errors.Error := Errors.Plain("failed to read archive member")

  function ContainersOf(files: seq<File>): map<string, Index.Container> {
    if files == [] then map[]
    else
      var f, before := files[|files| - 1], ContainersOf(files[..|files| - 1]);
      if !f.isDir && Paths.Ext(f.name) == ".tar" && f.tar.Some? then before[OriginalDigest(f.name) := f.tar.value]
      else before
  }

  function ManifestsOf(files: seq<File>): Option<seq<Index.Descriptor>> {
    if files == [] then None
    else
      var f, before := files[|files| - 1], ManifestsOf(files[..|files| - 1]);
      if f.isDir || Paths.Ext(f.name) != ".json" then before
      else
        match f.json
        case CannotOpen => before
        case Undecodable(partial) => Some(partial)
        case Decoded(ms) => Some(ms)
  }

  /** One error per member that cannot be read. */
  function Failures(files: seq<File>): seq<Option<Errors.Error>> {
    if files == [] then []
    else
      var f := files[|files| - 1];
      Failures(files[..|files| - 1])
      + if f.isDir then []
        else if Paths.Ext(f.name) == ".json" then if f.json.Decoded? then [] else [Some(UNREADABLE)]
        else if Paths.Ext(f.name) == ".tar" && f.tar == None then [Some(UNREADABLE)]
        else []
  }

  /** A member the uploader takes for an index: it opens, and is not a directory. */
  predicate IsIndexFile(f: File) {
    !f.isDir && Paths.Ext(f.name) == ".json" && !f.json.CannotOpen?
  }

  /** A member the uploader takes a container from. */
  predicate IsTarFile(f: File) {
    !f.isDir && Paths.Ext(f.name) == ".tar" && f.tar.Some?
  }

  /** The last index in the archive counts, as far as it could be decoded. */
  lemma {:induction false} LastIndexCounts(files: seq<File>, i: nat)
    requires i < |files| && IsIndexFile(files[i]) && forall j :: i < j < |files| ==> !IsIndexFile(files[j])
    ensures files[i].json.Decoded? ==> ManifestsOf(files) == Some(files[i].json.manifests)
    ensures files[i].json.Undecodable? ==> ManifestsOf(files) == Some(files[i].json.partial)
    decreases |files|
  {
    if i < |files| - 1 {
      LastIndexCounts(files[..|files| - 1], i);
    }
  }

  lemma {:induction false} NoIndexCounts(files: seq<File>)
    requires forall i :: 0 <= i < |files| ==> !IsIndexFile(files[i])
    ensures ManifestsOf(files) == None
  {
    if files != [] {
      NoIndexCounts(files[..|files| - 1]);
    }
  }

  /** The last tarball with a name for this digest counts. */
  lemma {:induction false} LastTarCounts(files: seq<File>, i: nat)
    requires i < |files| && IsTarFile(files[i])
    requires forall j :: i < j < |files| && IsTarFile(files[j]) ==>
               OriginalDigest(files[j].name) != OriginalDigest(files[i].name)
    ensures OriginalDigest(files[i].name) in ContainersOf(files)
    ensures ContainersOf(files)[OriginalDigest(files[i].name)] == files[i].tar.value
    decreases |files|
  {
    if i < |files| - 1 {
      LastTarCounts(files[..|files| - 1], i);
    }
  }

  lemma {:induction false} OnlyTarsCount(files: seq<File>, digest: string) returns (i: nat)
    requires digest in ContainersOf(files)
    ensures i < |files| && IsTarFile(files[i]) && OriginalDigest(files[i].name) == digest
  {
    var last := |files| - 1;
    if IsTarFile(files[last]) && OriginalDigest(files[last].name) == digest {
      i := last;
    } else {
      i := OnlyTarsCount(files[..last], digest);
    }
  }

  /** Each index or tarball that cannot be read in full adds one error; nothing else does. */
  lemma FailurePerUnreadable(files: seq<File>, i: nat)
    requires i < |files|
    ensures var f := files[i];
            |Failures(files[..i + 1])| == |Failures(files[..i])|
              + if !f.isDir && ((Paths.Ext(f.name) == ".json" && !f.json.Decoded?)
                                || (Paths.Ext(f.name) == ".tar" && f.tar == None)) then 1 else 0
  {
    assert files[..i + 1][..i] == files[..i];
  }

  lemma {:induction false} FailuresAreErrors(files: seq<File>)
    ensures forall e :: e in Failures(files) ==> e == Some(UNREADABLE)
  {
    if files != [] {
      FailuresAreErrors(files[..|files| - 1]);
    }
  }

  /** The first loop of `dockerPrepareImage`. */
  method Read(files: seq<File>)
    returns (
      containers: map<string, Index.Container>, manifests: Option<seq<Index.Descriptor>>,
      errs: seq<Option<Errors.Error>>)
    ensures containers == ContainersOf(files) && manifests == ManifestsOf(files)
    ensures errs == Failures(files)
  {
    containers, manifests, errs := map[], None, [];
    for i := 0 to |files|
      invariant containers == ContainersOf(files[..i]) && manifests == ManifestsOf(files[..i])
      invariant errs == Failures(files[..i])
    {
      var f := files[i];
      assert files[..i + 1][..i] == files[..i];
      if f.isDir {
        continue;
      }
      var ext := Paths.Ext(f.name);
      if ext == ".json" {
        match f.json {
          case CannotOpen =>
            errs := errs + [Some(UNREADABLE)];
          case Undecodable(partial) =>
            manifests := Some(partial);
            errs := errs + [Some(UNREADABLE)];
          case Decoded(ms) =>
            manifests := Some(ms);
        }
      } else if ext == ".tar" {
        if f.tar == None {
          errs := errs + [Some(UNREADABLE)];
          continue;
        }
        var originalDigest := Paths.ReplaceAll(Paths.TrimSuffix(Paths.Base(f.name), ext), '-', ':');
        containers := containers[originalDigest := f.tar.value];
      }
    }
    assert files[..|files|] == files;
  }

  /** What `dockerPrepareImage` hands to the uploader; `Panicked` stands for its nil dereferences. */
  datatype Prepared = Nothing | Single(image: string) | Rebuilt(entries: seq<Index.Entry>) | Panicked

  function Restrict(
    containers: map<string, Index.Container>, kept: seq<Index.Descriptor>): map<string, Index.Container>
  {
    map d | d in containers && exists k :: k in kept && k.digest == d :: containers[d]
  }

  /** The last part of `dockerPrepareImage`, on the manifests the filter kept and the containers they name. */
  ghost predicate IsPreparedFrom(
    kept: seq<Index.Descriptor>, containers: map<string, Index.Container>, referenceParses: bool, out: Prepared)
  {
    if containers == map[] || !referenceParses then out == Nothing
    else if |kept| == 1 then out.Single? && exists d :: d in containers && out.image == containers[d].image
    else if out == Panicked then exists k :: k in kept && k.digest !in containers
    else out.Rebuilt? && Index.IsBuilt(kept, containers, out.entries)
  }

  /** The same without an index: one of the containers. */
  ghost predicate IsPicked(containers: map<string, Index.Container>, referenceParses: bool, out: Prepared) {
    if containers == map[] || !referenceParses then out == Nothing
    else out.Single? && exists d :: d in containers && out.image == containers[d].image
  }

  const BAD_INDEX: Errors.Error := Errors.Plain("index contains faulty attestations")
  const BAD_REFERENCE: Errors.Error := Errors.Plain("failed to parse destination reference")

  function Accepted(containers: map<string, Index.Container>, platforms: seq<string>): map<string, Index.Container> {
    map d | d in containers && Index.HasPlatform(platforms, containers[d].platform) :: containers[d]
  }

  /** A present error that does not end the job. */
  ghost predicate IsRetryable(e: Option<Errors.Error>) {
    e.Some? && !Errors.Visible(e.value)
  }

  lemma ReportedIff(errs: seq<Option<Errors.Error>>, n: nat)
    requires |errs| == n && forall e :: e in errs ==> IsRetryable(e)
    ensures Errors.Flatten(errs) == None <==> n == 0
    ensures Errors.Flatten(errs) != None ==> IsRetryable(Errors.Flatten(errs))
  {
    Errors.FlattenNil(errs);
    assert errs != [] ==> errs[0] in errs;
    Errors.FlattenDecision(errs);
    if Errors.Flatten(errs) != None {
      Errors.FindIffVisible(Errors.Flatten(errs).value);
    }
  }

  /** The tail of `dockerPrepareImage`; `kept` is absent when the archive has no index. */
  method Assemble(
    kept: Option<seq<Index.Descriptor>>, containers: map<string, Index.Container>, referenceParses: bool,
    errs: seq<Option<Errors.Error>>)
    returns (out: Prepared, err: Option<Errors.Error>)
    requires forall e :: e in errs ==> IsRetryable(e)
    ensures err != None ==> IsRetryable(err)
    ensures kept.Some? ==> IsPreparedFrom(kept.value, containers, referenceParses, out)
    ensures kept == None ==> IsPicked(containers, referenceParses, out)
    ensures out != Panicked ==> (err == None <==> errs == [] && (containers == map[] || referenceParses))
  {
    if |containers| == 0 {
      ReportedIff(errs, |errs|);
      return Nothing, Errors.Flatten(errs);
    }
    if !referenceParses {
      PlainIsRetryable(BAD_REFERENCE.message);
      ReportedIff(errs + [Some(BAD_REFERENCE)], |errs| + 1);
      return Nothing, Errors.Flatten(errs + [Some(BAD_REFERENCE)]);
    }
    ReportedIff(errs, |errs|);
    if kept == None || |kept.value| == 1 {
      var d :| d in containers;
      return Single(containers[d].image), Errors.Flatten(errs);
    }
    var built := Index.Build(kept.value, containers);
    if built == None {
      return Panicked, None;
    }
    return Rebuilt(built.value), Errors.Flatten(errs);
  }

  /** Extraction errors are reported for a bare index only. */
  predicate HasFaults(manifests: Option<seq<Index.Descriptor>>) {
    manifests.Some? && Index.IsBare(manifests.value) && Index.Faults(manifests.value) != []
  }

  ghost predicate ContainerLacksPlatform(cs: map<string, Index.Container>) {
    exists d :: d in cs && cs[d].platform == None
  }

  /** The platform test panics on something the archive holds. */
  ghost predicate PlatformMissing(files: seq<File>, platforms: seq<string>) {
    match ManifestsOf(files)
    case Some(ms) => platforms != [] && Index.LacksPlatform(ms)
    case None => platforms != [] && ContainerLacksPlatform(ContainersOf(files))
  }

  /** What `dockerPrepareImage` may return, for some iteration order. */
  ghost predicate IsPreparation(
    files: seq<File>, platforms: seq<string>, referenceParses: bool, out: Prepared, err: Option<Errors.Error>)
  {
    if PlatformMissing(files, platforms) then out == Panicked
    else
      match ManifestsOf(files)
      case Some(ms) => exists kept ::
        Index.IsFiltering(ms, Index.For(platforms), kept) && IsPreparedWith(files, kept, referenceParses, out, err)
      case None =>
        var cs := Accepted(ContainersOf(files), platforms);
        IsPicked(cs, referenceParses, out) && (err == None <==> IsClean(files, cs, referenceParses))
  }

  /** What comes of the manifests the filter kept. */
  ghost predicate IsPreparedWith(
    files: seq<File>, kept: seq<Index.Descriptor>, referenceParses: bool, out: Prepared, err: Option<Errors.Error>)
  {
    var used := Restrict(ContainersOf(files), kept);
    && IsPreparedFrom(kept, used, referenceParses, out)
    && (out != Panicked ==> (err == None <==> IsClean(files, used, referenceParses)))
  }

  /** Nothing to report: every member readable, no faults to tell, and the reference parsed if it came to that. */
  ghost predicate IsClean(files: seq<File>, used: map<string, Index.Container>, referenceParses: bool) {
    Failures(files) == [] && !HasFaults(ManifestsOf(files)) && (referenceParses || used == map[])
  }

  /** The platform loop over an archive without an index; `None` is its nil dereference. */
  method RejectContainers(all: map<string, Index.Container>, platforms: seq<string>)
    returns (containers: Option<map<string, Index.Container>>)
    ensures containers == None <==> platforms != [] && exists d :: d in all && all[d].platform == None
    ensures containers.Some? ==> containers.value == Accepted(all, platforms)
  {
    var accepted := all;
    var left := all.Keys;
    while left != {}
      invariant left <= all.Keys
      invariant accepted == map d | d in all && (d in left || Index.HasPlatform(platforms, all[d].platform)) :: all[d]
      invariant forall d :: d in all && d !in left ==> !Index.Dereferences(platforms, all[d].platform)
      decreases left
    {
      var digest :| digest in left;
      left := left - {digest};
      if Index.Dereferences(platforms, accepted[digest].platform) {
        return None;
      }
      if !Index.HasPlatform(platforms, accepted[digest].platform) {
        accepted := accepted - {digest};
      }
    }
    return Some(accepted);
  }

  /** `dockerPrepareImage`. */
  method Prepare(files: seq<File>, platforms: seq<string>, referenceParses: bool)
    returns (out: Prepared, err: Option<Errors.Error>)
    ensures IsPreparation(files, platforms, referenceParses, out, err)
    ensures err != None ==> !Errors.Visible(err.value)
  {
    var containers, manifests, errs := Read(files);
    FailuresAreErrors(files);
    PlainIsRetryable(UNREADABLE.message);
    PlainIsRetryable(BAD_INDEX.message);
    if manifests == None {
      var accepted := RejectContainers(containers, platforms);
      if accepted == None {
        return Panicked, None;
      }
      out, err := Assemble(None, accepted.value, referenceParses, errs);
    } else {
      var ms, faults := Index.Filter(manifests.value, platforms);
      if ms == None {
        return Panicked, None;
      }
      if faults != [] {
        errs := errs + [Some(BAD_INDEX)];
      }
      out, err := Assemble(ms, Restrict(containers, ms.value), referenceParses, errs);
      assert IsPreparedWith(files, ms.value, referenceParses, out, err);
    }
  }

  lemma AcceptedIff(cs: map<string, Index.Container>, platforms: seq<string>, d: string)
    ensures d in Accepted(cs, platforms) <==>
              d in cs && (platforms == [] || (cs[d].platform.Some? && cs[d].platform.value in platforms))
    ensures d in Accepted(cs, platforms) ==> Accepted(cs, platforms)[d] == cs[d]
  {}

  /** What an archive without an index comes to: some container of a listed platform, if there is one. */
  lemma PreparingWithoutIndex(
    files: seq<File>, platforms: seq<string>, referenceParses: bool, out: Prepared, err: Option<Errors.Error>)
    requires ManifestsOf(files) == None && IsPreparation(files, platforms, referenceParses, out, err)
    ensures !out.Rebuilt?
    ensures out == Panicked <==>
              platforms != [] && exists d :: d in ContainersOf(files) && ContainersOf(files)[d].platform == None
    ensures out.Single? ==> exists d ::
              && d in ContainersOf(files) && ContainersOf(files)[d].image == out.image
              && (platforms == []
                  || (ContainersOf(files)[d].platform.Some? && ContainersOf(files)[d].platform.value in platforms))
    ensures out == Nothing && referenceParses ==> forall d :: d in ContainersOf(files) ==>
              platforms != [] && ContainersOf(files)[d].platform.Some?
              && ContainersOf(files)[d].platform.value !in platforms
  {
    var cs := ContainersOf(files);
    var accepted := Accepted(cs, platforms);
    match out {
      case Panicked =>
        assert PlatformMissing(files, platforms);
        var d :| d in cs && cs[d].platform == None;
        assert d in ContainersOf(files) && ContainersOf(files)[d].platform == None;
      case Rebuilt(_) =>
      case Single(image) =>
        var d :| d in accepted && image == accepted[d].image;
        AcceptedIff(cs, platforms, d);
      case Nothing =>
        forall d | d in cs && referenceParses
          ensures platforms != [] && cs[d].platform.Some? && cs[d].platform.value !in platforms
        {
          AcceptedIff(cs, platforms, d);
          assert d !in accepted;
        }
    }
  }
}
