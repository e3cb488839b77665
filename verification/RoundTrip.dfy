/**
 What becomes of a package on its way through the archive: written by the downloader, read and prepared by the uploader
 (server/download_github_container.go, `dockerPrepareImage` in server/docker.go).
 */
module RoundTrip {
  import opened Archive
  import opened Sequences
  import opened Wrappers
  import Errors
  import Index
  import Paths

  /** A written member as the uploader finds it, when reading a tarball back gives `readBack` of its image's digest. */
  function AsRead(m: Member, readBack: string -> Option<Index.Container>): File {
    match m
    case IndexMember(name, ms) => File(name, false, Decoded(ms), None)
    case TarMember(name, digest) => File(name, false, CannotOpen, readBack(digest))
  }

  function AllAsRead(members: seq<Member>, readBack: string -> Option<Index.Container>): seq<File> {
    seq(|members|, i requires 0 <= i < |members| => AsRead(members[i], readBack))
  }

  lemma {:induction false} WrittenMembers(wanted: seq<(string, string)>, done: set<string>, m: Member)
    ensures m in Written(wanted, done) <==>
              exists w :: w in wanted && w.0 in done && w.0 != "" && m == TarMember(TarName(w.0, w.1), w.1)
  {
    if wanted != [] {
      WrittenMembers(wanted[..|wanted| - 1], done, m);
      assert wanted == wanted[..|wanted| - 1] + [wanted[|wanted| - 1]];
    }
  }

  lemma {:induction false} WantedMembers(ms: seq<Index.Descriptor>, d: Index.Descriptor)
    requires d in ms && d.isImage
    ensures (PlatformKey(d), d.digest) in Wanted(ms)
  {
    var front, last := ms[..|ms| - 1], ms[|ms| - 1];
    assert ms == front + [last];
    if d != last {
      WantedMembers(front, d);
    }
  }

  lemma {:induction false} WantedOnly(ms: seq<Index.Descriptor>, w: (string, string))
    requires w in Wanted(ms)
    ensures exists d :: d in ms && d.isImage && w == (PlatformKey(d), d.digest)
  {
    var front, last := ms[..|ms| - 1], ms[|ms| - 1];
    assert ms == front + [last];
    if w in Wanted(front) {
      WantedOnly(front, w);
    }
  }

  predicate Clean(digest: string) {
    '-' !in digest && '/' !in digest
  }

  ghost predicate WellNamed(m: Member) {
    m.TarMember? && Clean(m.digest) && exists p :: m.name == TarName(p, m.digest)
  }

  lemma OneTarReadBack(files: seq<File>, m: Member, readBack: string -> Option<Index.Container>)
    requires WellNamed(m)
    ensures ContainersOf(files + [AsRead(m, readBack)])
            == if readBack(m.digest).Some? then ContainersOf(files)[m.digest := readBack(m.digest).value]
               else ContainersOf(files)
    ensures ManifestsOf(files + [AsRead(m, readBack)]) == ManifestsOf(files)
    ensures Failures(files + [AsRead(m, readBack)])
            == Failures(files) + if readBack(m.digest).Some? then [] else [Some(UNREADABLE)]
  {
    var more := files + [AsRead(m, readBack)];
    assert more[..|more| - 1] == files;
    var p :| m.name == TarName(p, m.digest);
    TarNameExt(p, m.digest);
    NameRoundTripIff(p, m.digest);
  }

  /** What the tarballs amount to, by the digests they were written for. */
  function TarMap(tars: seq<Member>, readBack: string -> Option<Index.Container>): map<string, Index.Container> {
    if tars == [] then map[]
    else
      var before, m := TarMap(tars[..|tars| - 1], readBack), tars[|tars| - 1];
      if m.TarMember? && readBack(m.digest).Some? then before[m.digest := readBack(m.digest).value] else before
  }

  lemma {:induction false} TarMapHolds(tars: seq<Member>, readBack: string -> Option<Index.Container>, digest: string)
    ensures digest in TarMap(tars, readBack) <==>
              readBack(digest).Some? && exists m :: m in tars && m.TarMember? && m.digest == digest
    ensures digest in TarMap(tars, readBack) ==> TarMap(tars, readBack)[digest] == readBack(digest).value
  {
    if tars != [] {
      TarMapHolds(tars[..|tars| - 1], readBack, digest);
      assert tars == tars[..|tars| - 1] + [tars[|tars| - 1]];
    }
  }

  /** A stretch of an archive is read as the given index, these containers, and no failure or some. */
  ghost predicate ReadsAs(
    members: seq<Member>, readBack: string -> Option<Index.Container>,
    manifests: Option<seq<Index.Descriptor>>, containers: map<string, Index.Container>, allRead: bool)
  {
    var files := AllAsRead(members, readBack);
    ManifestsOf(files) == manifests && ContainersOf(files) == containers && (Failures(files) == [] <==> allRead)
  }

  lemma OneMoreReadBack(
    before: seq<Member>, tars: seq<Member>, m: Member, readBack: string -> Option<Index.Container>,
    manifests: Option<seq<Index.Descriptor>>, allRead: bool)
    requires WellNamed(m)
    requires ReadsAs(before, readBack, manifests, TarMap(tars, readBack), allRead)
    ensures ReadsAs(
              before + [m], readBack, manifests, TarMap(tars + [m], readBack), allRead && readBack(m.digest).Some?)
  {
    var files := AllAsRead(before, readBack);
    assert AllAsRead(before + [m], readBack) == files + [AsRead(m, readBack)];
    OneTarReadBack(files, m, readBack);
    assert (tars + [m])[..|tars|] == tars;
  }

  predicate AllReadBack(tars: seq<Member>, readBack: string -> Option<Index.Container>) {
    forall m :: m in tars && m.TarMember? ==> readBack(m.digest).Some?
  }

  /** Reading tarballs finds each that can be read under the digest it was written for. */
  lemma {:induction false} TarsReadBack(
    header: seq<Member>, tars: seq<Member>, readBack: string -> Option<Index.Container>,
    manifests: Option<seq<Index.Descriptor>>)
    requires forall m :: m in tars ==> WellNamed(m)
    requires ReadsAs(header, readBack, manifests, map[], true)
    ensures ReadsAs(header + tars, readBack, manifests, TarMap(tars, readBack), AllReadBack(tars, readBack))
  {
    if tars == [] {
      assert header + tars == header;
    } else {
      var front, m := tars[..|tars| - 1], tars[|tars| - 1];
      SplitLast(header, tars);
      assert m in tars;
      TarsReadBack(header, front, readBack, manifests);
      OneMoreReadBack(header + front, front, m, readBack, manifests, AllReadBack(front, readBack));
      assert AllReadBack(tars, readBack) <==> AllReadBack(front, readBack) && readBack(m.digest).Some?;
    }
  }

  /** Some image of this digest was written to the archive. */
  ghost predicate HasTar(ms: seq<Index.Descriptor>, digest: string) {
    exists d :: d in ms && d.isImage && d.platform != Some("") && d.digest == digest
  }

  ghost predicate CleanDigests(ms: seq<Index.Descriptor>) {
    forall d :: d in ms && d.isImage && d.platform != Some("") ==> Clean(d.digest)
  }

  /** The container of this digest makes it through the archive. */
  ghost predicate Arrives(ms: seq<Index.Descriptor>, readBack: string -> Option<Index.Container>, digest: string) {
    HasTar(ms, digest) && readBack(digest).Some?
  }

  /** Under each digest that arrives, and no other, the container read back from that very image. */
  ghost predicate HoldsArrived(
    ms: seq<Index.Descriptor>, readBack: string -> Option<Index.Container>, containers: map<string, Index.Container>)
  {
    && (forall digest :: digest in containers <==> Arrives(ms, readBack, digest))
    && (forall digest :: digest in containers ==> containers[digest] == readBack(digest).value)
  }

  ghost predicate AllArrive(ms: seq<Index.Descriptor>, readBack: string -> Option<Index.Container>) {
    forall digest :: HasTar(ms, digest) ==> readBack(digest).Some?
  }

  /** The tarballs of an archive are those of the digests that have one. */
  lemma ArchiveMember(ms: seq<Index.Descriptor>, m: Member)
    requires m in Written(Wanted(ms), PlatformsOf(Wanted(ms)))
    ensures m.TarMember? && HasTar(ms, m.digest)
    ensures CleanDigests(ms) ==> WellNamed(m)
  {
    var wanted := Wanted(ms);
    WrittenMembers(wanted, PlatformsOf(wanted), m);
    var w :| w in wanted && w.0 != "" && m == TarMember(TarName(w.0, w.1), w.1);
    WantedOnly(ms, w);
  }

  lemma DigestWritten(ms: seq<Index.Descriptor>, digest: string) returns (m: Member)
    requires HasTar(ms, digest)
    ensures m in Written(Wanted(ms), PlatformsOf(Wanted(ms))) && m.TarMember? && m.digest == digest
  {
    var d :| d in ms && d.isImage && d.platform != Some("") && d.digest == digest;
    var wanted, w := Wanted(ms), (PlatformKey(d), d.digest);
    m := TarMember(TarName(w.0, w.1), w.1);
    WantedMembers(ms, d);
    WrittenMembers(wanted, PlatformsOf(wanted), m);
  }

  function ImagesToWrite(ms: seq<Index.Descriptor>): nat {
    if ms == [] then 0
    else
      var d := ms[|ms| - 1];
      ImagesToWrite(ms[..|ms| - 1]) + if d.isImage && d.platform != Some("") then 1 else 0
  }

  lemma {:induction false} WrittenCounted(ms: seq<Index.Descriptor>, done: set<string>)
    requires PlatformsOf(Wanted(ms)) <= done
    ensures |Written(Wanted(ms), done)| == ImagesToWrite(ms)
  {
    if ms != [] {
      var front, d := ms[..|ms| - 1], ms[|ms| - 1];
      var before, w := Wanted(front), (PlatformKey(d), d.digest);
      if d.isImage {
        assert Wanted(ms) == before + [w] && (before + [w])[..|before|] == before;
        assert w in Wanted(ms) && w.0 in PlatformsOf(Wanted(ms));
        forall p | p in PlatformsOf(before) ensures p in done {
          var v :| v in before && v.0 == p;
          assert v in Wanted(ms);
        }
      } else {
        assert Wanted(ms) == before;
      }
      WrittenCounted(front, done);
    }
  }

  /**
   An index's archive holds one tarball per image that is not on a blank platform, filed under its platform, or under
   `unknown/unknown` when it names none.
   */
  lemma ImagesAreFiled(hex: string, ms: seq<Index.Descriptor>, members: seq<Member>, d: Index.Descriptor)
    requires IsArchive(MultiPlatform(hex, ms), members)
    ensures |members| == 1 + ImagesToWrite(ms)
    ensures d in ms && d.isImage && d.platform != Some("") ==>
              && HasTar(ms, d.digest)
              && TarMember(
                   TarName(if d.platform == None then "unknown/unknown" else d.platform.value, d.digest), d.digest)
                 in members
  {
    var wanted := Wanted(ms);
    WrittenCounted(ms, PlatformsOf(wanted));
    assert |multiset(members[1..])| == |members| - 1;
    if d in ms && d.isImage && d.platform != Some("") {
      var w := (PlatformKey(d), d.digest);
      WantedMembers(ms, d);
      var m := TarMember(TarName(w.0, w.1), w.1);
      WrittenMembers(wanted, PlatformsOf(wanted), m);
      assert m in multiset(members[1..]);
    }
  }

  /** What the tarballs of an archive amount to. */
  lemma TarsHoldArrived(ms: seq<Index.Descriptor>, tars: seq<Member>, readBack: string -> Option<Index.Container>)
    requires multiset(tars) == Written(Wanted(ms), PlatformsOf(Wanted(ms)))
    ensures HoldsArrived(ms, readBack, TarMap(tars, readBack))
    ensures AllReadBack(tars, readBack) <==> AllArrive(ms, readBack)
  {
    forall m | m in tars ensures m.TarMember? && HasTar(ms, m.digest) {
      assert m in multiset(tars);
      ArchiveMember(ms, m);
    }
    forall digest | HasTar(ms, digest) ensures exists m :: m in tars && m.TarMember? && m.digest == digest {
      var m := DigestWritten(ms, digest);
      assert m in multiset(tars);
    }
    forall digest
      ensures digest in TarMap(tars, readBack) <==> Arrives(ms, readBack, digest)
      ensures digest in TarMap(tars, readBack) ==> TarMap(tars, readBack)[digest] == readBack(digest).value
    {
      TarMapHolds(tars, readBack, digest);
    }
  }

  /**
   Download, then read: the uploader finds the same index and, under each digest whose tarball can be read, the
   container read back from that very image; and it reports an error exactly when some tarball cannot be read.
   */
  lemma DownloadThenRead(
    hex: string, ms: seq<Index.Descriptor>, members: seq<Member>, readBack: string -> Option<Index.Container>)
    requires CleanDigests(ms) && IsArchive(MultiPlatform(hex, ms), members)
    ensures ManifestsOf(AllAsRead(members, readBack)) == Some(ms)
    ensures HoldsArrived(ms, readBack, ContainersOf(AllAsRead(members, readBack)))
    ensures Failures(AllAsRead(members, readBack)) == [] <==> AllArrive(ms, readBack)
  {
    var header, tars := [IndexMember(hex + ".json", ms)], members[1..];
    assert members == header + tars;
    HeaderReadBack(hex, ms, readBack);
    forall m | m in tars ensures WellNamed(m) {
      assert m in multiset(tars);
      ArchiveMember(ms, m);
    }
    TarsReadBack(header, tars, readBack, Some(ms));
    TarsHoldArrived(ms, tars, readBack);
  }

  lemma HeaderReadBack(hex: string, ms: seq<Index.Descriptor>, readBack: string -> Option<Index.Container>)
    ensures ReadsAs([IndexMember(hex + ".json", ms)], readBack, Some(ms), map[], true)
  {
    var files := AllAsRead([IndexMember(hex + ".json", ms)], readBack);
    Paths.ExtOfJson(hex);
    assert files[..0] == [];
  }

  // ---------- preparing a downloaded archive ----------

  /** Some manifest kept has its container in the archive, and some has not. */
  ghost predicate PartlyArrives(
    ms: seq<Index.Descriptor>, readBack: string -> Option<Index.Container>, kept: seq<Index.Descriptor>)
  {
    && (exists k :: k in kept && Arrives(ms, readBack, k.digest))
    && (exists k :: k in kept && !Arrives(ms, readBack, k.digest))
  }

  lemma UsedIffArrives(
    ms: seq<Index.Descriptor>, readBack: string -> Option<Index.Container>,
    containers: map<string, Index.Container>, kept: seq<Index.Descriptor>)
    requires HoldsArrived(ms, readBack, containers)
    ensures Restrict(containers, kept) == map[] <==> forall k :: k in kept ==> !Arrives(ms, readBack, k.digest)
    ensures forall k :: k in kept ==> (k.digest in Restrict(containers, kept) <==> Arrives(ms, readBack, k.digest))
  {
    if k :| k in kept && Arrives(ms, readBack, k.digest) {
      assert k.digest in Restrict(containers, kept);
    }
    if d :| d in Restrict(containers, kept) {
      var k :| k in kept && k.digest == d;
    }
  }

  /** The second nil dereference, on one choice of what the filter kept. */
  lemma DereferencesIff(
    ms: seq<Index.Descriptor>, readBack: string -> Option<Index.Container>,
    containers: map<string, Index.Container>, kept: seq<Index.Descriptor>, referenceParses: bool, out: Prepared)
    requires HoldsArrived(ms, readBack, containers)
    requires IsPreparedFrom(kept, Restrict(containers, kept), referenceParses, out)
    ensures out == Panicked <==> referenceParses && |kept| > 1 && PartlyArrives(ms, readBack, kept)
  {
    UsedIffArrives(ms, readBack, containers, kept);
  }

  lemma PartlyArrivesPermutes(
    ms: seq<Index.Descriptor>, readBack: string -> Option<Index.Container>,
    a: seq<Index.Descriptor>, b: seq<Index.Descriptor>)
    requires multiset(a) == multiset(b)
    ensures PartlyArrives(ms, readBack, a) <==> PartlyArrives(ms, readBack, b)
    ensures |a| == |b|
  {
    assert |multiset(a)| == |multiset(b)|;
    forall k ensures k in a <==> k in b {
      assert k in a <==> k in multiset(a);
      assert k in b <==> k in multiset(b);
    }
  }

  /**
   When preparing a downloaded archive panics, whatever the iteration orders: exactly when a platform list meets an
   image without a platform, or when several manifests are kept of which some have their container in the archive and
   some, nested indexes, images on a blank platform or unreadable ones, have not.
   */
  lemma PreparingPanicsIff(
    hex: string, ms: seq<Index.Descriptor>, members: seq<Member>, readBack: string -> Option<Index.Container>,
    platforms: seq<string>, referenceParses: bool, out: Prepared, err: Option<Errors.Error>,
    kept: seq<Index.Descriptor>)
    requires CleanDigests(ms) && IsArchive(MultiPlatform(hex, ms), members)
    requires IsPreparation(AllAsRead(members, readBack), platforms, referenceParses, out, err)
    requires Index.IsFiltering(ms, Index.For(platforms), kept)
    ensures out == Panicked <==>
              || (platforms != [] && Index.LacksPlatform(ms))
              || (referenceParses && |kept| > 1 && PartlyArrives(ms, readBack, kept))
  {
    var files := AllAsRead(members, readBack);
    DownloadThenRead(hex, ms, members, readBack);
    if !PlatformMissing(files, platforms) {
      var other :| && Index.IsFiltering(ms, Index.For(platforms), other)
                   && IsPreparedWith(files, other, referenceParses, out, err);
      DereferencesIff(ms, readBack, ContainersOf(files), other, referenceParses, out);
      Index.FilteringsPermute(ms, Index.For(platforms), other, kept);
      PartlyArrivesPermutes(ms, readBack, other, kept);
    }
  }

  /**
   An entry of the rebuilt index carries the image read back for its own descriptor; an attestation refers to the new
   digest of the entry before it, which stands for the image it named.
   */
  ghost predicate EntryFits(
    kept: seq<Index.Descriptor>, readBack: string -> Option<Index.Container>, entries: seq<Index.Entry>, i: nat)
    requires i < |kept| == |entries|
  {
    && readBack(kept[i].digest).Some?
    && entries[i].image == readBack(kept[i].digest).value.image
    && entries[i].digest == readBack(kept[i].digest).value.digest
    && entries[i].platform == readBack(kept[i].digest).value.platform
    && (!Index.IsAttestation(kept[i]) ==> entries[i].annotations == kept[i].annotations)
    && (Index.IsKeyed(kept[i]) ==>
          && i > 0 && kept[i - 1].digest == Index.Reference(kept[i])
          && entries[i].annotations == kept[i].annotations[Index.REFERENCE_DIGEST := entries[i - 1].digest])
  }

  /** What preparing gives for the manifests kept. */
  ghost predicate CarriesOwnImages(
    ms: seq<Index.Descriptor>, readBack: string -> Option<Index.Container>, kept: seq<Index.Descriptor>,
    referenceParses: bool, out: Prepared)
  {
    match out
    case Panicked => false
    case Nothing => referenceParses ==> forall k :: k in kept ==> !Arrives(ms, readBack, k.digest)
    case Single(image) =>
      && referenceParses && |kept| == 1
      && Arrives(ms, readBack, kept[0].digest) && image == readBack(kept[0].digest).value.image
    case Rebuilt(entries) =>
      && referenceParses && |kept| > 1 && |entries| == |kept|
      && forall i :: 0 <= i < |kept| ==> EntryFits(kept, readBack, entries, i)
  }

  lemma EntriesFit(
    ms: seq<Index.Descriptor>, accept: Index.Accept, readBack: string -> Option<Index.Container>,
    containers: map<string, Index.Container>, kept: seq<Index.Descriptor>, entries: seq<Index.Entry>, i: nat)
    requires Index.IsFiltering(ms, accept, kept) && HoldsArrived(ms, readBack, containers)
    requires Index.IsBuilt(kept, Restrict(containers, kept), entries) && i < |kept|
    ensures EntryFits(kept, readBack, entries, i)
  {
    Index.ReferencesSurvive(ms, accept, kept, Restrict(containers, kept), entries, i);
    Index.EntriesStandForContainers(kept, Restrict(containers, kept), entries, i);
    assert kept[i] in kept;
  }

  lemma SingleIsOwn(
    ms: seq<Index.Descriptor>, readBack: string -> Option<Index.Container>,
    containers: map<string, Index.Container>, kept: seq<Index.Descriptor>, image: string)
    requires HoldsArrived(ms, readBack, containers) && |kept| == 1
    requires exists d :: d in Restrict(containers, kept) && image == Restrict(containers, kept)[d].image
    ensures Arrives(ms, readBack, kept[0].digest) && image == readBack(kept[0].digest).value.image
  {
    var used := Restrict(containers, kept);
    var d :| d in used && image == used[d].image;
    var k :| k in kept && k.digest == d;
    OnlyElement(kept, k);
  }

  lemma KeptCarryOwnImages(
    ms: seq<Index.Descriptor>, accept: Index.Accept, readBack: string -> Option<Index.Container>,
    containers: map<string, Index.Container>, kept: seq<Index.Descriptor>, referenceParses: bool, out: Prepared)
    requires Index.IsFiltering(ms, accept, kept) && HoldsArrived(ms, readBack, containers) && out != Panicked
    requires IsPreparedFrom(kept, Restrict(containers, kept), referenceParses, out)
    ensures CarriesOwnImages(ms, readBack, kept, referenceParses, out)
  {
    match out {
      case Nothing =>
        UsedIffArrives(ms, readBack, containers, kept);
      case Single(image) =>
        SingleIsOwn(ms, readBack, containers, kept, image);
      case Rebuilt(entries) =>
        var d :| d in Restrict(containers, kept);
        var k :| k in kept && k.digest == d;
        forall i | 0 <= i < |kept| ensures EntryFits(kept, readBack, entries, i) {
          EntriesFit(ms, accept, readBack, containers, kept, entries, i);
        }
    }
  }

  /** An index is reported faulty when it holds something, and nothing but attestations without a key. */
  lemma FaultsIff(ms: seq<Index.Descriptor>)
    ensures HasFaults(Some(ms)) <==> ms != [] && forall d :: d in ms ==> Index.IsAttestation(d) && !Index.IsKeyed(d)
  {
    Index.BareIff(ms);
    Index.EveryDescriptorCounted(ms);
    if Index.IsBare(ms) {
      NoImagesCounted(ms);
    }
  }

  lemma {:induction false} NoImagesCounted(ms: seq<Index.Descriptor>)
    requires forall d :: d in ms ==> Index.IsAttestation(d)
    ensures Index.ImageCount(ms) == 0
  {
    if ms != [] {
      assert ms[|ms| - 1] in ms;
      NoImagesCounted(ms[..|ms| - 1]);
    }
  }

  /** Nothing to report about a downloaded archive. */
  ghost predicate ArrivesClean(
    ms: seq<Index.Descriptor>, readBack: string -> Option<Index.Container>, kept: seq<Index.Descriptor>,
    referenceParses: bool)
  {
    && AllArrive(ms, readBack)
    && (ms == [] || exists d :: d in ms && (!Index.IsAttestation(d) || Index.IsKeyed(d)))
    && (referenceParses || forall k :: k in kept ==> !Arrives(ms, readBack, k.digest))
  }

  lemma CleanIff(
    files: seq<File>, ms: seq<Index.Descriptor>, readBack: string -> Option<Index.Container>,
    kept: seq<Index.Descriptor>, referenceParses: bool)
    requires ManifestsOf(files) == Some(ms) && HoldsArrived(ms, readBack, ContainersOf(files))
    requires Failures(files) == [] <==> AllArrive(ms, readBack)
    ensures IsClean(files, Restrict(ContainersOf(files), kept), referenceParses)
            <==> ArrivesClean(ms, readBack, kept, referenceParses)
  {
    UsedIffArrives(ms, readBack, ContainersOf(files), kept);
    FaultsIff(ms);
  }

  /**
   Where preparing a downloaded archive does not panic, nothing, the one image or the rebuilt index comes out, each
   entry with the image read back for its own descriptor and each reference renewed; and the error is nil exactly when
   there is nothing to report.
   */
  lemma DownloadThenPrepare(
    hex: string, ms: seq<Index.Descriptor>, members: seq<Member>, readBack: string -> Option<Index.Container>,
    platforms: seq<string>, referenceParses: bool, out: Prepared, err: Option<Errors.Error>)
    returns (kept: seq<Index.Descriptor>)
    requires CleanDigests(ms) && IsArchive(MultiPlatform(hex, ms), members)
    requires IsPreparation(AllAsRead(members, readBack), platforms, referenceParses, out, err) && out != Panicked
    ensures Index.IsFiltering(ms, Index.For(platforms), kept)
    ensures CarriesOwnImages(ms, readBack, kept, referenceParses, out)
    ensures err == None <==> ArrivesClean(ms, readBack, kept, referenceParses)
  {
    var files := AllAsRead(members, readBack);
    DownloadThenRead(hex, ms, members, readBack);
    kept :| && Index.IsFiltering(ms, Index.For(platforms), kept)
            && IsPreparedWith(files, kept, referenceParses, out, err);
    KeptCarryOwnImages(ms, Index.For(platforms), readBack, ContainersOf(files), kept, referenceParses, out);
    CleanIff(files, ms, readBack, kept, referenceParses);
  }

  lemma HasTarOfOne(image: Index.Descriptor, digest: string)
    requires image.isImage
    ensures HasTar([image], digest) <==> image.platform != Some("") && image.digest == digest
  {
    assert image in [image];
  }

  lemma HoldsArrivedOfOne(
    image: Index.Descriptor, readBack: string -> Option<Index.Container>, containers: map<string, Index.Container>)
    requires image.isImage && HoldsArrived([image], readBack, containers)
    ensures containers == if image.platform != Some("") && readBack(image.digest).Some?
                          then map[image.digest := readBack(image.digest).value] else map[]
  {
    forall digest ensures Arrives([image], readBack, digest) <==>
              image.platform != Some("") && image.digest == digest && readBack(digest).Some?
    {
      HasTarOfOne(image, digest);
    }
  }

  lemma OneImageArchive(d: Index.Descriptor, members: seq<Member>)
    requires Clean(d.digest) && IsArchive(SingleImage(d), members)
    ensures var ms := [d.(isImage := true)]; multiset(members) == Written(Wanted(ms), PlatformsOf(Wanted(ms)))
    ensures forall m :: m in members ==> WellNamed(m)
  {
    var image := d.(isImage := true);
    assert [image][..0] == [];
    assert Wanted([image]) == WantedFrom(SingleImage(d));
    forall m | m in members ensures WellNamed(m) {
      assert m in multiset(members);
      ArchiveMember([image], m);
    }
  }

  lemma NothingReadYet(readBack: string -> Option<Index.Container>)
    ensures ReadsAs([], readBack, None, map[], true)
  {
    assert AllAsRead([], readBack) == [];
  }

  /** The archive of a package that is one image holds its container, if it can be read back, and nothing else. */
  lemma SingleDownloadThenRead(
    d: Index.Descriptor, members: seq<Member>, readBack: string -> Option<Index.Container>)
    requires Clean(d.digest) && IsArchive(SingleImage(d), members)
    ensures ManifestsOf(AllAsRead(members, readBack)) == None
    ensures ContainersOf(AllAsRead(members, readBack))
            == if d.platform != Some("") && readBack(d.digest).Some? then map[d.digest := readBack(d.digest).value]
               else map[]
  {
    var image := d.(isImage := true);
    OneImageArchive(d, members);
    NothingReadYet(readBack);
    TarsReadBack([], members, readBack, None);
    assert [] + members == members;
    TarsHoldArrived([image], members, readBack);
    HoldsArrivedOfOne(image, readBack, TarMap(members, readBack));
  }

  /** The same for a package that is one image: its container, if it arrives and suits the destination. */
  lemma SingleDownloadThenPrepare(
    d: Index.Descriptor, members: seq<Member>, readBack: string -> Option<Index.Container>,
    platforms: seq<string>, referenceParses: bool, out: Prepared, err: Option<Errors.Error>)
    requires Clean(d.digest) && IsArchive(SingleImage(d), members)
    requires IsPreparation(AllAsRead(members, readBack), platforms, referenceParses, out, err)
    ensures var container := if d.platform == Some("") then None else readBack(d.digest);
            if container == None then out == Nothing
            else if platforms != [] && container.value.platform == None then out == Panicked
            else if platforms != [] && container.value.platform.value !in platforms then out == Nothing
            else if !referenceParses then out == Nothing
            else out == Single(container.value.image)
  {
    SingleDownloadThenRead(d, members, readBack);
    var containers := ContainersOf(AllAsRead(members, readBack));
    if d.digest in containers && Index.HasPlatform(platforms, containers[d.digest].platform) {
      assert d.digest in Accepted(containers, platforms);
    }
  }
}
