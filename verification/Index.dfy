/**
 Container indexes: telling images from attestations, filtering by platform, and rebuilding the index around
 re-compressed images (server/docker.go, config/destination.go). Go's map iteration is an arbitrary choice at each
 loop step.
 */
module Index {
  import opened Wrappers
  import opened Sequences

  /** `platform` is the platform's string form. */
  datatype Descriptor = Descriptor(
    isImage: bool, digest: string, platform: Option<string>, annotations: map<string, string>)

  const REFERENCE_TYPE := "vnd.docker.reference.type"
  const REFERENCE_DIGEST := "vnd.docker.reference.digest"
  const ATTESTATION := "attestation-manifest"

  /** A missing annotation reads as the empty string. */
  function Annotation(d: Descriptor, key: string): string {
    if key in d.annotations then d.annotations[key] else ""
  }

  predicate IsAttestation(d: Descriptor) {
    Annotation(d, REFERENCE_TYPE) == ATTESTATION
  }

  function Reference(d: Descriptor): string {
    Annotation(d, REFERENCE_DIGEST)
  }

  predicate IsKeyed(d: Descriptor) {
    IsAttestation(d) && Reference(d) != ""
  }

  /** What counts as an attestation, and what it refers to, in the annotations' own terms. */
  lemma AttestationsTold(d: Descriptor)
    ensures IsAttestation(d) <==>
              && "vnd.docker.reference.type" in d.annotations
              && d.annotations["vnd.docker.reference.type"] == "attestation-manifest"
    ensures IsKeyed(d) <==>
              && IsAttestation(d)
              && "vnd.docker.reference.digest" in d.annotations && d.annotations["vnd.docker.reference.digest"] != ""
    ensures IsKeyed(d) ==> Reference(d) == d.annotations["vnd.docker.reference.digest"]
  {}

  datatype Fault = Keyless(digest: string) | Repeated(reference: string, digest: string, taken: string)

  // ---------- extraction ----------

  /** Images by digest; of several with one digest, the last. */
  function Images(ms: seq<Descriptor>): map<string, Descriptor> {
    if ms == [] then map[]
    else
      var d := ms[|ms| - 1];
      if IsAttestation(d) then Images(ms[..|ms| - 1]) else Images(ms[..|ms| - 1])[d.digest := d]
  }

  /** Attestations by the digest they refer to; of several for one digest, the first. */
  function Attestations(ms: seq<Descriptor>): map<string, Descriptor> {
    if ms == [] then map[]
    else
      var before, d := Attestations(ms[..|ms| - 1]), ms[|ms| - 1];
      if IsKeyed(d) && Reference(d) !in before then before[Reference(d) := d] else before
  }

  function Faults(ms: seq<Descriptor>): seq<Fault> {
    if ms == [] then []
    else
      var front, d := ms[..|ms| - 1], ms[|ms| - 1];
      Faults(front)
      + if !IsAttestation(d) then []
        else if Reference(d) == "" then [Keyless(d.digest)]
        else if Reference(d) in Attestations(front) then
          [Repeated(Reference(d), d.digest, Attestations(front)[Reference(d)].digest)]
        else []
  }

  /** `dockerExtractImagesAndAttestations`. */
  method Extract(manifest: Option<seq<Descriptor>>)
    returns (images: map<string, Descriptor>, attestations: map<string, Descriptor>, errs: seq<Fault>)
    ensures var ms := if manifest == None then [] else manifest.value;
            images == Images(ms) && attestations == Attestations(ms) && errs == Faults(ms)
  {
    images, attestations, errs := map[], map[], [];
    if manifest == None {
      return;
    }
    var ms := manifest.value;
    for i := 0 to |ms|
      invariant images == Images(ms[..i]) && attestations == Attestations(ms[..i]) && errs == Faults(ms[..i])
    {
      var desc := ms[i];
      assert ms[..i + 1][..i] == ms[..i];
      if Annotation(desc, REFERENCE_TYPE) != ATTESTATION {
        images := images[desc.digest := desc];
        continue;
      }
      var digest := Annotation(desc, REFERENCE_DIGEST);
      if digest == "" {
        errs := errs + [Keyless(desc.digest)];
        continue;
      }
      if digest in attestations {
        errs := errs + [Repeated(digest, desc.digest, attestations[digest].digest)];
        continue;
      }
      attestations := attestations[digest := desc];
    }
    assert ms[..|ms|] == ms;
  }

  /** Exactly the digests some image has are kept. */
  lemma {:induction false} HasImageIff(ms: seq<Descriptor>, digest: string)
    ensures digest in Images(ms) <==> exists i :: 0 <= i < |ms| && !IsAttestation(ms[i]) && ms[i].digest == digest
  {
    if ms != [] {
      var front, d := ms[..|ms| - 1], ms[|ms| - 1];
      HasImageIff(front, digest);
      assert forall i :: 0 <= i < |front| ==> ms[i] == front[i];
      if !IsAttestation(d) && d.digest == digest {
        assert ms[|front|] == d;
      }
    }
  }

  /** Which image is kept for a digest: the last one in the index. */
  lemma {:induction false} ImageIsLast(ms: seq<Descriptor>, digest: string) returns (i: nat)
    requires digest in Images(ms)
    ensures i < |ms| && ms[i] == Images(ms)[digest] && !IsAttestation(ms[i]) && ms[i].digest == digest
    ensures forall j :: i < j < |ms| && !IsAttestation(ms[j]) ==> ms[j].digest != digest
  {
    var front, d := ms[..|ms| - 1], ms[|ms| - 1];
    if !IsAttestation(d) && d.digest == digest {
      i := |front|;
    } else {
      i := ImageIsLast(front, digest);
      assert forall j :: 0 <= j < |front| ==> ms[j] == front[j];
    }
  }

  /** Exactly the digests some attestation refers to are kept. */
  lemma {:induction false} HasAttestationIff(ms: seq<Descriptor>, digest: string)
    ensures digest in Attestations(ms) <==> exists i :: 0 <= i < |ms| && IsKeyed(ms[i]) && Reference(ms[i]) == digest
  {
    if ms != [] {
      var front, d := ms[..|ms| - 1], ms[|ms| - 1];
      HasAttestationIff(front, digest);
      assert forall i :: 0 <= i < |front| ==> ms[i] == front[i];
      if IsKeyed(d) && Reference(d) == digest {
        assert ms[|front|] == d;
      }
    }
  }

  /** Which attestation is kept for a digest: the first one in the index that refers to it. */
  lemma {:induction false} AttestationIsFirst(ms: seq<Descriptor>, digest: string) returns (i: nat)
    requires digest in Attestations(ms)
    ensures i < |ms| && ms[i] == Attestations(ms)[digest] && IsKeyed(ms[i]) && Reference(ms[i]) == digest
    ensures forall j :: 0 <= j < i && IsKeyed(ms[j]) ==> Reference(ms[j]) != digest
  {
    var front := ms[..|ms| - 1];
    if digest in Attestations(front) {
      i := AttestationIsFirst(front, digest);
      assert forall j :: 0 <= j < |front| ==> ms[j] == front[j];
    } else {
      i := |front|;
      HasAttestationIff(front, digest);
      assert forall j :: 0 <= j < |front| ==> ms[j] == front[j];
    }
  }

  /** An attestation without a key, or one for a reference an earlier attestation has taken. */
  ghost predicate IsFaulty(ms: seq<Descriptor>, i: nat)
    requires i < |ms|
  {
    && IsAttestation(ms[i])
    && (Reference(ms[i]) == "" || exists j :: 0 <= j < i && IsKeyed(ms[j]) && Reference(ms[j]) == Reference(ms[i]))
  }

  /**
   Each descriptor adds one error if it is faulty, and none otherwise: its own digest when it has no key, and else the
   reference, its own digest and that of the first attestation with this reference.
   */
  lemma FaultPerFaulty(ms: seq<Descriptor>, i: nat)
    requires i < |ms|
    ensures !IsFaulty(ms, i) ==> Faults(ms[..i + 1]) == Faults(ms[..i])
    ensures IsFaulty(ms, i) && Reference(ms[i]) == "" ==>
              Faults(ms[..i + 1]) == Faults(ms[..i]) + [Keyless(ms[i].digest)]
    ensures IsFaulty(ms, i) && Reference(ms[i]) != "" ==>
              exists j ::
                && 0 <= j < i && IsKeyed(ms[j]) && Reference(ms[j]) == Reference(ms[i])
                && (forall k :: 0 <= k < j && IsKeyed(ms[k]) ==> Reference(ms[k]) != Reference(ms[i]))
                && Faults(ms[..i + 1]) == Faults(ms[..i]) + [Repeated(Reference(ms[i]), ms[i].digest, ms[j].digest)]
  {
    var front := ms[..i];
    assert ms[..i + 1][..i] == front;
    assert forall k :: 0 <= k < i ==> front[k] == ms[k];
    HasAttestationIff(front, Reference(ms[i]));
    if Reference(ms[i]) in Attestations(front) {
      var j := AttestationIsFirst(front, Reference(ms[i]));
      assert ms[j] == front[j];
    }
    if j :| 0 <= j < i && IsKeyed(ms[j]) && Reference(ms[j]) == Reference(ms[i]) {
      assert front[j] == ms[j];
    }
  }

  function ImageCount(ms: seq<Descriptor>): nat {
    if ms == [] then 0 else ImageCount(ms[..|ms| - 1]) + if IsAttestation(ms[|ms| - 1]) then 0 else 1
  }

  ghost predicate DistinctImages(ms: seq<Descriptor>) {
    forall i, j :: 0 <= i < j < |ms| && !IsAttestation(ms[i]) && !IsAttestation(ms[j]) ==> ms[i].digest != ms[j].digest
  }

  lemma {:induction false} EveryDescriptorCounted(ms: seq<Descriptor>)
    ensures |ms| == ImageCount(ms) + |Attestations(ms)| + |Faults(ms)|
  {
    if ms != [] {
      EveryDescriptorCounted(ms[..|ms| - 1]);
    }
  }

  lemma DistinctImagesStep(front: seq<Descriptor>, d: Descriptor)
    ensures DistinctImages(front + [d]) <==>
              DistinctImages(front) && (IsAttestation(d) || d.digest !in Images(front))
  {
    var ms := front + [d];
    HasImageIff(front, d.digest);
    assert forall i :: 0 <= i < |front| ==> ms[i] == front[i];
    assert ms[|front|] == d;
    if !IsAttestation(d) && d.digest in Images(front) {
      var i :| 0 <= i < |front| && !IsAttestation(front[i]) && front[i].digest == d.digest;
      assert ms[i].digest == ms[|front|].digest;
    }
  }

  lemma {:induction false} ImagesCounted(ms: seq<Descriptor>)
    ensures |Images(ms)| <= ImageCount(ms)
    ensures |Images(ms)| == ImageCount(ms) <==> DistinctImages(ms)
  {
    if ms != [] {
      var front, d := ms[..|ms| - 1], ms[|ms| - 1];
      ImagesCounted(front);
      assert ms == front + [d];
      DistinctImagesStep(front, d);
    }
  }

  /**
   Extraction conserves descriptors: every one is an image, a kept attestation or an error. Counting images by digest
   instead gives the same total exactly when image digests are pairwise distinct.
   */
  lemma ExtractionConserves(ms: seq<Descriptor>)
    ensures |ms| == ImageCount(ms) + |Attestations(ms)| + |Faults(ms)|
    ensures |ms| == |Images(ms)| + |Attestations(ms)| + |Faults(ms)| <==> DistinctImages(ms)
  {
    EveryDescriptorCounted(ms);
    ImagesCounted(ms);
  }

  // ---------- filtering ----------

  type Accept = Option<string> -> bool

  /** `Destination.HasPlatform`, where it does not panic. */
  predicate HasPlatform(platforms: seq<string>, platform: Option<string>) {
    platforms == [] || (platform.Some? && platform.value in platforms)
  }

  /** `Destination.HasPlatform` dereferences a missing platform when there is a platform list. */
  predicate Dereferences(platforms: seq<string>, platform: Option<string>) {
    platforms != [] && platform == None
  }

  /** Some image the filter looks at names no platform. */
  ghost predicate LacksPlatform(ms: seq<Descriptor>) {
    exists d :: d in Images(ms) && Images(ms)[d].platform == None
  }

  /** The platform test of one destination. */
  function For(platforms: seq<string>): Accept {
    p => HasPlatform(platforms, p)
  }

  function Both(p: Accept, q: Accept): Accept {
    x => p(x) && q(x)
  }

  ghost predicate Kept(ms: seq<Descriptor>, accept: Accept, digest: string) {
    digest in Images(ms) && accept(Images(ms)[digest].platform)
  }

  function Group(
    digest: string, images: map<string, Descriptor>, attestations: map<string, Descriptor>): seq<Descriptor>
  {
    if digest !in images then []
    else [images[digest]] + if digest in attestations then [attestations[digest]] else []
  }

  /** Images in the given order, each followed by its attestation. */
  function Emit(
    order: seq<string>, images: map<string, Descriptor>, attestations: map<string, Descriptor>): seq<Descriptor>
  {
    if order == [] then []
    else
      Emit(order[..|order| - 1], images, attestations) + Group(order[|order| - 1], images, attestations)
  }

  lemma EmitAppend(
    order: seq<string>, d: string, images: map<string, Descriptor>, attestations: map<string, Descriptor>)
    ensures Emit(order + [d], images, attestations)
            == Emit(order, images, attestations) + Group(d, images, attestations)
  {
    assert (order + [d])[..|order|] == order;
  }

  /** Nothing to separate: no image and no attestation with a key. */
  predicate IsBare(ms: seq<Descriptor>) {
    Images(ms) == map[] && Attestations(ms) == map[]
  }

  ghost predicate IsKeptOrder(ms: seq<Descriptor>, accept: Accept, order: seq<string>) {
    NoDuplicates(order) && forall d :: d in order <==> Kept(ms, accept, d)
  }

  /** A result the filter may give, for some iteration order. */
  ghost predicate IsFiltering(ms: seq<Descriptor>, accept: Accept, result: seq<Descriptor>) {
    if IsBare(ms) then result == ms
    else exists order :: IsKeptOrder(ms, accept, order) && result == Emit(order, Images(ms), Attestations(ms))
  }

  lemma {:induction false} EmitCongruent(
    order: seq<string>, images: map<string, Descriptor>, attestations: map<string, Descriptor>,
    images': map<string, Descriptor>, attestations': map<string, Descriptor>)
    requires forall d :: d in order ==> d in images && d in images' && images[d] == images'[d]
    requires forall d :: d in order ==> (d in attestations <==> d in attestations')
    requires forall d :: d in order && d in attestations ==> attestations[d] == attestations'[d]
    ensures Emit(order, images, attestations) == Emit(order, images', attestations')
  {
    if order != [] {
      assert order[|order| - 1] in order;
      EmitCongruent(order[..|order| - 1], images, attestations, images', attestations');
    }
  }

  /** `m` without the keys a part of the loop has rejected. */
  function Unrejected(
    m: map<string, Descriptor>, all: map<string, Descriptor>, left: set<string>, platforms: seq<string>)
    : map<string, Descriptor>
  {
    map d | d in m && (d in all && d !in left ==> HasPlatform(platforms, all[d].platform)) :: m[d]
  }

  lemma UnrejectedStep(
    m: map<string, Descriptor>, all: map<string, Descriptor>, left: set<string>, platforms: seq<string>, d: string)
    requires d in all && d in left
    ensures Unrejected(m, all, left - {d}, platforms)
            == Unrejected(m, all, left, platforms) - if HasPlatform(platforms, all[d].platform) then {} else {d}
  {}

  /** The loop that deletes rejected images and their attestations; not `ok` is its nil dereference. */
  method Reject(
    all: map<string, Descriptor>, keyed: map<string, Descriptor>, platforms: seq<string>)
    returns (ok: bool, images: map<string, Descriptor>, attestations: map<string, Descriptor>)
    ensures ok <==> platforms == [] || forall d :: d in all ==> all[d].platform.Some?
    ensures ok ==>
              images == map d | d in all && (platforms == [] || all[d].platform.value in platforms) :: all[d]
    ensures ok ==>
              attestations
              == map d | d in keyed && (d in all ==> platforms == [] || all[d].platform.value in platforms) :: keyed[d]
  {
    images, attestations := all, keyed;
    var left := all.Keys;
    while left != {}
      invariant left <= all.Keys
      invariant images == Unrejected(all, all, left, platforms)
      invariant attestations == Unrejected(keyed, all, left, platforms)
      invariant forall d :: d in all && d !in left ==> !Dereferences(platforms, all[d].platform)
      decreases left
    {
      var digest :| digest in left;
      UnrejectedStep(all, all, left, platforms, digest);
      UnrejectedStep(keyed, all, left, platforms, digest);
      left := left - {digest};
      if Dereferences(platforms, images[digest].platform) {
        return false, images, attestations;
      }
      if !HasPlatform(platforms, images[digest].platform) {
        images := images - {digest};
        attestations := attestations - {digest};
      }
    }
    ok := true;
  }

  /** The loop that puts images and their attestations together again. */
  method Rebuild(images: map<string, Descriptor>, attestations: map<string, Descriptor>)
    returns (result: seq<Descriptor>, ghost order: seq<string>)
    ensures NoDuplicates(order) && forall d :: d in order <==> d in images
    ensures result == Emit(order, images, attestations)
  {
    result, order := [], [];
    var left := images.Keys;
    while left != {}
      invariant left <= images.Keys
      invariant NoDuplicates(order) && forall d :: d in order <==> d in images.Keys - left
      invariant result == Emit(order, images, attestations)
      decreases left
    {
      var digest :| digest in left;
      assert digest !in order;
      left := left - {digest};
      EmitAppend(order, digest, images, attestations);
      order := order + [digest];
      var group := [images[digest]];
      if digest in attestations {
        group := group + [attestations[digest]];
      }
      result := result + group;
    }
  }

  /**
   `dockerFilterIndexManifest`; `None` is its nil dereference, on an image without a platform. On a bare index nothing
   changes and the extraction errors come back; otherwise they are dropped and the manifests are rebuilt from the
   accepted images.
   */
  method Filter(ms: seq<Descriptor>, platforms: seq<string>)
    returns (result: Option<seq<Descriptor>>, errs: seq<Fault>)
    ensures result == None <==> platforms != [] && LacksPlatform(ms)
    ensures result.Some? ==> IsFiltering(ms, For(platforms), result.value)
    ensures result.Some? ==> errs == if IsBare(ms) then Faults(ms) else []
  {
    var all, keyed, extractErrs := Extract(Some(ms));
    if |all| == 0 && |keyed| == 0 {
      return Some(ms), extractErrs;
    }
    var ok, images, attestations := Reject(all, keyed, platforms);
    if !ok {
      return None, [];
    }
    ghost var order;
    var manifests;
    manifests, order := Rebuild(images, attestations);
    EmitCongruent(order, images, attestations, all, keyed);
    assert IsKeptOrder(ms, For(platforms), order);
    return Some(manifests), [];
  }

  lemma {:induction false} MapsWellFormed(ms: seq<Descriptor>)
    ensures forall d :: d in Images(ms) ==> !IsAttestation(Images(ms)[d]) && Images(ms)[d].digest == d
    ensures forall d :: d in Attestations(ms) ==> IsKeyed(Attestations(ms)[d]) && Reference(Attestations(ms)[d]) == d
  {
    if ms != [] {
      MapsWellFormed(ms[..|ms| - 1]);
    }
  }

  ghost predicate WellKeyed(images: map<string, Descriptor>, attestations: map<string, Descriptor>) {
    && (forall d :: d in images ==> !IsAttestation(images[d]) && images[d].digest == d)
    && (forall d :: d in attestations ==> IsKeyed(attestations[d]) && Reference(attestations[d]) == d)
  }

  /** Where each image of the order ends up, and what follows it. */
  lemma {:induction false} EmitPlaces(
    order: seq<string>, images: map<string, Descriptor>, attestations: map<string, Descriptor>, d: string)
    returns (i: nat)
    requires d in order && d in images
    ensures i < |Emit(order, images, attestations)|
    ensures Emit(order, images, attestations)[i] == images[d]
    ensures d in attestations ==>
              && i + 1 < |Emit(order, images, attestations)|
              && Emit(order, images, attestations)[i + 1] == attestations[d]
  {
    var front, last := order[..|order| - 1], order[|order| - 1];
    assert order == front + [last];
    if d == last {
      i := |Emit(front, images, attestations)|;
    } else {
      i := EmitPlaces(front, images, attestations, d);
    }
  }

  /** Images are those of the order. */
  ghost predicate ImagesShaped(order: seq<string>, images: map<string, Descriptor>, r: seq<Descriptor>) {
    forall i :: 0 <= i < |r| && !IsAttestation(r[i]) ==>
      r[i].digest in order && r[i].digest in images && r[i] == images[r[i].digest]
  }

  /** Attestations stand right behind the images they refer to. */
  ghost predicate AttestationsShaped(attestations: map<string, Descriptor>, r: seq<Descriptor>) {
    forall i :: 0 <= i < |r| && IsAttestation(r[i]) ==>
      && i > 0 && !IsAttestation(r[i - 1]) && Reference(r[i]) == r[i - 1].digest
      && IsKeyed(r[i]) && Reference(r[i]) in attestations && r[i] == attestations[Reference(r[i])]
  }

  ghost predicate Shaped(
    order: seq<string>, images: map<string, Descriptor>, attestations: map<string, Descriptor>, r: seq<Descriptor>)
  {
    ImagesShaped(order, images, r) && AttestationsShaped(attestations, r) && DistinctImages(r)
  }

  lemma DistinctAddsImage(order: seq<string>, images: map<string, Descriptor>, r: seq<Descriptor>, d: string)
    requires ImagesShaped(order, images, r) && DistinctImages(r) && d !in order
    requires d in images && images[d].digest == d
    ensures DistinctImages(r + [images[d]])
  {}

  lemma ShapedAddsImage(
    order: seq<string>, images: map<string, Descriptor>, attestations: map<string, Descriptor>,
    r: seq<Descriptor>, d: string)
    requires Shaped(order, images, attestations, r) && d !in order
    requires d in images && !IsAttestation(images[d]) && images[d].digest == d
    ensures Shaped(order + [d], images, attestations, r + [images[d]])
  {
    DistinctAddsImage(order, images, r, d);
    assert ImagesShaped(order + [d], images, r + [images[d]]);
    assert AttestationsShaped(attestations, r + [images[d]]);
  }

  lemma DistinctAddsAttestation(r: seq<Descriptor>, a: Descriptor)
    requires DistinctImages(r) && IsAttestation(a)
    ensures DistinctImages(r + [a])
  {}

  lemma ShapedAddsAttestation(
    order: seq<string>, images: map<string, Descriptor>, attestations: map<string, Descriptor>,
    r: seq<Descriptor>, d: string)
    requires Shaped(order, images, attestations, r) && r != [] && !IsAttestation(r[|r| - 1]) && r[|r| - 1].digest == d
    requires d in attestations && IsKeyed(attestations[d]) && Reference(attestations[d]) == d
    ensures Shaped(order, images, attestations, r + [attestations[d]])
  {
    DistinctAddsAttestation(r, attestations[d]);
    assert ImagesShaped(order, images, r + [attestations[d]]);
    assert AttestationsShaped(attestations, r + [attestations[d]]);
  }

  lemma ShapedAddsGroup(
    order: seq<string>, images: map<string, Descriptor>, attestations: map<string, Descriptor>,
    r: seq<Descriptor>, d: string)
    requires Shaped(order, images, attestations, r) && d !in order && d in images
    requires WellKeyed(images, attestations)
    ensures Shaped(order + [d], images, attestations, r + Group(d, images, attestations))
  {
    ShapedAddsImage(order, images, attestations, r, d);
    if d in attestations {
      var withImage := r + [images[d]];
      assert withImage[|withImage| - 1] == images[d];
      ShapedAddsAttestation(order + [d], images, attestations, withImage, d);
      assert r + Group(d, images, attestations) == withImage + [attestations[d]];
    } else {
      assert r + Group(d, images, attestations) == r + [images[d]];
    }
  }

  /** Nothing else is emitted. */
  lemma {:induction false} EmitShaped(
    order: seq<string>, images: map<string, Descriptor>, attestations: map<string, Descriptor>)
    requires NoDuplicates(order) && forall x :: x in order ==> x in images
    requires WellKeyed(images, attestations)
    ensures Shaped(order, images, attestations, Emit(order, images, attestations))
  {
    if order != [] {
      var front, last := order[..|order| - 1], order[|order| - 1];
      assert order == front + [last];
      EmitShaped(front, images, attestations);
      ShapedAddsGroup(front, images, attestations, Emit(front, images, attestations), last);
    }
  }

  /** An index is bare when it holds nothing but attestations without a key. */
  lemma BareIff(ms: seq<Descriptor>)
    ensures IsBare(ms) <==> forall d :: d in ms ==> IsAttestation(d) && !IsKeyed(d)
  {
    if d :| d in ms && !(IsAttestation(d) && !IsKeyed(d)) {
      var i :| 0 <= i < |ms| && ms[i] == d;
      HasImageIff(ms, d.digest);
      HasAttestationIff(ms, Reference(d));
    }
    if d :| d in Images(ms) {
      var i := ImageIsLast(ms, d);
    }
    if d :| d in Attestations(ms) {
      var i := AttestationIsFirst(ms, d);
    }
  }

  /** An index of nothing but attestations without a key stays as it is. */
  lemma BareStays(ms: seq<Descriptor>, accept: Accept, r: seq<Descriptor>)
    requires IsFiltering(ms, accept, r)
    requires forall d :: d in ms ==> IsAttestation(d) && !IsKeyed(d)
    ensures r == ms
  {
    BareIff(ms);
  }

  /**
   What filtering an index leaves, whatever the iteration order: each accepted image once, the last of its digest, with
   its first attestation right behind it when it has one; and no attestation without its image.
   */
  lemma FilteringShape(ms: seq<Descriptor>, accept: Accept, r: seq<Descriptor>)
    requires IsFiltering(ms, accept, r)
    requires exists d :: d in ms && (!IsAttestation(d) || IsKeyed(d))
    ensures DistinctImages(r)
    ensures forall i :: 0 <= i < |r| && !IsAttestation(r[i]) ==>
              Kept(ms, accept, r[i].digest) && r[i] == Images(ms)[r[i].digest]
    ensures forall d :: Kept(ms, accept, d) ==>
              exists i ::
                && 0 <= i < |r| && r[i] == Images(ms)[d]
                && (d in Attestations(ms) ==> i + 1 < |r| && r[i + 1] == Attestations(ms)[d])
    ensures forall i :: 0 <= i < |r| && IsAttestation(r[i]) ==>
              && i > 0 && !IsAttestation(r[i - 1]) && Reference(r[i]) == r[i - 1].digest
              && IsKeyed(r[i]) && Reference(r[i]) in Attestations(ms) && r[i] == Attestations(ms)[Reference(r[i])]
  {
    BareIff(ms);
    var order :| IsKeptOrder(ms, accept, order) && r == Emit(order, Images(ms), Attestations(ms));
    MapsWellFormed(ms);
    EmitShaped(order, Images(ms), Attestations(ms));
    forall d | Kept(ms, accept, d)
      ensures exists i ::
                && 0 <= i < |r| && r[i] == Images(ms)[d]
                && (d in Attestations(ms) ==> i + 1 < |r| && r[i + 1] == Attestations(ms)[d])
    {
      var i := EmitPlaces(order, Images(ms), Attestations(ms), d);
    }
  }

  /** Filtering invents nothing. */
  lemma FilteringSubset(ms: seq<Descriptor>, accept: Accept, r: seq<Descriptor>)
    requires IsFiltering(ms, accept, r)
    ensures forall d :: d in r ==> d in ms
  {
    if !IsBare(ms) {
      BareIff(ms);
      FilteringShape(ms, accept, r);
      forall i | 0 <= i < |r| ensures r[i] in ms {
        if IsAttestation(r[i]) {
          var k := AttestationIsFirst(ms, Reference(r[i]));
        } else {
          var k := ImageIsLast(ms, r[i].digest);
        }
      }
    }
  }

  /** Only listed platforms are kept. */
  lemma OnlyListedKept(ms: seq<Descriptor>, platforms: seq<string>, kept: seq<Descriptor>)
    requires IsFiltering(ms, For(platforms), kept) && platforms != []
    ensures forall d :: d in kept && !IsAttestation(d) ==> d.platform.Some? && d.platform.value in platforms
  {
    BareIff(ms);
    if !IsBare(ms) {
      FilteringShape(ms, For(platforms), kept);
    }
  }

  /** The last image of a digest is the one extraction finds. */
  lemma LastImageFound(ms: seq<Descriptor>, i: nat)
    requires i < |ms| && !IsAttestation(ms[i])
    requires forall j :: i < j < |ms| && ms[j].digest == ms[i].digest ==> IsAttestation(ms[j])
    ensures ms[i].digest in Images(ms) && Images(ms)[ms[i].digest] == ms[i]
  {
    HasImageIff(ms, ms[i].digest);
    var k := ImageIsLast(ms, ms[i].digest);
    assert k == i;
  }

  /** The last image of a digest is kept exactly when there is no platform list, or its platform is on it. */
  lemma KeptIffListed(ms: seq<Descriptor>, platforms: seq<string>, kept: seq<Descriptor>, i: nat)
    requires IsFiltering(ms, For(platforms), kept) && i < |ms| && !IsAttestation(ms[i])
    requires forall j :: i < j < |ms| && ms[j].digest == ms[i].digest ==> IsAttestation(ms[j])
    ensures ms[i] in kept <==> platforms == [] || (ms[i].platform.Some? && ms[i].platform.value in platforms)
  {
    LastImageFound(ms, i);
    assert ms[i] in ms;
    FilteringShape(ms, For(platforms), kept);
    if Kept(ms, For(platforms), ms[i].digest) {
      var k :| 0 <= k < |kept| && kept[k] == Images(ms)[ms[i].digest];
    }
  }

  // ---------- filtering twice ----------

  lemma {:induction false} EmitSplit(
    a: seq<string>, b: seq<string>, images: map<string, Descriptor>, attestations: map<string, Descriptor>)
    ensures Emit(a + b, images, attestations) == Emit(a, images, attestations) + Emit(b, images, attestations)
  {
    if b == [] {
      assert a + b == a;
    } else {
      var front, last := b[..|b| - 1], b[|b| - 1];
      SplitLast(a, b);
      EmitSplit(a, front, images, attestations);
      EmitAppend(a + front, last, images, attestations);
      EmitAppend(front, last, images, attestations);
      Regroup(Emit(a, images, attestations), Emit(front, images, attestations), Group(last, images, attestations));
    }
  }

  /** Two orders of the same digests emit the same multiset. */
  lemma {:induction false} EmitPermutes(
    a: seq<string>, b: seq<string>, images: map<string, Descriptor>, attestations: map<string, Descriptor>)
    requires NoDuplicates(a) && NoDuplicates(b) && SameMembers(a, b)
    ensures multiset(Emit(a, images, attestations)) == multiset(Emit(b, images, attestations))
  {
    if a == [] {
      EmptyIffNone(a);
      EmptyIffNone(b);
    } else {
      var pre, post := TakeOut(a, b);
      var front, last := a[..|a| - 1], a[|a| - 1];
      EmitPermutes(front, pre + post, images, attestations);
      MoveLast(front, pre, last, post, images, attestations);
    }
  }

  /** The last element of one sequence, taken out of another sequence of the same elements. */
  lemma TakeOut(a: seq<string>, b: seq<string>) returns (pre: seq<string>, post: seq<string>)
    requires a != [] && NoDuplicates(a) && NoDuplicates(b) && SameMembers(a, b)
    ensures a == a[..|a| - 1] + [a[|a| - 1]] && b == pre + [a[|a| - 1]] + post
    ensures NoDuplicates(a[..|a| - 1]) && NoDuplicates(pre + post)
    ensures SameMembers(a[..|a| - 1], pre + post)
  {
    var front, last := a[..|a| - 1], a[|a| - 1];
    assert a == front + [last];
    assert last in a;
    var k :| 0 <= k < |b| && b[k] == last;
    pre, post := b[..k], b[k + 1..];
    RemoveKeepsOthers(front, last, b, k);
  }

  ghost predicate SameMembers(a: seq<string>, b: seq<string>) {
    forall d :: d in a <==> d in b
  }

  lemma MoveLast(
    front: seq<string>, pre: seq<string>, d: string, post: seq<string>,
    images: map<string, Descriptor>, attestations: map<string, Descriptor>)
    requires multiset(Emit(front, images, attestations)) == multiset(Emit(pre + post, images, attestations))
    ensures multiset(Emit(front + [d], images, attestations)) == multiset(Emit(pre + [d] + post, images, attestations))
  {
    EmitAppend(front, d, images, attestations);
    EmitSplit(pre + [d], post, images, attestations);
    EmitAppend(pre, d, images, attestations);
    EmitSplit(pre, post, images, attestations);
  }

  lemma RemoveKeepsOthers(front: seq<string>, last: string, b: seq<string>, k: nat)
    requires k < |b| && b[k] == last
    requires NoDuplicates(front + [last]) && NoDuplicates(b) && forall d :: d in front + [last] <==> d in b
    ensures NoDuplicates(front)
    ensures NoDuplicates(b[..k] + b[k + 1..])
    ensures SameMembers(front, b[..k] + b[k + 1..])
  {
    var a, rest := front + [last], b[..k] + b[k + 1..];
    assert forall i :: 0 <= i < |front| ==> a[i] == front[i];
    assert forall i :: 0 <= i < |rest| ==> rest[i] == b[if i < k then i else i + 1];
    forall d ensures d in rest <==> d in b && d != last {
      if d in b && d != last {
        var i :| 0 <= i < |b| && b[i] == d;
        assert rest[if i < k then i else i - 1] == d;
      }
    }
    assert a[|front|] == last;
    forall d ensures d in front <==> d in a && d != last {}
  }

  lemma ExtractAppend(ms: seq<Descriptor>, d: Descriptor)
    ensures Images(ms + [d]) == if IsAttestation(d) then Images(ms) else Images(ms)[d.digest := d]
    ensures Attestations(ms + [d])
            == if IsKeyed(d) && Reference(d) !in Attestations(ms) then Attestations(ms)[Reference(d) := d]
               else Attestations(ms)
  {
    assert (ms + [d])[..|ms|] == ms;
  }

  function Only(m: map<string, Descriptor>, keys: seq<string>): map<string, Descriptor> {
    map d | d in m && d in keys :: m[d]
  }

  lemma OnlyGrows(m: map<string, Descriptor>, keys: seq<string>, d: string)
    ensures Only(m, keys + [d]) == if d in m then Only(m, keys)[d := m[d]] else Only(m, keys)
  {}

  lemma ExtractGroup(
    order: seq<string>, images: map<string, Descriptor>, attestations: map<string, Descriptor>,
    r: seq<Descriptor>, d: string)
    requires d !in order && d in images && !IsAttestation(images[d]) && images[d].digest == d
    requires d in attestations ==> IsKeyed(attestations[d]) && Reference(attestations[d]) == d
    requires Images(r) == Only(images, order) && Attestations(r) == Only(attestations, order)
    ensures Images(r + Group(d, images, attestations)) == Only(images, order + [d])
    ensures Attestations(r + Group(d, images, attestations)) == Only(attestations, order + [d])
  {
    OnlyGrows(images, order, d);
    OnlyGrows(attestations, order, d);
    assert d !in Only(attestations, order);
    var withImage := r + [images[d]];
    ExtractAppend(r, images[d]);
    if d in attestations {
      ExtractAppend(withImage, attestations[d]);
      assert r + Group(d, images, attestations) == withImage + [attestations[d]];
    } else {
      assert r + Group(d, images, attestations) == withImage;
    }
  }

  /** Extracting from an emitted list gives back the maps it was emitted from, cut down to the order. */
  lemma {:induction false} ExtractEmitted(
    order: seq<string>, images: map<string, Descriptor>, attestations: map<string, Descriptor>)
    requires NoDuplicates(order) && forall x :: x in order ==> x in images
    requires WellKeyed(images, attestations)
    ensures Images(Emit(order, images, attestations)) == Only(images, order)
    ensures Attestations(Emit(order, images, attestations)) == Only(attestations, order)
  {
    if order != [] {
      var front, last := order[..|order| - 1], order[|order| - 1];
      assert order == front + [last];
      ExtractEmitted(front, images, attestations);
      ExtractGroup(front, images, attestations, Emit(front, images, attestations), last);
    }
  }

  /** The images and attestations a filtering keeps, read off its result. */
  lemma FilteredMaps(ms: seq<Descriptor>, accept: Accept, r: seq<Descriptor>)
    requires IsFiltering(ms, accept, r) && !IsBare(ms)
    ensures forall d :: d in Images(r) <==> Kept(ms, accept, d)
    ensures forall d :: d in Images(r) ==> Images(r)[d] == Images(ms)[d]
    ensures forall d :: d in Attestations(r) <==> Kept(ms, accept, d) && d in Attestations(ms)
    ensures forall d :: d in Attestations(r) ==> Attestations(r)[d] == Attestations(ms)[d]
    ensures IsBare(r) <==> r == []
  {
    var order :| IsKeptOrder(ms, accept, order) && r == Emit(order, Images(ms), Attestations(ms));
    MapsWellFormed(ms);
    ExtractEmitted(order, Images(ms), Attestations(ms));
    EmptyIffNone(order);
    if order != [] {
      assert order[0] in order;
      assert order[0] in Images(r);
    }
  }

  /**
   Filtering for one destination and then for another leaves the same manifests as filtering once for both, whatever
   the three iteration orders.
   */
  lemma FilterTwiceIsFilterOnce(
    ms: seq<Descriptor>, p: Accept, q: Accept, once: seq<Descriptor>, twice: seq<Descriptor>, both: seq<Descriptor>)
    requires IsFiltering(ms, p, once) && IsFiltering(once, q, twice)
    requires IsFiltering(ms, Both(p, q), both)
    ensures multiset(twice) == multiset(both)
  {
    if !IsBare(ms) {
      var pq := Both(p, q);
      FilteredMaps(ms, p, once);
      var b :| IsKeptOrder(ms, pq, b) && both == Emit(b, Images(ms), Attestations(ms));
      if IsBare(once) {
        assert forall d :: d in b ==> d in Images(once);
        EmptyIffNone(b);
      } else {
        var t :| IsKeptOrder(once, q, t) && twice == Emit(t, Images(once), Attestations(once));
        forall d ensures d in t <==> d in b {
          assert d in t <==> Kept(once, q, d);
          assert d in b <==> Kept(ms, pq, d);
        }
        EmitCongruent(t, Images(once), Attestations(once), Images(ms), Attestations(ms));
        EmitPermutes(t, b, Images(ms), Attestations(ms));
      }
    }
  }

  /** Which manifests the filter keeps does not depend on the iteration order. */
  lemma FilteringsPermute(ms: seq<Descriptor>, accept: Accept, a: seq<Descriptor>, b: seq<Descriptor>)
    requires IsFiltering(ms, accept, a) && IsFiltering(ms, accept, b)
    ensures multiset(a) == multiset(b)
  {
    if !IsBare(ms) {
      var p :| IsKeptOrder(ms, accept, p) && a == Emit(p, Images(ms), Attestations(ms));
      var q :| IsKeptOrder(ms, accept, q) && b == Emit(q, Images(ms), Attestations(ms));
      assert SameMembers(p, q);
      EmitPermutes(p, q, Images(ms), Attestations(ms));
    }
  }

  /** In particular filtering again for the same destination changes nothing but the order. */
  lemma FilterIsIdempotent(ms: seq<Descriptor>, p: Accept, once: seq<Descriptor>, twice: seq<Descriptor>)
    requires IsFiltering(ms, p, once) && IsFiltering(once, p, twice)
    ensures multiset(twice) == multiset(once)
  {
    var both := Both(p, p);
    forall d ensures Kept(ms, p, d) <==> Kept(ms, both, d) {}
    if !IsBare(ms) {
      var order :| IsKeptOrder(ms, p, order) && once == Emit(order, Images(ms), Attestations(ms));
      assert IsKeptOrder(ms, both, order);
    }
    FilterTwiceIsFilterOnce(ms, p, p, once, twice, once);
  }

  // ---------- rebuilding ----------

  /** A tarball read back: its image, the digest it has when compressed again, its platform. */
  datatype Container = Container(image: string, digest: string, platform: Option<string>)

  datatype Entry = Entry(image: string, digest: string, platform: Option<string>, annotations: map<string, string>)

  /** Annotations of a descriptor in the rebuilt index: a known reference is replaced by its new digest. */
  function Rewritten(d: Descriptor, containers: map<string, Container>): map<string, string> {
    if IsAttestation(d) && REFERENCE_DIGEST in d.annotations && d.annotations[REFERENCE_DIGEST] in containers then
      d.annotations[REFERENCE_DIGEST := containers[d.annotations[REFERENCE_DIGEST]].digest]
    else d.annotations
  }

  /** The rebuilt index: one entry per descriptor, with its container and its annotations rewritten. */
  ghost predicate IsBuilt(kept: seq<Descriptor>, containers: map<string, Container>, entries: seq<Entry>) {
    && (forall d :: d in kept ==> d.digest in containers)
    && |entries| == |kept|
    && forall i :: 0 <= i < |kept| ==>
         var c := containers[kept[i].digest];
         entries[i] == Entry(c.image, c.digest, c.platform, Rewritten(kept[i], containers))
  }

  /** The last loop of `dockerPrepareImage`; `None` is its nil dereference on a descriptor without a tarball. */
  method Build(kept: seq<Descriptor>, containers: map<string, Container>) returns (r: Option<seq<Entry>>)
    ensures r.Some? <==> forall d :: d in kept ==> d.digest in containers
    ensures r.Some? ==> IsBuilt(kept, containers, r.value)
  {
    var entries := [];
    for i := 0 to |kept|
      invariant |entries| == i
      invariant forall k :: 0 <= k < i ==> kept[k].digest in containers
      invariant forall k :: 0 <= k < i ==>
                  var c := containers[kept[k].digest];
                  entries[k] == Entry(c.image, c.digest, c.platform, Rewritten(kept[k], containers))
    {
      var desc := kept[i];
      var annotations := desc.annotations;
      if IsAttestation(desc) {
        if REFERENCE_DIGEST in annotations {
          if annotations[REFERENCE_DIGEST] in containers {
            annotations := annotations[REFERENCE_DIGEST := containers[annotations[REFERENCE_DIGEST]].digest];
          }
        }
      }
      if desc.digest !in containers {
        assert desc in kept;
        return None;
      }
      var container := containers[desc.digest];
      entries := entries + [Entry(container.image, container.digest, container.platform, annotations)];
    }
    return Some(entries);
  }

  /** Each entry stands for the container of its own descriptor. */
  lemma EntriesStandForContainers(
    kept: seq<Descriptor>, containers: map<string, Container>, entries: seq<Entry>, i: nat)
    requires IsBuilt(kept, containers, entries) && i < |kept|
    ensures |entries| == |kept| && kept[i].digest in containers
    ensures entries[i].image == containers[kept[i].digest].image
    ensures entries[i].digest == containers[kept[i].digest].digest
    ensures entries[i].platform == containers[kept[i].digest].platform
  {
    assert kept[i] in kept;
  }

  /**
   Referential integrity: in the index rebuilt after filtering, every attestation with a key refers to the new digest of
   the very image its original digest named, and that image is the entry before it. Everything else in its annotations,
   and all annotations of images, are as they were.
   */
  lemma ReferencesSurvive(
    ms: seq<Descriptor>, accept: Accept, kept: seq<Descriptor>, containers: map<string, Container>,
    entries: seq<Entry>, i: nat)
    requires IsFiltering(ms, accept, kept) && IsBuilt(kept, containers, entries) && i < |kept|
    ensures IsKeyed(kept[i]) ==>
              && i > 0
              && !IsAttestation(kept[i - 1])
              && kept[i - 1].digest == Reference(kept[i])
              && Reference(kept[i]) in Images(ms)
              && kept[i - 1] == Images(ms)[Reference(kept[i])]
              && entries[i].annotations == kept[i].annotations[REFERENCE_DIGEST := entries[i - 1].digest]
              && entries[i - 1].image == containers[Reference(kept[i])].image
    ensures !IsKeyed(kept[i]) && "" !in containers ==> entries[i].annotations == kept[i].annotations
    ensures !IsAttestation(kept[i]) ==> entries[i].annotations == kept[i].annotations
  {
    if IsBare(ms) {
      if IsKeyed(kept[i]) {
        HasAttestationIff(ms, Reference(kept[i]));
        assert false;
      }
    } else {
      BareIff(ms);
      FilteringShape(ms, accept, kept);
      if IsKeyed(kept[i]) {
        assert kept[i - 1] in kept;
      }
    }
  }
}
