/** Artifact evidence, its validation, and the delivery package assembled from an export snapshot. */
module Release {
  import opened Domain
  import opened Records
  import opened Documents
  import opened Png

  /** A rendered element and its box, as the renderer measured them. */
  datatype FrameElement = FrameElement(elementId: string, text: Text, fontSize: real, box: map<string, real>)

  datatype Frame = Frame(id: string, index: int, width: int, height: int, imageHash: Digest, image: seq<Byte>,
                         elements: seq<FrameElement>)

  /** A registered production; an empty profile version counts as absent. */
  datatype Production = Production(manifest: Option<Manifest>, obligations: seq<Obligation>,
                                   layout: Option<LayoutEvidence>, visual: Option<VisualObservations>,
                                   registry: seq<Contributor>, frames: seq<Frame>, index: Option<ArtifactIndex>,
                                   renderProfileVersion: string)

  // ---------------------------------------------------------------- what valid evidence is

  predicate Complete(p: Production) {
    && p.manifest.Some? && p.layout.Some? && p.visual.Some?
    && p.frames != [] && p.index.Some? && p.renderProfileVersion != ""
  }

  /** The four hashes that authorizations are bound to. */
  function CurrentHashes(p: Production): Hashes
    requires Complete(p)
  {
    Hashes(DigestOf(ManifestDoc(p.manifest.value)), DigestOf(ObligationsDoc(p.obligations)),
           DigestOf(IndexDoc(p.index.value)), DigestOf(VisualDoc(p.visual)))
  }

  predicate RecordsAgree(p: Production)
    requires Complete(p)
  {
    && p.layout.value.manifestId == p.manifest.value.id
    && p.visual.value.manifestId == p.manifest.value.id
    && p.layout.value.renderProfileVersion == p.renderProfileVersion
    && p.index.value.manifestHash == CurrentHashes(p).manifest
    && p.index.value.layoutEvidenceHash == DigestOf(LayoutDoc(p.layout))
    && p.index.value.renderProfileVersion == p.renderProfileVersion
    && |p.index.value.frames| == |p.frames|
  }

  /** Frame `i` is a PNG of its recorded positive size whose digest is recorded and indexed under its own id. */
  predicate FrameAgrees(f: Frame, indexed: IndexedFrame, i: int) {
    && f.id != "" && indexed.frameId == f.id && f.index == i
    && f.image != []
    && 0 < f.width && 0 < f.height && HasSize(f.image, f.width, f.height)
    && f.imageHash == Sha256(Bytes(f.image)) && indexed.sha256 == Sha256(Bytes(f.image))
  }

  /** Frame `i`'s id occurs on no earlier frame. */
  predicate FreshId(frames: seq<Frame>, i: nat)
    requires i < |frames|
  {
    forall j :: 0 <= j < i ==> frames[j].id != frames[i].id
  }

  predicate FramesAgree(frames: seq<Frame>, indexed: seq<IndexedFrame>)
    requires |frames| == |indexed|
  {
    forall i :: 0 <= i < |frames| ==> FreshId(frames, i) && FrameAgrees(frames[i], indexed[i], i)
  }

  predicate ValidEvidence(p: Production) {
    Complete(p) && RecordsAgree(p) && FramesAgree(p.frames, p.index.value.frames)
  }

  // ---------------------------------------------------------------- validation

  datatype EvidenceError = MissingEvidence | IntegrityError

  /** The checks on one frame, after its ids were found fresh. */
  method ValidateFrame(f: Frame, indexed: IndexedFrame, i: nat) returns (error: Option<EvidenceError>)
    requires f.id != "" && indexed.frameId != ""
    ensures error.None? <==> FrameAgrees(f, indexed, i)
    ensures error == Some(MissingEvidence) <==> indexed.frameId == f.id && f.index == i && f.image == []
  {
    if indexed.frameId != f.id {
      return Some(IntegrityError);
    }
    if f.index != i {
      return Some(IntegrityError);
    }
    if f.image == [] {
      return Some(MissingEvidence);
    }
    var valid, reason, w, h := AuditPng(f.image, None, None);
    if !valid {
      return Some(IntegrityError);
    }
    // A recorded size of zero reads as absent and equals no audited size.
    if f.width == 0 || f.height == 0 || w != f.width || h != f.height {
      return Some(IntegrityError);
    }
    var digest := Sha256(Bytes(f.image));
    if digest != f.imageHash {
      return Some(IntegrityError);
    }
    if digest != indexed.sha256 {
      return Some(IntegrityError);
    }
    return None;
  }

  function IdsBefore(frames: seq<Frame>, i: nat): set<string>
    requires i <= |frames|
  {
    if i == 0 then {} else IdsBefore(frames, i - 1) + {frames[i-1].id}
  }

  lemma {:induction false} InIdsBefore(frames: seq<Frame>, i: nat, id: string)
    requires i <= |frames|
    ensures id in IdsBefore(frames, i) <==> exists k :: 0 <= k < i && frames[k].id == id
  {
    if i > 0 {
      InIdsBefore(frames, i - 1, id);
      assert id == frames[i-1].id ==> exists k :: 0 <= k < i && frames[k].id == id;
    }
  }

  lemma FreshIffUnseen(frames: seq<Frame>, i: nat)
    requires i < |frames|
    ensures FreshId(frames, i) <==> frames[i].id !in IdsBefore(frames, i)
  {
    InIdsBefore(frames, i, frames[i].id);
  }

  /** The first `n` frames agree. */
  predicate AgreeTo(frames: seq<Frame>, indexed: seq<IndexedFrame>, n: nat)
    requires n <= |frames| == |indexed|
  {
    n == 0 || (AgreeTo(frames, indexed, n - 1) && FreshId(frames, n - 1) && FrameAgrees(frames[n-1], indexed[n-1], n - 1))
  }

  lemma {:induction false} AgreeToAt(frames: seq<Frame>, indexed: seq<IndexedFrame>, n: nat, i: nat)
    requires i < n <= |frames| == |indexed| && AgreeTo(frames, indexed, n)
    ensures FreshId(frames, i) && FrameAgrees(frames[i], indexed[i], i)
    decreases n
  {
    if i < n - 1 {
      AgreeToAt(frames, indexed, n - 1, i);
    }
  }

  lemma AgreeToAll(frames: seq<Frame>, indexed: seq<IndexedFrame>)
    requires |frames| == |indexed| && AgreeTo(frames, indexed, |frames|)
    ensures FramesAgree(frames, indexed)
  {
    forall i: nat | i < |frames| ensures FreshId(frames, i) && FrameAgrees(frames[i], indexed[i], i) {
      AgreeToAt(frames, indexed, |frames|, i);
    }
  }

  /** All is well up to the image of frame `i`, which is absent. */
  predicate LacksImage(frames: seq<Frame>, indexed: seq<IndexedFrame>, i: nat)
    requires i < |frames| == |indexed|
  {
    var f := frames[i];
    FreshId(frames, i) && f.id != "" && indexed[i].frameId == f.id && f.index == i && f.image == []
  }

  /** The first frame that does not agree lacks its image. */
  ghost predicate MissingImage(frames: seq<Frame>, indexed: seq<IndexedFrame>)
    requires |frames| == |indexed|
  {
    exists i :: 0 <= i < |frames| && AgreeTo(frames, indexed, i) && LacksImage(frames, indexed, i)
  }

  /** Evidence is missing, rather than broken. */
  ghost predicate LacksEvidence(p: Production) {
    !Complete(p) || (RecordsAgree(p) && MissingImage(p.frames, p.index.value.frames))
  }

  /** The first failing frame decides. */
  lemma FirstFailureDecides(frames: seq<Frame>, indexed: seq<IndexedFrame>, i: nat)
    requires i < |frames| == |indexed| && AgreeTo(frames, indexed, i)
    requires !(FreshId(frames, i) && FrameAgrees(frames[i], indexed[i], i))
    ensures MissingImage(frames, indexed) <==> LacksImage(frames, indexed, i)
    ensures !FramesAgree(frames, indexed)
  {
    forall j: nat | j < |frames| && AgreeTo(frames, indexed, j) && LacksImage(frames, indexed, j) ensures j == i {
      if j < i {
        AgreeToAt(frames, indexed, i, j);
      } else if i < j {
        AgreeToAt(frames, indexed, j, i);
      }
    }
  }

  lemma AgreeingLackNothing(frames: seq<Frame>, indexed: seq<IndexedFrame>)
    requires |frames| == |indexed| && FramesAgree(frames, indexed)
    ensures !MissingImage(frames, indexed)
  {
  }

  ghost predicate ValidSoFar(frames: seq<Frame>, indexed: seq<IndexedFrame>, i: nat, seenIds: set<string>,
                             seenIndexIds: set<string>)
    requires |frames| == |indexed|
  {
    i <= |frames| && seenIds == seenIndexIds == IdsBefore(frames, i) && AgreeTo(frames, indexed, i)
  }

  /** The checks on the next frame; ids are noted once they were found fresh. */
  method ValidateNext(frames: seq<Frame>, indexed: seq<IndexedFrame>, i: nat, seenIds: set<string>,
                      seenIndexIds: set<string>)
    returns (error: Option<EvidenceError>, seenIds': set<string>, seenIndexIds': set<string>)
    requires i < |frames| == |indexed| && ValidSoFar(frames, indexed, i, seenIds, seenIndexIds)
    ensures error.None? ==> ValidSoFar(frames, indexed, i + 1, seenIds', seenIndexIds')
    ensures error.Some? ==> !(FreshId(frames, i) && FrameAgrees(frames[i], indexed[i], i))
    ensures error == Some(MissingEvidence) <==> LacksImage(frames, indexed, i)
  {
    var (frame, entry) := (frames[i], indexed[i]);
    seenIds', seenIndexIds' := seenIds, seenIndexIds;
    if frame.id == "" {
      return Some(IntegrityError), seenIds', seenIndexIds';
    }
    FreshIffUnseen(frames, i);
    if frame.id in seenIds {
      return Some(IntegrityError), seenIds', seenIndexIds';
    }
    seenIds' := seenIds + {frame.id};
    if entry.frameId == "" {
      return Some(IntegrityError), seenIds', seenIndexIds';
    }
    if entry.frameId in seenIndexIds {
      return Some(IntegrityError), seenIds', seenIndexIds';
    }
    seenIndexIds' := seenIndexIds + {entry.frameId};
    error := ValidateFrame(frame, entry, i);
  }

  method ValidateFrames(frames: seq<Frame>, indexed: seq<IndexedFrame>) returns (error: Option<EvidenceError>)
    requires |frames| == |indexed|
    ensures error.None? <==> FramesAgree(frames, indexed)
    ensures error == Some(MissingEvidence) <==> MissingImage(frames, indexed)
  {
    var seenIds: set<string> := {};
    var seenIndexIds: set<string> := {};
    for i := 0 to |frames|
      invariant ValidSoFar(frames, indexed, i, seenIds, seenIndexIds)
    {
      error, seenIds, seenIndexIds := ValidateNext(frames, indexed, i, seenIds, seenIndexIds);
      if error.Some? {
        FirstFailureDecides(frames, indexed, i);
        return;
      }
    }
    AgreeToAll(frames, indexed);
    AgreeingLackNothing(frames, indexed);
    return None;
  }

  method ValidateArtifactEvidence(p: Production) returns (r: Result<Hashes, EvidenceError>)
    ensures r.Ok? <==> ValidEvidence(p)
    ensures r.Ok? ==> r.value == CurrentHashes(p)
    ensures r == Err(MissingEvidence) <==> LacksEvidence(p)
  {
    if p.manifest.None? || p.layout.None? || p.visual.None? || p.frames == [] || p.index.None?
       || p.renderProfileVersion == "" {
      return Err(MissingEvidence);
    }
    var (manifest, layout, visual, index) := (p.manifest.value, p.layout.value, p.visual.value, p.index.value);
    if layout.manifestId != manifest.id || visual.manifestId != manifest.id {
      return Err(IntegrityError);
    }
    if layout.renderProfileVersion != p.renderProfileVersion {
      return Err(IntegrityError);
    }
    var hashes := Hashes(DigestOf(ManifestDoc(manifest)), DigestOf(ObligationsDoc(p.obligations)),
                         DigestOf(IndexDoc(index)), DigestOf(VisualDoc(p.visual)));
    var layoutHash := DigestOf(LayoutDoc(p.layout));
    if index.manifestHash != hashes.manifest || index.layoutEvidenceHash != layoutHash {
      return Err(IntegrityError);
    }
    if index.renderProfileVersion != p.renderProfileVersion || |index.frames| != |p.frames| {
      return Err(IntegrityError);
    }
    var error := ValidateFrames(p.frames, index.frames);
    return if error.Some? then Err(error.value) else Ok(hashes);
  }

  // ---------------------------------------------------------------- evidence builders

  method BuildArtifactIndex(manifestHash: Digest, renderProfileVersion: string, frames: seq<Frame>,
                            layoutEvidenceHash: Digest) returns (index: ArtifactIndex)
    ensures index == ArtifactIndex(manifestHash, renderProfileVersion, IndexedFrames(frames), layoutEvidenceHash)
  {
    var list: seq<IndexedFrame> := [];
    for i := 0 to |frames|
      invariant |list| == i
      invariant forall k :: 0 <= k < i ==> list[k] == IndexedFrame(frames[k].id, frames[k].imageHash)
    {
      list := list + [IndexedFrame(frames[i].id, frames[i].imageHash)];
    }
    index := ArtifactIndex(manifestHash, renderProfileVersion, list, layoutEvidenceHash);
  }

  /** A frame as a renderer leaves it: a PNG of its recorded size under its own digest. */
  predicate Rendered(f: Frame, i: int) {
    && f.id != "" && f.index == i && f.image != []
    && 0 < f.width && 0 < f.height && HasSize(f.image, f.width, f.height)
    && f.imageHash == Sha256(Bytes(f.image))
  }

  function IndexedFrames(frames: seq<Frame>): (r: seq<IndexedFrame>)
    ensures |r| == |frames| && forall i :: 0 <= i < |frames| ==> r[i] == IndexedFrame(frames[i].id, frames[i].imageHash)
  {
    seq(|frames|, i requires 0 <= i < |frames| => IndexedFrame(frames[i].id, frames[i].imageHash))
  }

  /** The index that is built for a production's own frames, manifest and layout. */
  function OwnIndex(p: Production): ArtifactIndex
    requires Complete(p)
  {
    ArtifactIndex(DigestOf(ManifestDoc(p.manifest.value)), p.renderProfileVersion, IndexedFrames(p.frames),
                  DigestOf(LayoutDoc(p.layout)))
  }

  /** Evidence is valid exactly when its parts are about one manifest and profile, its frames are rendered under distinct
      ids, and its index is the very one that would be built from them: an index leaves no freedom. */
  lemma ValidIffOwnIndex(p: Production)
    requires Complete(p)
    ensures ValidEvidence(p) <==>
            && p.layout.value.manifestId == p.manifest.value.id && p.visual.value.manifestId == p.manifest.value.id
            && p.layout.value.renderProfileVersion == p.renderProfileVersion
            && p.index.value == OwnIndex(p)
            && forall i :: 0 <= i < |p.frames| ==> FreshId(p.frames, i) && Rendered(p.frames[i], i)
  {
    var (frames, indexed) := (p.frames, p.index.value.frames);
    if |indexed| == |frames| {
      forall i | 0 <= i < |frames|
        ensures FrameAgrees(frames[i], indexed[i], i) <==>
                Rendered(frames[i], i) && indexed[i] == IndexedFrame(frames[i].id, frames[i].imageHash)
      {
      }
      assert indexed == IndexedFrames(frames) <==>
             forall i :: 0 <= i < |frames| ==> indexed[i] == IndexedFrame(frames[i].id, frames[i].imageHash);
    }
  }

  /** What export hands to the assembler: the production and the outcome of its evaluation. */
  datatype Snapshot = Snapshot(productionId: string, production: Production, authorizations: seq<Authorization>,
                               proposals: seq<Proposal>, bindings: map<string, string>, openIssues: seq<Issue>,
                               gate: GateState)

  function BuildReleaseEvidence(s: Snapshot): ReleaseEvidence
    requires Complete(s.production)
  {
    var p := s.production;
    ReleaseEvidence(CurrentHashes(p), p.index.value.renderProfileVersion, p.index.value.frames,
                    DigestOf(LayoutDoc(p.layout)), DigestOf(FindingsDoc(s.openIssues)), s.bindings,
                    s.authorizations, s.proposals, s.gate, s.openIssues)
  }

  // ---------------------------------------------------------------- package members

  datatype Kind =
    | BUNDLE_INDEX | MANIFEST | OBLIGATIONS | LAYOUT_EVIDENCE | VISUAL_OBSERVATIONS | CONTRIBUTOR_REGISTRY
    | AUTHORIZATIONS | PROPOSALS | ARTIFACT_INDEX | DETERMINISTIC_FINDINGS | RELEASE_EVIDENCE

  /** Every JSON file but the bundle index, which lists the others. */
  const LISTED := {MANIFEST, OBLIGATIONS, LAYOUT_EVIDENCE, VISUAL_OBSERVATIONS, CONTRIBUTOR_REGISTRY, AUTHORIZATIONS,
                   PROPOSALS, ARTIFACT_INDEX, DETERMINISTIC_FINDINGS, RELEASE_EVIDENCE}

  function Stem(k: Kind): string {
    match k
    case BUNDLE_INDEX => "bundle_index"
    case MANIFEST => "manifest"
    case OBLIGATIONS => "obligations"
    case LAYOUT_EVIDENCE => "layout_evidence"
    case VISUAL_OBSERVATIONS => "visual_observations"
    case CONTRIBUTOR_REGISTRY => "contributor_registry"
    case AUTHORIZATIONS => "authorizations"
    case PROPOSALS => "proposals"
    case ARTIFACT_INDEX => "artifact_index"
    case DETERMINISTIC_FINDINGS => "deterministic_findings"
    case RELEASE_EVIDENCE => "release_evidence"
  }

  function FileName(k: Kind): string {
    Stem(k) + ".json"
  }

  function FramePath(id: string): string {
    "frames/" + id + ".png"
  }

  lemma FileNamesDiffer(a: Kind, b: Kind)
    requires FileName(a) == FileName(b)
    ensures a == b
  {
    assert |FileName(a)| == |FileName(b)|;
    assert FileName(a)[1] == FileName(b)[1];
  }

  lemma FramePathIsNoFileName(id: string, k: Kind)
    ensures FramePath(id) != FileName(k)
  {
    assert FramePath(id)[0] == 'f';
    assert FileName(k)[0] != 'f';
  }

  lemma FramePathInjective(a: string, b: string)
    requires FramePath(a) == FramePath(b)
    ensures a == b
  {
    assert a == FramePath(a)[7..|FramePath(a)|-4];
    assert b == FramePath(b)[7..|FramePath(b)|-4];
  }
}
