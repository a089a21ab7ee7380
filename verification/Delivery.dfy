/** The delivery package: a map from member names to contents. */
module Delivery {
  import opened Domain
  import opened Records
  import opened Documents
  import opened Release

  datatype Package = Package(members: map<string, Blob>, releaseDigest: Digest)

  /** What the snapshot puts into a listed JSON file. */
  function DocumentOf(s: Snapshot, k: Kind): Document
    requires Complete(s.production) && k in LISTED
  {
    match k
    case MANIFEST => ManifestDoc(s.production.manifest.value)
    case OBLIGATIONS => ObligationsDoc(s.production.obligations)
    case LAYOUT_EVIDENCE => LayoutDoc(s.production.layout)
    case VISUAL_OBSERVATIONS => VisualDoc(s.production.visual)
    case CONTRIBUTOR_REGISTRY => RegistryDoc(s.production.registry)
    case AUTHORIZATIONS => AuthorizationsDoc(s.authorizations)
    case PROPOSALS => ProposalsDoc(s.proposals)
    case ARTIFACT_INDEX => IndexDoc(s.production.index.value)
    case DETERMINISTIC_FINDINGS => FindingsDoc(s.openIssues)
    case RELEASE_EVIDENCE => ReleaseDoc(BuildReleaseEvidence(s))
  }

  function Content(s: Snapshot, k: Kind): Blob
    requires Complete(s.production) && k in LISTED
  {
    CanonicalBytes(DocumentOf(s, k))
  }

  const KINDS := [MANIFEST, OBLIGATIONS, LAYOUT_EVIDENCE, VISUAL_OBSERVATIONS, CONTRIBUTOR_REGISTRY, AUTHORIZATIONS,
                  PROPOSALS, ARTIFACT_INDEX, DETERMINISTIC_FINDINGS, RELEASE_EVIDENCE]

  function DocumentNames(): seq<string> {
    Map(KINDS, FileName)
  }

  function DocumentContents(s: Snapshot): (r: seq<Blob>)
    requires Complete(s.production)
    ensures |r| == |KINDS| && forall j :: 0 <= j < |KINDS| ==> r[j] == Content(s, KINDS[j])
  {
    seq(|KINDS|, j requires 0 <= j < |KINDS| => Content(s, KINDS[j]))
  }

  function FramePaths(frames: seq<Frame>): seq<string> {
    Map(frames, (f: Frame) => FramePath(f.id))
  }

  function FrameContents(frames: seq<Frame>): seq<Blob> {
    Map(frames, (f: Frame) => Bytes(f.image))
  }

  // ---------------------------------------------------------------- named files

  /** A dictionary filled from names and contents in order. */
  function Filed(names: seq<string>, contents: seq<Blob>): map<string, Blob>
    requires |names| == |contents|
  {
    if names == [] then map[]
    else Filed(names[..|names|-1], contents[..|contents|-1])[names[|names|-1] := contents[|contents|-1]]
  }

  predicate AllDiffer(names: seq<string>) {
    forall i, j :: 0 <= i < j < |names| ==> names[i] != names[j]
  }

  lemma {:induction false} FiledNames(names: seq<string>, contents: seq<Blob>, n: string)
    requires |names| == |contents|
    ensures n in Filed(names, contents) <==> n in names
  {
    if names != [] {
      FiledNames(names[..|names|-1], contents[..|contents|-1], n);
      assert names == names[..|names|-1] + [names[|names|-1]];
    }
  }

  lemma {:induction false} FiledAt(names: seq<string>, contents: seq<Blob>, i: nat)
    requires |names| == |contents| && AllDiffer(names) && i < |names|
    ensures names[i] in Filed(names, contents) && Filed(names, contents)[names[i]] == contents[i]
  {
    if i < |names| - 1 {
      FiledAt(names[..|names|-1], contents[..|contents|-1], i);
    }
  }

  lemma BothDiffer(a: seq<string>, b: seq<string>)
    requires AllDiffer(a) && AllDiffer(b) && forall x, y :: x in a && y in b ==> x != y
    ensures AllDiffer(a + b)
  {
    var c := a + b;
    forall i, j | 0 <= i < j < |c| ensures c[i] != c[j] {
      if i < |a| && |a| <= j {
        assert a[i] in a && b[j-|a|] in b;
      }
    }
  }

  // ---------------------------------------------------------------- the package

  function Names(s: Snapshot): seq<string> {
    DocumentNames() + FramePaths(s.production.frames)
  }

  function Contents(s: Snapshot): (r: seq<Blob>)
    requires Complete(s.production)
    ensures |r| == |Names(s)|
  {
    DocumentContents(s) + FrameContents(s.production.frames)
  }

  function Files(s: Snapshot): map<string, Blob>
    requires Complete(s.production)
  {
    Filed(Names(s), Contents(s))
  }

  function Digests(files: map<string, Blob>): map<string, Digest> {
    map n | n in files :: Sha256(files[n])
  }

  function BundleFor(s: Snapshot, declared: map<string, Digest>): BundleIndex
    requires Complete(s.production)
  {
    BundleIndex(s.productionId, s.production.manifest.value.deliveryVersionId, CurrentHashes(s.production),
                DigestOf(AuthorizationsDoc(s.authorizations)), DigestOf(ReleaseDoc(BuildReleaseEvidence(s))),
                s.gate, declared)
  }

  /** The package of a snapshot: its files, and a bundle index with the digest of every one of them. */
  function PackageOf(s: Snapshot): Package
    requires Complete(s.production)
  {
    Package(Files(s)[FileName(BUNDLE_INDEX) := CanonicalBytes(BundleDoc(BundleFor(s, Digests(Files(s)))))],
            Sha256(Content(s, RELEASE_EVIDENCE)))
  }

  /** The position of a listed kind in KINDS. */
  function Place(k: Kind): nat {
    match k
    case MANIFEST => 0
    case OBLIGATIONS => 1
    case LAYOUT_EVIDENCE => 2
    case VISUAL_OBSERVATIONS => 3
    case CONTRIBUTOR_REGISTRY => 4
    case AUTHORIZATIONS => 5
    case PROPOSALS => 6
    case ARTIFACT_INDEX => 7
    case DETERMINISTIC_FINDINGS => 8
    case RELEASE_EVIDENCE => 9
    case BUNDLE_INDEX => 10
  }

  lemma PlaceOfKind(i: nat)
    ensures i < |KINDS| ==> Place(KINDS[i]) == i
  {
  }

  lemma DocumentNamesDiffer()
    ensures AllDiffer(DocumentNames())
  {
    forall i, j | 0 <= i < j < |KINDS| ensures DocumentNames()[i] != DocumentNames()[j] {
      PlaceOfKind(i);
      PlaceOfKind(j);
      NamesOfKindsDiffer(KINDS[i], KINDS[j]);
    }
  }

  lemma NamesOfKindsDiffer(a: Kind, b: Kind)
    ensures a != b ==> FileName(a) != FileName(b)
  {
    if FileName(a) == FileName(b) {
      FileNamesDiffer(a, b);
    }
  }

  lemma FramePathsDiffer(frames: seq<Frame>)
    requires forall i :: 0 <= i < |frames| ==> FreshId(frames, i)
    ensures AllDiffer(FramePaths(frames))
  {
    forall i, j | 0 <= i < j < |frames| ensures FramePath(frames[i].id) != FramePath(frames[j].id) {
      assert FreshId(frames, j);
      if FramePath(frames[i].id) == FramePath(frames[j].id) {
        FramePathInjective(frames[i].id, frames[j].id);
      }
    }
  }

  lemma NamesDiffer(s: Snapshot)
    requires ValidEvidence(s.production)
    ensures AllDiffer(Names(s))
  {
    var frames := s.production.frames;
    DocumentNamesDiffer();
    FramePathsDiffer(frames);
    forall x, y | x in DocumentNames() && y in FramePaths(frames) ensures x != y {
      var i :| 0 <= i < |KINDS| && x == FileName(KINDS[i]);
      var j :| 0 <= j < |frames| && y == FramePath(frames[j].id);
      FramePathIsNoFileName(frames[j].id, KINDS[i]);
    }
    BothDiffer(DocumentNames(), FramePaths(frames));
  }

  // ---------------------------------------------------------------- the assembler

  method DeclareDigests(files: map<string, Blob>) returns (declared: map<string, Digest>)
    ensures declared == Digests(files)
  {
    declared := map[];
    var todo := files.Keys;
    while todo != {}
      invariant todo <= files.Keys
      invariant declared.Keys == files.Keys - todo
      invariant forall n :: n in declared ==> declared[n] == Sha256(files[n])
      decreases |todo|
    {
      var n :| n in todo;
      todo := todo - {n};
      declared := declared[n := Sha256(files[n])];
    }
  }

  method FileAll(names: seq<string>, contents: seq<Blob>) returns (files: map<string, Blob>)
    requires |names| == |contents|
    ensures files == Filed(names, contents)
  {
    files := map[];
    for i := 0 to |names|
      invariant files == Filed(names[..i], contents[..i])
    {
      assert names[..i+1][..i] == names[..i] && contents[..i+1][..i] == contents[..i];
      files := files[names[i] := contents[i]];
    }
    assert names[..|names|] == names && contents[..|contents|] == contents;
  }

  /** Export always supplies bindings, open issues and gate, so nothing is evaluated here. */
  method AssembleDeliveryPackage(s: Snapshot) returns (r: Result<Package, EvidenceError>)
    ensures r.Ok? <==> ValidEvidence(s.production)
    ensures r.Ok? ==> r.value == PackageOf(s)
  {
    var valid := ValidateArtifactEvidence(s.production);
    if valid.Err? {
      return Err(valid.error);
    }
    var files := FileAll(Names(s), Contents(s));
    var declared := DeclareDigests(files);
    var bundle := CanonicalBytes(BundleDoc(BundleFor(s, declared)));
    return Ok(Package(files[FileName(BUNDLE_INDEX) := bundle], Sha256(Content(s, RELEASE_EVIDENCE))));
  }

  // ---------------------------------------------------------------- what a package holds

  lemma KindAtPlace(k: Kind)
    ensures k in LISTED ==> Place(k) < |KINDS| && KINDS[Place(k)] == k
  {
  }

  lemma DocumentEntry(s: Snapshot, j: nat)
    requires Complete(s.production) && j < |KINDS|
    ensures j < |Names(s)| && Names(s)[j] == FileName(KINDS[j]) && Contents(s)[j] == Content(s, KINDS[j])
  {
  }

  /** Each listed document is in the package, and is what the snapshot says. */
  lemma HoldsDocument(s: Snapshot, k: Kind)
    requires ValidEvidence(s.production) && k in LISTED
    ensures FileName(k) in Files(s) && Files(s)[FileName(k)] == Content(s, k)
  {
    var j := Place(k);
    KindAtPlace(k);
    NamesDiffer(s);
    DocumentEntry(s, j);
    FiledAt(Names(s), Contents(s), j);
  }

  /** Each frame is in the package under its path. */
  lemma HoldsFrame(s: Snapshot, i: nat)
    requires ValidEvidence(s.production) && i < |s.production.frames|
    ensures var f := s.production.frames[i];
            FramePath(f.id) in Files(s) && Files(s)[FramePath(f.id)] == Bytes(f.image)
  {
    NamesDiffer(s);
    FrameEntry(s, i);
    FiledAt(Names(s), Contents(s), |KINDS| + i);
  }

  lemma FrameEntry(s: Snapshot, i: nat)
    requires Complete(s.production) && i < |s.production.frames|
    ensures |KINDS| + i < |Names(s)| && Names(s)[|KINDS| + i] == FramePath(s.production.frames[i].id)
    ensures Contents(s)[|KINDS| + i] == Bytes(s.production.frames[i].image)
  {
  }

  lemma NoNameIsBundleIndex(s: Snapshot, j: nat)
    requires j < |Names(s)|
    ensures (exists k :: k in LISTED && Names(s)[j] == FileName(k)) ||
            exists i :: 0 <= i < |s.production.frames| && Names(s)[j] == FramePath(s.production.frames[i].id)
    ensures Names(s)[j] != FileName(BUNDLE_INDEX)
  {
    if j < |KINDS| {
      var k := KINDS[j];
      assert k in LISTED && Names(s)[j] == FileName(k);
      if FileName(k) == FileName(BUNDLE_INDEX) {
        FileNamesDiffer(k, BUNDLE_INDEX);
      }
    } else {
      var i := j - |KINDS|;
      assert Names(s)[j] == FramePath(s.production.frames[i].id);
      FramePathIsNoFileName(s.production.frames[i].id, BUNDLE_INDEX);
    }
  }

  /** Nothing else is in the package. */
  lemma HoldsNothingElse(s: Snapshot, n: string)
    requires Complete(s.production) && n in Files(s)
    ensures (exists k :: k in LISTED && n == FileName(k)) ||
            exists i :: 0 <= i < |s.production.frames| && n == FramePath(s.production.frames[i].id)
    ensures n != FileName(BUNDLE_INDEX)
  {
    FiledNames(Names(s), Contents(s), n);
    var j :| 0 <= j < |Names(s)| && n == Names(s)[j];
    NoNameIsBundleIndex(s, j);
  }
}
