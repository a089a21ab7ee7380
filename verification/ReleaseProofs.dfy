/** Export and replay agree, and the release digest binds the release. */
module ReleaseProofs {
  import opened Domain
  import opened Gate
  import opened Records
  import opened Documents
  import opened DocumentProofs
  import opened Checker
  import opened Authority
  import opened Release
  import opened Delivery
  import opened Replay

  // ---------------------------------------------------------------- the snapshot that export hands over

  function CheckedInput(p: Production): CheckerInput
    requires Complete(p)
  {
    CheckerInput(p.obligations, p.manifest.value, p.layout, p.visual, p.registry, map[])
  }

  /** The snapshot holds the outcome of export's evaluation, folded under the production's own flags. */
  ghost predicate Evaluated(s: Snapshot, flags: ProjectionStatus) {
    && ValidEvidence(s.production)
    && var (inp, h) := (CheckedInput(s.production), CurrentHashes(s.production));
       && s.bindings == IdentityBindings(inp, s.authorizations, h)
       && s.openIssues == OpenIssues(inp, s.authorizations, h)
       && s.gate == Folded(Codes(s.openIssues), flags)
  }

  // ---------------------------------------------------------------- entry names

  predicate Plain(stem: string) {
    '.' !in stem && '\\' !in stem && stem != "" && stem[0] != '/'
  }

  lemma EvidenceStemsArePlain(k: Kind)
    ensures k in {LAYOUT_EVIDENCE, VISUAL_OBSERVATIONS, RELEASE_EVIDENCE} ==> Plain(Stem(k))
  {
    assert Plain("layout_evidence") && Plain("visual_observations") && Plain("release_evidence");
  }

  lemma DerivedStemsArePlain(k: Kind)
    ensures k in {CONTRIBUTOR_REGISTRY, DETERMINISTIC_FINDINGS, ARTIFACT_INDEX} ==> Plain(Stem(k))
  {
    assert Plain("contributor_registry") && Plain("deterministic_findings") && Plain("artifact_index");
  }

  lemma StemsArePlain(k: Kind)
    ensures Plain(Stem(k))
  {
    match k
    case BUNDLE_INDEX => assert Plain("bundle_index");
    case MANIFEST => assert Plain("manifest");
    case OBLIGATIONS => assert Plain("obligations");
    case AUTHORIZATIONS => assert Plain("authorizations");
    case PROPOSALS => assert Plain("proposals");
    case _ =>
      EvidenceStemsArePlain(k);
      DerivedStemsArePlain(k);
  }

  lemma PlainIsSafe(stem: string)
    requires Plain(stem)
    ensures SafeName(stem + ".json")
  {
    var n := stem + ".json";
    forall i | 0 <= i < |n| - 1 ensures !(n[i] == '.' && n[i+1] == '.') {
      if i < |stem| {
        assert n[i] == stem[i];
      }
    }
    assert '\\' !in ".json";
  }

  lemma SafeFileNames(k: Kind)
    ensures SafeName(FileName(k))
  {
    StemsArePlain(k);
    PlainIsSafe(Stem(k));
  }

  /** Every frame's path passes the entry-name check. */
  predicate SafePaths(frames: seq<Frame>) {
    forall i :: 0 <= i < |frames| ==> SafeName(FramePath(frames[i].id))
  }

  // ---------------------------------------------------------------- the package is intact and parses

  /** The members of the snapshot's package, as replay looks them up. */
  ghost predicate Holds(m: map<string, Blob>, s: Snapshot)
    requires Complete(s.production)
  {
    && (forall k :: k in LISTED ==> FileName(k) in m && m[FileName(k)] == Content(s, k))
    && (forall i :: 0 <= i < |s.production.frames| ==>
          var f := s.production.frames[i]; FramePath(f.id) in m && m[FramePath(f.id)] == Bytes(f.image))
    && (forall n :: n in m ==> Known(s, n))
  }

  ghost predicate Known(s: Snapshot, n: string) {
    (exists k :: n == FileName(k)) || exists i :: 0 <= i < |s.production.frames| && n == FramePath(s.production.frames[i].id)
  }

  lemma MemberIsFile(s: Snapshot, n: string)
    requires Complete(s.production) && n in Files(s)
    ensures n in PackageOf(s).members && PackageOf(s).members[n] == Files(s)[n]
  {
    HoldsNothingElse(s, n);
  }

  lemma PackageHolds(s: Snapshot)
    requires ValidEvidence(s.production)
    ensures Holds(PackageOf(s).members, s)
  {
    forall k | k in LISTED
      ensures FileName(k) in PackageOf(s).members && PackageOf(s).members[FileName(k)] == Content(s, k)
    {
      HoldsDocument(s, k);
      MemberIsFile(s, FileName(k));
    }
    forall i | 0 <= i < |s.production.frames|
      ensures var f := s.production.frames[i];
              FramePath(f.id) in PackageOf(s).members && PackageOf(s).members[FramePath(f.id)] == Bytes(f.image)
    {
      HoldsFrame(s, i);
      MemberIsFile(s, FramePath(s.production.frames[i].id));
    }
    forall n | n in PackageOf(s).members ensures Known(s, n) {
      if n != FileName(BUNDLE_INDEX) {
        HoldsNothingElse(s, n);
      }
    }
  }

  lemma KnownIsSafe(s: Snapshot, n: string)
    requires Known(s, n) && SafePaths(s.production.frames)
    ensures SafeName(n)
  {
    if k :| n == FileName(k) {
      SafeFileNames(k);
    }
  }

  lemma SafeIff(s: Snapshot, m: map<string, Blob>)
    requires Complete(s.production) && Holds(m, s)
    ensures SafeBundle(ZipFile(m)) <==> SafePaths(s.production.frames)
  {
    if SafePaths(s.production.frames) {
      forall n | n in m ensures SafeName(n) {
        KnownIsSafe(s, n);
      }
    }
    if SafeBundle(ZipFile(m)) {
      forall i | 0 <= i < |s.production.frames| ensures SafeName(FramePath(s.production.frames[i].id)) {
        assert FramePath(s.production.frames[i].id) in m;
      }
    }
  }

  /** Every digest that the bundle index declares is the digest of the member. */
  lemma DeclaredFilesIntact(s: Snapshot)
    requires ValidEvidence(s.production)
    ensures FilesIntact(PackageOf(s).members, Digests(Files(s)))
  {
    PackageHolds(s);
    forall n | n in Files(s) ensures n in PackageOf(s).members && PackageOf(s).members[n] == Files(s)[n] {
      MemberIsFile(s, n);
    }
  }

  lemma IntactIff(m: map<string, Blob>, bundle: BundleIndex, index: BundleIndex)
    requires FileName(BUNDLE_INDEX) in m && m[FileName(BUNDLE_INDEX)] == CanonicalBytes(BundleDoc(bundle))
    requires FilesIntact(m, bundle.files)
    ensures Intact(ZipFile(m), index) <==> SafeBundle(ZipFile(m)) && index == bundle
  {
  }

  lemma DocumentIs(s: Snapshot, m: map<string, Blob>, k: Kind)
    requires Complete(s.production) && Holds(m, s) && k in LISTED
    ensures FileName(k) in m && m[FileName(k)] == CanonicalBytes(DocumentOf(s, k))
    ensures Parse(m[FileName(k)]) == Some(NfcDoc(DocumentOf(s, k)))
    ensures DigestOf(NfcDoc(DocumentOf(s, k))) == DigestOf(DocumentOf(s, k))
  {
    ReadBackIsCanonical(DocumentOf(s, k));
  }

  /** The kind of file a document is written to. */
  function KindOf(d: Document): Kind {
    match d
    case ManifestDoc(_) => MANIFEST
    case ObligationsDoc(_) => OBLIGATIONS
    case LayoutDoc(_) => LAYOUT_EVIDENCE
    case VisualDoc(_) => VISUAL_OBSERVATIONS
    case RegistryDoc(_) => CONTRIBUTOR_REGISTRY
    case AuthorizationsDoc(_) => AUTHORIZATIONS
    case ProposalsDoc(_) => PROPOSALS
    case IndexDoc(_) => ARTIFACT_INDEX
    case FindingsDoc(_) => DETERMINISTIC_FINDINGS
    case ReleaseDoc(_) => RELEASE_EVIDENCE
    case BundleDoc(_) => BUNDLE_INDEX
  }

  ghost predicate Typed(m: map<string, Blob>) {
    forall k :: k in LISTED ==>
      FileName(k) in m && Parse(m[FileName(k)]).Some? && KindOf(Parse(m[FileName(k)]).value) == k
  }

  lemma NfcKeepsKind(d: Document)
    ensures KindOf(NfcDoc(d)) == KindOf(d)
  {
  }

  lemma DocumentHasKind(s: Snapshot, k: Kind)
    requires Complete(s.production) && k in LISTED
    ensures KindOf(DocumentOf(s, k)) == k
  {
  }

  lemma PackageTyped(s: Snapshot, m: map<string, Blob>)
    requires Complete(s.production) && Holds(m, s)
    ensures Typed(m)
  {
    forall k | k in LISTED
      ensures FileName(k) in m && Parse(m[FileName(k)]).Some? && KindOf(Parse(m[FileName(k)]).value) == k
    {
      DocumentIs(s, m, k);
      DocumentHasKind(s, k);
      NfcKeepsKind(DocumentOf(s, k));
    }
  }

  lemma KindIsTag(d: Document, k: Kind)
    requires KindOf(d) == k
    ensures k == MANIFEST ==> d.ManifestDoc?
    ensures k == OBLIGATIONS ==> d.ObligationsDoc?
    ensures k == LAYOUT_EVIDENCE ==> d.LayoutDoc?
    ensures k == VISUAL_OBSERVATIONS ==> d.VisualDoc?
    ensures k == CONTRIBUTOR_REGISTRY ==> d.RegistryDoc?
    ensures k == AUTHORIZATIONS ==> d.AuthorizationsDoc?
    ensures k == PROPOSALS ==> d.ProposalsDoc?
    ensures k == ARTIFACT_INDEX ==> d.IndexDoc?
    ensures k == RELEASE_EVIDENCE ==> d.ReleaseDoc?
  {
  }

  /** A typed package parses to its parts. */
  lemma TypedParses(m: map<string, Blob>) returns (p: Parts)
    requires Typed(m)
    ensures Parses(m, p)
  {
    var doc := (k: Kind) requires k in LISTED => Parse(m[FileName(k)]).value;
    forall k | k in LISTED ensures KindOf(doc(k)) == k {
    }
    var (a, b, c, d, e) := (doc(MANIFEST), doc(OBLIGATIONS), doc(LAYOUT_EVIDENCE), doc(VISUAL_OBSERVATIONS),
                            doc(CONTRIBUTOR_REGISTRY));
    var (f, g, h, i) := (doc(AUTHORIZATIONS), doc(PROPOSALS), doc(ARTIFACT_INDEX), doc(RELEASE_EVIDENCE));
    KindIsTag(a, MANIFEST);
    KindIsTag(b, OBLIGATIONS);
    KindIsTag(c, LAYOUT_EVIDENCE);
    KindIsTag(d, VISUAL_OBSERVATIONS);
    KindIsTag(e, CONTRIBUTOR_REGISTRY);
    KindIsTag(f, AUTHORIZATIONS);
    KindIsTag(g, PROPOSALS);
    KindIsTag(h, ARTIFACT_INDEX);
    KindIsTag(i, RELEASE_EVIDENCE);
    p := Parts(a.manifest, b.obligations, c.layout, d.visual, e.registry, f.authorizations, g.proposals, h.index, i.release);
  }

  // ---------------------------------------------------------------- what the parts are

  const PARSED := LISTED - {DETERMINISTIC_FINDINGS}

  function DocIn(p: Parts, k: Kind): Document
    requires k in PARSED
  {
    match k
    case MANIFEST => ManifestDoc(p.manifest)
    case OBLIGATIONS => ObligationsDoc(p.obligations)
    case LAYOUT_EVIDENCE => LayoutDoc(p.layout)
    case VISUAL_OBSERVATIONS => VisualDoc(p.visual)
    case CONTRIBUTOR_REGISTRY => RegistryDoc(p.registry)
    case AUTHORIZATIONS => AuthorizationsDoc(p.authorizations)
    case PROPOSALS => ProposalsDoc(p.proposals)
    case ARTIFACT_INDEX => IndexDoc(p.index)
    case RELEASE_EVIDENCE => ReleaseDoc(p.release)
  }

  lemma ParsedDocument(m: map<string, Blob>, p: Parts, k: Kind)
    requires forall k :: k in LISTED ==> FileName(k) in m
    requires Parses(m, p) && k in PARSED
    ensures Parse(m[FileName(k)]) == Some(DocIn(p, k))
  {
  }

  /** The parts of the snapshot's package are its normalised documents, and have their digests. */
  ghost predicate ReadBack(p: Parts, s: Snapshot)
    requires Complete(s.production)
  {
    forall k :: k in PARSED ==>
      DocIn(p, k) == NfcDoc(DocumentOf(s, k)) && DigestOf(DocIn(p, k)) == DigestOf(DocumentOf(s, k))
  }

  lemma PartsAreReadBack(s: Snapshot, m: map<string, Blob>, p: Parts)
    requires Complete(s.production) && Holds(m, s) && Parses(m, p)
    ensures ReadBack(p, s)
  {
    forall k | k in PARSED
      ensures DocIn(p, k) == NfcDoc(DocumentOf(s, k)) && DigestOf(DocIn(p, k)) == DigestOf(DocumentOf(s, k))
    {
      ParsedDocument(m, p, k);
      DocumentIs(s, m, k);
    }
  }

  lemma HashesReadBack(s: Snapshot, p: Parts)
    requires Complete(s.production) && ReadBack(p, s)
    ensures PartsHashes(p) == CurrentHashes(s.production)
  {
    assert DigestOf(DocIn(p, MANIFEST)) == DigestOf(DocumentOf(s, MANIFEST));
    assert DigestOf(DocIn(p, OBLIGATIONS)) == DigestOf(DocumentOf(s, OBLIGATIONS));
    assert DigestOf(DocIn(p, ARTIFACT_INDEX)) == DigestOf(DocumentOf(s, ARTIFACT_INDEX));
    assert DigestOf(DocIn(p, VISUAL_OBSERVATIONS)) == DigestOf(DocumentOf(s, VISUAL_OBSERVATIONS));
  }

  lemma IndexReadBack(s: Snapshot, p: Parts)
    requires Complete(s.production) && ReadBack(p, s)
    ensures p.index == s.production.index.value
    ensures DigestOf(LayoutDoc(p.layout)) == DigestOf(LayoutDoc(s.production.layout))
  {
    assert DocIn(p, ARTIFACT_INDEX) == NfcDoc(DocumentOf(s, ARTIFACT_INDEX));
    assert DigestOf(DocIn(p, LAYOUT_EVIDENCE)) == DigestOf(DocumentOf(s, LAYOUT_EVIDENCE));
  }

  lemma ReleaseReadBack(s: Snapshot, p: Parts)
    requires Complete(s.production) && ReadBack(p, s)
    ensures p.release == NfcRelease(BuildReleaseEvidence(s))
  {
    assert DocIn(p, RELEASE_EVIDENCE) == NfcDoc(DocumentOf(s, RELEASE_EVIDENCE));
  }

  lemma InputReadBack(s: Snapshot, p: Parts)
    requires Complete(s.production) && ReadBack(p, s)
    ensures InputOf(p) == NfcInput(CheckedInput(s.production))
    ensures p.authorizations == Map(s.authorizations, NfcAuthorization)
  {
    assert DocIn(p, MANIFEST) == NfcDoc(DocumentOf(s, MANIFEST));
    assert DocIn(p, OBLIGATIONS) == NfcDoc(DocumentOf(s, OBLIGATIONS));
    assert DocIn(p, LAYOUT_EVIDENCE) == NfcDoc(DocumentOf(s, LAYOUT_EVIDENCE));
    assert DocIn(p, VISUAL_OBSERVATIONS) == NfcDoc(DocumentOf(s, VISUAL_OBSERVATIONS));
    assert DocIn(p, CONTRIBUTOR_REGISTRY) == NfcDoc(DocumentOf(s, CONTRIBUTOR_REGISTRY));
    assert DocIn(p, AUTHORIZATIONS) == NfcDoc(DocumentOf(s, AUTHORIZATIONS));
  }

  // ---------------------------------------------------------------- replay's checks hold

  lemma SameAuthorizationsDigest(auths: seq<Authorization>)
    ensures DigestOf(AuthorizationsDoc(Map(auths, NfcAuthorization))) == DigestOf(AuthorizationsDoc(auths))
  {
    ReadBackIsCanonical(AuthorizationsDoc(auths));
  }

  lemma SameProposalsDigest(ps: seq<Proposal>)
    ensures DigestOf(ProposalsDoc(Map(ps, NfcProposal))) == DigestOf(ProposalsDoc(ps))
  {
    ReadBackIsCanonical(ProposalsDoc(ps));
  }

  lemma RootHolds(s: Snapshot, p: Parts)
    requires ValidEvidence(s.production) && ReadBack(p, s)
    ensures IndexBound(p) && RootBound(p)
  {
    HashesReadBack(s, p);
    IndexReadBack(s, p);
    ReleaseReadBack(s, p);
    SameAuthorizationsDigest(s.authorizations);
    SameProposalsDigest(s.proposals);
    assert DigestOf(DocIn(p, AUTHORIZATIONS)) == DigestOf(DocumentOf(s, AUTHORIZATIONS));
    assert DigestOf(DocIn(p, PROPOSALS)) == DigestOf(DocumentOf(s, PROPOSALS));
  }

  lemma FramesHold(s: Snapshot, m: map<string, Blob>)
    requires ValidEvidence(s.production) && Holds(m, s)
    ensures FramesIntact(m, s.production.index.value.frames)
  {
    var (frames, indexed) := (s.production.frames, s.production.index.value.frames);
    forall i | 0 <= i < |indexed| ensures FrameIntact(m, indexed[i]) {
      assert FrameAgrees(frames[i], indexed[i], i);
    }
  }

  // ---------------------------------------------------------------- the re-evaluation agrees

  lemma OpenReplayed(p: Parts)
    requires ReplayedBindings(p) == IdentityBindings(InputOf(p), p.authorizations, PartsHashes(p))
    ensures ReplayedOpen(p) == OpenIssues(InputOf(p), p.authorizations, PartsHashes(p))
  {
  }

  lemma NothingDropped(bindings: map<string, string>)
    requires "" !in bindings
    ensures bindings - {""} == bindings
  {
  }

  /** Replay's evaluation of read-back documents, against export's evaluation of the documents themselves. */
  lemma SameBindings(p: Parts, inp: CheckerInput, auths: seq<Authorization>)
    requires InputOf(p) == NfcInput(inp) && p.authorizations == Map(auths, NfcAuthorization)
    ensures ReplayedBindings(p) == IdentityBindings(inp, auths, PartsHashes(p)) - {""}
  {
    EvaluationNormalised(inp, auths, PartsHashes(p));
  }

  lemma SameOpenIssues(p: Parts, inp: CheckerInput, auths: seq<Authorization>)
    requires InputOf(p) == NfcInput(inp) && p.authorizations == Map(auths, NfcAuthorization)
    requires ReplayedBindings(p) == IdentityBindings(inp, auths, PartsHashes(p))
    ensures ReplayedOpen(p) == Map(OpenIssues(inp, auths, PartsHashes(p)), NfcIssue)
  {
    EvaluationNormalised(inp, auths, PartsHashes(p));
    OpenReplayed(p);
  }

  lemma BindingsReplayed(s: Snapshot, p: Parts, flags: ProjectionStatus)
    requires Evaluated(s, flags) && ReadBack(p, s)
    ensures ReplayedBindings(p) == s.bindings - {""}
    ensures "" !in s.bindings ==> ReplayedOpen(p) == Map(s.openIssues, NfcIssue)
  {
    HashesReadBack(s, p);
    InputReadBack(s, p);
    SameBindings(p, CheckedInput(s.production), s.authorizations);
    if "" !in s.bindings {
      NothingDropped(s.bindings);
      SameOpenIssues(p, CheckedInput(s.production), s.authorizations);
    }
  }

  lemma SameFindingsDigest(issues: seq<Issue>)
    ensures DigestOf(FindingsDoc(Map(issues, NfcIssue))) == DigestOf(FindingsDoc(issues))
  {
    ReadBackIsCanonical(FindingsDoc(issues));
  }

  lemma CodesNormalised(issues: seq<Issue>)
    ensures Codes(Map(issues, NfcIssue)) == Codes(issues)
  {
  }

  /** The outcome that the release evidence records, against the replayed one. */
  lemma RecordedOutcome(p: Parts, bindings: map<string, string>, open: seq<Issue>, gate: GateState)
    requires p.release.identityBindings == bindings && p.release.finalGate == gate
    requires p.release.findingsHash == DigestOf(FindingsDoc(open))
    requires ReplayedBindings(p) == bindings - {""}
    requires "" !in bindings ==> ReplayedOpen(p) == Map(open, NfcIssue)
    ensures OutcomeBound(p, gate) <==> "" !in bindings && Folded(Codes(open), NO_FLAGS) == gate
  {
    SameFindingsDigest(open);
    CodesNormalised(open);
    if "" !in bindings {
      assert bindings - {""} == bindings;
    }
  }

  lemma OutcomeIff(s: Snapshot, p: Parts, flags: ProjectionStatus)
    requires Evaluated(s, flags) && ReadBack(p, s)
    ensures OutcomeBound(p, s.gate) <==> "" !in s.bindings && Folded(Codes(s.openIssues), NO_FLAGS) == s.gate
  {
    BindingsReplayed(s, p, flags);
    ReleaseReadBack(s, p);
    RecordedOutcome(p, s.bindings, s.openIssues, s.gate);
  }

  // ---------------------------------------------------------------- export and replay agree

  /** What a production needs, beyond valid evidence, for its package to replay. */
  ghost predicate Replayable(s: Snapshot) {
    && SafePaths(s.production.frames)
    && "" !in s.bindings
    && Folded(Codes(s.openIssues), NO_FLAGS) == s.gate
  }

  lemma DigestReturned(s: Snapshot, m: map<string, Blob>)
    requires Complete(s.production) && Holds(m, s)
    ensures SameDigits(PackageOf(s).releaseDigest, m[FileName(RELEASE_EVIDENCE)])
  {
    assert m[FileName(RELEASE_EVIDENCE)] == Content(s, RELEASE_EVIDENCE);
  }

  lemma ChecksHold(s: Snapshot, m: map<string, Blob>, p: Parts)
    requires ValidEvidence(s.production) && Holds(m, s) && Parses(m, p)
    ensures ReadBack(p, s)
    ensures IndexBound(p) && FramesIntact(m, p.index.frames) && RootBound(p)
  {
    PartsAreReadBack(s, m, p);
    RootHolds(s, p);
    IndexReadBack(s, p);
    FramesHold(s, m);
  }

  lemma ContentsIff(s: Snapshot, m: map<string, Blob>, bundle: BundleIndex, p: Parts, flags: ProjectionStatus)
    requires Evaluated(s, flags) && Holds(m, s) && Parses(m, p) && bundle.expectedGate == s.gate
    ensures ContentsVerify(m, PackageOf(s).releaseDigest, bundle, p) <==>
            "" !in s.bindings && Folded(Codes(s.openIssues), NO_FLAGS) == s.gate
  {
    DigestReturned(s, m);
    ChecksHold(s, m, p);
    OutcomeIff(s, p, flags);
  }

  /** The package that export assembles replays to MATCH under the returned digest exactly when every frame path is a
      safe entry name, no bound obligation has an empty id, and the gate does not rest on the projection flags. */
  lemma ExportReplays(s: Snapshot, flags: ProjectionStatus)
    requires Evaluated(s, flags)
    ensures var package := PackageOf(s);
            (exists index, p :: Verifies(ZipFile(package.members), package.releaseDigest, index, p)) <==> Replayable(s)
  {
    var package := PackageOf(s);
    var (m, bundle) := (package.members, BundleFor(s, Digests(Files(s))));
    PackageHolds(s);
    DeclaredFilesIntact(s);
    SafeIff(s, m);
    PackageTyped(s, m);
    var q := TypedParses(m);
    forall index, p | Verifies(ZipFile(m), package.releaseDigest, index, p) ensures Replayable(s) {
      IntactIff(m, bundle, index);
      ContentsIff(s, m, bundle, p, flags);
    }
    if Replayable(s) {
      IntactIff(m, bundle, bundle);
      ContentsIff(s, m, bundle, q, flags);
      assert Verifies(ZipFile(m), package.releaseDigest, bundle, q);
    }
  }

  /** In particular a production that export found READY_TO_EXPORT replays to MATCH as READY_TO_EXPORT. */
  lemma ReadyReplays(s: Snapshot, flags: ProjectionStatus)
    requires Evaluated(s, flags) && s.gate == READY_TO_EXPORT
    requires SafePaths(s.production.frames) && "" !in s.bindings
    ensures var package := PackageOf(s);
            exists index, p :: Verifies(ZipFile(package.members), package.releaseDigest, index, p)
                               && index.expectedGate == READY_TO_EXPORT
  {
    ReadyIffNothingOpen(Codes(s.openIssues), flags);
    ReadyIffNothingOpen(Codes(s.openIssues), NO_FLAGS);
    ExportReplays(s, flags);
    var package := PackageOf(s);
    var index, p :| Verifies(ZipFile(package.members), package.releaseDigest, index, p);
    IntactIff(package.members, BundleFor(s, Digests(Files(s))), index) by { DeclaredFilesIntact(s); }
  }

  // ---------------------------------------------------------------- the release digest binds the release

  /** What two packages have in common, whatever their spelling: every canonical document that the release evidence
      hashes, the bytes of every indexed frame, and the replayed bindings, open findings and gate. */
  ghost predicate SameDocuments(pa: Parts, pb: Parts) {
    && CanonicalBytes(ManifestDoc(pa.manifest)) == CanonicalBytes(ManifestDoc(pb.manifest))
    && CanonicalBytes(ObligationsDoc(pa.obligations)) == CanonicalBytes(ObligationsDoc(pb.obligations))
    && CanonicalBytes(LayoutDoc(pa.layout)) == CanonicalBytes(LayoutDoc(pb.layout))
    && CanonicalBytes(VisualDoc(pa.visual)) == CanonicalBytes(VisualDoc(pb.visual))
    && CanonicalBytes(AuthorizationsDoc(pa.authorizations)) == CanonicalBytes(AuthorizationsDoc(pb.authorizations))
    && CanonicalBytes(ProposalsDoc(pa.proposals)) == CanonicalBytes(ProposalsDoc(pb.proposals))
    && pa.index == pb.index
  }

  ghost predicate SameFrames(a: map<string, Blob>, b: map<string, Blob>, frames: seq<IndexedFrame>) {
    forall i :: 0 <= i < |frames| ==>
      var path := FramePath(frames[i].frameId); path in a && path in b && a[path] == b[path]
  }

  ghost predicate SameOutcome(pa: Parts, pb: Parts) {
    && ReplayedBindings(pa) == ReplayedBindings(pb)
    && CanonicalBytes(FindingsDoc(ReplayedOpen(pa))) == CanonicalBytes(FindingsDoc(ReplayedOpen(pb)))
    && ReplayedGateOf(pa) == ReplayedGateOf(pb)
  }

  lemma IndexDocInjective(x: ArtifactIndex, y: ArtifactIndex)
    requires DigestOf(IndexDoc(x)) == DigestOf(IndexDoc(y))
    ensures x == y
  {
  }

  lemma RootBindsDocuments(pa: Parts, pb: Parts)
    requires RootBound(pa) && RootBound(pb) && pa.release == pb.release
    ensures SameDocuments(pa, pb)
  {
    IndexDocInjective(pa.index, pb.index);
  }

  lemma OutcomeBinds(pa: Parts, pb: Parts, ga: GateState, gb: GateState)
    requires OutcomeBound(pa, ga) && OutcomeBound(pb, gb) && pa.release == pb.release
    ensures SameOutcome(pa, pb) && ga == gb
  {
  }

  lemma FramesBind(a: map<string, Blob>, b: map<string, Blob>, frames: seq<IndexedFrame>)
    requires FramesIntact(a, frames) && FramesIntact(b, frames)
    ensures SameFrames(a, b, frames)
  {
    forall i | 0 <= i < |frames|
      ensures var path := FramePath(frames[i].frameId); path in a && path in b && a[path] == b[path]
    {
      assert FrameIntact(a, frames[i]) && FrameIntact(b, frames[i]);
    }
  }

  lemma SameRelease(a: map<string, Blob>, b: map<string, Blob>, d: Digest, ia: BundleIndex, ib: BundleIndex,
                    pa: Parts, pb: Parts)
    requires forall k :: k in LISTED ==> FileName(k) in a
    requires forall k :: k in LISTED ==> FileName(k) in b
    requires ContentsVerify(a, d, ia, pa) && ContentsVerify(b, d, ib, pb)
    ensures pa.release == pb.release
  {
    assert a[FileName(RELEASE_EVIDENCE)] == b[FileName(RELEASE_EVIDENCE)];
  }

  /** Two packages that replay to MATCH under one digest hold the same release. The contributor registry is not among
      the hashed documents and is not covered. */
  lemma DigestBindsRelease(a: Bundle, b: Bundle, d: Digest, ia: BundleIndex, ib: BundleIndex, pa: Parts, pb: Parts)
    requires Verifies(a, d, ia, pa) && Verifies(b, d, ib, pb)
    ensures pa.release == pb.release
    ensures SameDocuments(pa, pb)
    ensures SameFrames(a.members, b.members, pa.index.frames)
    ensures SameOutcome(pa, pb) && ia.expectedGate == ib.expectedGate
  {
    SameRelease(a.members, b.members, d, ia, ib, pa, pb);
    RootBindsDocuments(pa, pb);
    FramesBind(a.members, b.members, pa.index.frames);
    OutcomeBinds(pa, pb, ia.expectedGate, ib.expectedGate);
  }
}
