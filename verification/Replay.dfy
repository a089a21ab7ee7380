/** The offline verifier of a delivery package. */
module Replay {
  import opened Domain
  import opened Gate
  import opened Records
  import opened Documents
  import opened Checker
  import opened Authority
  import opened Png
  import opened Release

  datatype Bundle = NoBundle | CorruptZip | ZipFile(members: map<string, Blob>) | Directory(members: map<string, Blob>)

  datatype ReplayedGate =
    Replayed(gate: GateState) | Unknown | InvalidExpectedDigest | SecurityError | DivergedHash | ParseError

  datatype Reason =
    | BadExpectedDigest | NoSuchBundle | UnreadableBundle | UnsafeEntry(name: string) | NoBundleIndex
    | MalformedBundleIndex | FileMissing(name: string) | FileHash(name: string) | ReleaseDigestDiffers | Unparsable
    | IndexManifestHash | IndexLayoutHash | FrameMissing(name: string) | FrameHash(name: string)
    | FrameAudit(name: string) | RootHash(name: string) | BindingsDiffer | GateDiffers | FinalGateDiffers
    | FindingsDiffer

  /** MATCH is the absence of reasons. */
  datatype Outcome = Outcome(expectedGate: Option<GateState>, gate: ReplayedGate, issues: nat,
                             indexDigest: Option<Digest>, reasons: seq<Reason>)

  predicate Match(o: Outcome) {
    o.reasons == []
  }

  function Diverged(expected: Option<GateState>, gate: ReplayedGate, reasons: seq<Reason>): Outcome {
    Outcome(expected, gate, 0, None, reasons)
  }

  // ---------------------------------------------------------------- entry names and the expected digest

  predicate HasDotDot(n: string) {
    exists i :: 0 <= i < |n| - 1 && n[i] == '.' && n[i+1] == '.'
  }

  predicate SafeName(n: string) {
    !(n != "" && n[0] == '/') && !HasDotDot(n) && '\\' !in n
  }

  predicate SafeBundle(b: Bundle) {
    b.ZipFile? ==> forall n :: n in b.members ==> SafeName(n)
  }

  predicate HexDigit(c: char) {
    '0' <= c <= '9' || 'a' <= c <= 'f' || 'A' <= c <= 'F'
  }

  /** 64 hexadecimal digits. */
  predicate WellFormedDigest(d: Digest) {
    d.OtherText? ==> |d.text| == 64 && forall i :: 0 <= i < 64 ==> HexDigit(d.text[i])
  }

  /** Equality of digests with letter case ignored. */
  predicate SameDigits(d: Digest, b: Blob) {
    !d.OtherText? && d.preimage == b
  }

  // ---------------------------------------------------------------- declared files

  predicate FilesIntact(members: map<string, Blob>, declared: map<string, Digest>) {
    && (forall n :: n in declared ==> n in members && Sha256(members[n]) == declared[n])
    && (forall k :: k in LISTED ==> FileName(k) in members)
  }

  // ---------------------------------------------------------------- parsed contents

  datatype Parts = Parts(manifest: Manifest, obligations: seq<Obligation>, layout: Option<LayoutEvidence>,
                         visual: Option<VisualObservations>, registry: seq<Contributor>,
                         authorizations: seq<Authorization>, proposals: seq<Proposal>, index: ArtifactIndex,
                         release: ReleaseEvidence)

  predicate ParsesInputs(members: map<string, Blob>, p: Parts)
    requires forall k :: k in LISTED ==> FileName(k) in members
  {
    && Parse(members[FileName(MANIFEST)]) == Some(ManifestDoc(p.manifest))
    && Parse(members[FileName(OBLIGATIONS)]) == Some(ObligationsDoc(p.obligations))
    && Parse(members[FileName(LAYOUT_EVIDENCE)]) == Some(LayoutDoc(p.layout))
    && Parse(members[FileName(VISUAL_OBSERVATIONS)]) == Some(VisualDoc(p.visual))
    && Parse(members[FileName(CONTRIBUTOR_REGISTRY)]) == Some(RegistryDoc(p.registry))
  }

  predicate ParsesRecords(members: map<string, Blob>, p: Parts)
    requires forall k :: k in LISTED ==> FileName(k) in members
  {
    && Parse(members[FileName(AUTHORIZATIONS)]) == Some(AuthorizationsDoc(p.authorizations))
    && Parse(members[FileName(PROPOSALS)]) == Some(ProposalsDoc(p.proposals))
    && Parse(members[FileName(ARTIFACT_INDEX)]) == Some(IndexDoc(p.index))
    && Parse(members[FileName(RELEASE_EVIDENCE)]) == Some(ReleaseDoc(p.release))
  }

  predicate Parses(members: map<string, Blob>, p: Parts)
    requires forall k :: k in LISTED ==> FileName(k) in members
  {
    ParsesInputs(members, p) && ParsesRecords(members, p)
  }

  function PartsHashes(p: Parts): Hashes {
    Hashes(DigestOf(ManifestDoc(p.manifest)), DigestOf(ObligationsDoc(p.obligations)), DigestOf(IndexDoc(p.index)),
           DigestOf(VisualDoc(p.visual)))
  }

  predicate IndexBound(p: Parts) {
    && p.index.manifestHash == PartsHashes(p).manifest
    && p.index.layoutEvidenceHash == DigestOf(LayoutDoc(p.layout))
  }

  predicate IsPng(b: Blob) {
    b.Bytes? && Decode(b.bytes).Some?
  }

  predicate FrameIntact(members: map<string, Blob>, f: IndexedFrame) {
    var path := FramePath(f.frameId);
    path in members && Sha256(members[path]) == f.sha256 && IsPng(members[path])
  }

  predicate FramesIntact(members: map<string, Blob>, frames: seq<IndexedFrame>) {
    forall i :: 0 <= i < |frames| ==> FrameIntact(members, frames[i])
  }

  /** The release evidence carries the hashes of what is in the package. */
  predicate RootBound(p: Parts) {
    && p.release.hashes == PartsHashes(p)
    && p.release.layoutEvidenceHash == DigestOf(LayoutDoc(p.layout))
    && p.release.renderProfileVersion == p.index.renderProfileVersion
    && p.release.orderedFrames == p.index.frames
    && DigestOf(AuthorizationsDoc(p.release.authorizations)) == DigestOf(AuthorizationsDoc(p.authorizations))
    && DigestOf(ProposalsDoc(p.release.proposals)) == DigestOf(ProposalsDoc(p.proposals))
  }

  // ---------------------------------------------------------------- re-evaluation

  function InputOf(p: Parts): CheckerInput {
    CheckerInput(p.obligations, p.manifest, p.layout, p.visual, p.registry, map[])
  }

  /** Replay's bindings: an empty obligation id is dropped. */
  function ReplayedBindings(p: Parts): map<string, string> {
    IdentityBindings(InputOf(p), p.authorizations, PartsHashes(p)) - {""}
  }

  function ReplayedOpen(p: Parts): seq<Issue> {
    StillOpen(Findings(InputOf(p).(bindings := ReplayedBindings(p))),
              VisualConfirmations(p.authorizations, PartsHashes(p)))
  }

  function ReplayedGateOf(p: Parts): GateState {
    Folded(Codes(ReplayedOpen(p)), NO_FLAGS)
  }

  predicate OutcomeBound(p: Parts, expectedGate: GateState) {
    && p.release.identityBindings == ReplayedBindings(p)
    && ReplayedGateOf(p) == expectedGate
    && p.release.finalGate == ReplayedGateOf(p)
    && p.release.findingsHash == DigestOf(FindingsDoc(ReplayedOpen(p)))
  }

  // ---------------------------------------------------------------- what MATCH means

  /** The package is intact: its bundle index parses, every declared file has its digest, nothing required is missing. */
  predicate Intact(b: Bundle, index: BundleIndex) {
    && (b.ZipFile? || b.Directory?)
    && SafeBundle(b)
    && FileName(BUNDLE_INDEX) in b.members
    && Parse(b.members[FileName(BUNDLE_INDEX)]) == Some(BundleDoc(index))
    && FilesIntact(b.members, index.files)
  }

  predicate ContentsVerify(members: map<string, Blob>, expected: Digest, index: BundleIndex, p: Parts)
    requires forall k :: k in LISTED ==> FileName(k) in members
  {
    && SameDigits(expected, members[FileName(RELEASE_EVIDENCE)])
    && Parses(members, p)
    && IndexBound(p)
    && FramesIntact(members, p.index.frames)
    && RootBound(p)
    && OutcomeBound(p, index.expectedGate)
  }

  /** Everything that replay verifies. */
  predicate Verifies(b: Bundle, expected: Digest, index: BundleIndex, p: Parts) {
    Intact(b, index) && ContentsVerify(b.members, expected, index, p)
  }

  // ---------------------------------------------------------------- the steps of replay

  function If(bad: bool, r: Reason): seq<Reason> {
    if bad then [r] else []
  }

  method CheckNames(members: map<string, Blob>) returns (unsafe: Option<string>)
    ensures unsafe.None? <==> forall n :: n in members ==> SafeName(n)
    ensures unsafe.Some? ==> unsafe.value in members && !SafeName(unsafe.value)
  {
    var todo := members.Keys;
    while todo != {}
      invariant todo <= members.Keys
      invariant forall n :: n in members && n !in todo ==> SafeName(n)
      decreases |todo|
    {
      var n :| n in todo;
      if !SafeName(n) {
        return Some(n);
      }
      todo := todo - {n};
    }
    return None;
  }

  /** The declared files, each present and with its digest. */
  method VerifyDigests(members: map<string, Blob>, declared: map<string, Digest>) returns (reasons: seq<Reason>)
    ensures reasons == [] <==> forall n :: n in declared ==> n in members && Sha256(members[n]) == declared[n]
  {
    reasons := [];
    var todo := declared.Keys;
    while todo != {}
      invariant todo <= declared.Keys
      invariant reasons == [] <==>
                forall n :: n in declared && n !in todo ==> n in members && Sha256(members[n]) == declared[n]
      decreases |todo|
    {
      var n :| n in todo;
      todo := todo - {n};
      if n !in members {
        reasons := reasons + [FileMissing(n)];
        continue;
      }
      if Sha256(members[n]) != declared[n] {
        reasons := reasons + [FileHash(n)];
      }
    }
  }

  method VerifyFiles(members: map<string, Blob>, declared: map<string, Digest>) returns (reasons: seq<Reason>)
    ensures reasons == [] <==> FilesIntact(members, declared)
  {
    reasons := VerifyDigests(members, declared);
    var kinds := LISTED;
    while kinds != {}
      invariant kinds <= LISTED
      invariant reasons == [] <==>
                (forall n :: n in declared ==> n in members && Sha256(members[n]) == declared[n])
                && forall k :: k in LISTED && k !in kinds ==> FileName(k) in members
      decreases |kinds|
    {
      var k :| k in kinds;
      kinds := kinds - {k};
      if FileName(k) !in members {
        reasons := reasons + [FileMissing(FileName(k))];
      }
    }
  }

  method ParseParts(members: map<string, Blob>) returns (p: Option<Parts>)
    requires forall k :: k in LISTED ==> FileName(k) in members
    ensures p.Some? ==> Parses(members, p.value)
    ensures p.None? ==> forall q :: !Parses(members, q)
  {
    var manifest, obligations, layout, visual :=
      Parse(members[FileName(MANIFEST)]), Parse(members[FileName(OBLIGATIONS)]),
      Parse(members[FileName(LAYOUT_EVIDENCE)]), Parse(members[FileName(VISUAL_OBSERVATIONS)]);
    var registry, authorizations, proposals, index, release :=
      Parse(members[FileName(CONTRIBUTOR_REGISTRY)]), Parse(members[FileName(AUTHORIZATIONS)]),
      Parse(members[FileName(PROPOSALS)]), Parse(members[FileName(ARTIFACT_INDEX)]),
      Parse(members[FileName(RELEASE_EVIDENCE)]);
    if manifest.None? || !manifest.value.ManifestDoc? || obligations.None? || !obligations.value.ObligationsDoc? {
      return None;
    }
    if layout.None? || !layout.value.LayoutDoc? || visual.None? || !visual.value.VisualDoc? {
      return None;
    }
    if registry.None? || !registry.value.RegistryDoc? || authorizations.None? || !authorizations.value.AuthorizationsDoc? {
      return None;
    }
    if proposals.None? || !proposals.value.ProposalsDoc? || index.None? || !index.value.IndexDoc? {
      return None;
    }
    if release.None? || !release.value.ReleaseDoc? {
      return None;
    }
    return Some(Parts(manifest.value.manifest, obligations.value.obligations, layout.value.layout,
                      visual.value.visual, registry.value.registry, authorizations.value.authorizations,
                      proposals.value.proposals, index.value.index, release.value.release));
  }

  method VerifyFrames(members: map<string, Blob>, frames: seq<IndexedFrame>) returns (reasons: seq<Reason>)
    ensures reasons == [] <==> FramesIntact(members, frames)
  {
    reasons := [];
    for i := 0 to |frames|
      invariant reasons == [] <==> forall j :: 0 <= j < i ==> FrameIntact(members, frames[j])
    {
      var f := frames[i];
      var path := FramePath(f.frameId);
      if path !in members {
        reasons := reasons + [FrameMissing(path)];
        continue;
      }
      if Sha256(members[path]) != f.sha256 {
        reasons := reasons + [FrameHash(path)];
      }
      var valid := false;
      if members[path].Bytes? {
        var ok, reason, w, h := AuditPng(members[path].bytes, None, None);
        valid := ok;
      }
      if !valid {
        reasons := reasons + [FrameAudit(path)];
      }
    }
  }

  method VerifyRoot(p: Parts) returns (reasons: seq<Reason>)
    ensures reasons == [] <==> RootBound(p)
  {
    var (r, h) := (p.release, PartsHashes(p));
    reasons := If(r.hashes.manifest != h.manifest, RootHash("manifest_hash"))
               + If(r.hashes.obligations != h.obligations, RootHash("obligation_registry_version_hash"))
               + If(r.layoutEvidenceHash != DigestOf(LayoutDoc(p.layout)), RootHash("layout_evidence_hash"))
               + If(r.hashes.visual != h.visual, RootHash("visual_observations_hash"))
               + If(r.hashes.artifactIndex != h.artifactIndex, RootHash("artifact_index_digest"))
               + If(r.renderProfileVersion != p.index.renderProfileVersion, RootHash("render_profile_version"))
               + If(r.orderedFrames != p.index.frames, RootHash("ordered_png_frame_hashes"));
    var sameAuthorizations := DigestOf(AuthorizationsDoc(r.authorizations)) == DigestOf(AuthorizationsDoc(p.authorizations));
    var sameProposals := DigestOf(ProposalsDoc(r.proposals)) == DigestOf(ProposalsDoc(p.proposals));
    reasons := reasons + If(!sameAuthorizations, RootHash("authorizations")) + If(!sameProposals, RootHash("proposals"));
  }

  /** Replay's own loop over the raw bindings: no conflict test, and an empty obligation id is skipped. */
  method BindReplayed(findings: seq<Issue>, raw: map<IssueId, string>) returns (bindings: map<string, string>)
    requires IdsAreStable(findings)
    ensures bindings == BindingsFor(findings, raw) - {""}
  {
    var ambiguous := AmbiguityMap(findings);
    bindings := map[];
    var todo := raw.Keys;
    while todo != {}
      invariant todo <= raw.Keys
      invariant forall o :: o in bindings <==>
                  o != "" && o in AmbiguousObligations(findings) && AmbiguousId(o) in raw.Keys - todo
      invariant forall o :: o in bindings ==> bindings[o] == raw[AmbiguousId(o)]
      decreases |todo|
    {
      var i :| i in todo;
      todo := todo - {i};
      if i in ambiguous {
        var o := ambiguous[i];
        forall p | AmbiguousId(p) == i ensures p == o { AmbiguousIdInjective(p, o); }
        if o != "" {
          bindings := bindings[o := raw[i]];
        }
      }
    }
  }

  method ReEvaluate(p: Parts) returns (bindings: map<string, string>, open: seq<Issue>, gate: GateState)
    ensures bindings == ReplayedBindings(p)
    ensures open == ReplayedOpen(p)
    ensures gate == ReplayedGateOf(p)
  {
    var h := PartsHashes(p);
    var raw := BuildIdentityBindings(p.authorizations, h);
    var preliminary := EvaluateFindings(InputOf(p));
    FindingsIdsAreStable(InputOf(p));
    bindings := BindReplayed(preliminary, raw);
    var findings := EvaluateFindings(InputOf(p).(bindings := bindings));
    open := ResolveOpenIssues(findings, p.authorizations, h);
    gate := FoldGate(Codes(open), NO_FLAGS);
  }

  /** The checks made once the package is intact. */
  method VerifyContents(members: map<string, Blob>, expected: Digest, index: BundleIndex) returns (o: Outcome)
    requires forall k :: k in LISTED ==> FileName(k) in members
    ensures o.expectedGate == Some(index.expectedGate)
    ensures Match(o) <==> exists p :: ContentsVerify(members, expected, index, p)
    ensures o.gate.ParseError? <==> forall p :: !Parses(members, p)
    ensures forall p :: Parses(members, p) ==>
              o.gate == Replayed(ReplayedGateOf(p)) && o.issues == |ReplayedOpen(p)|
              && o.indexDigest == Some(PartsHashes(p).artifactIndex)
  {
    var reasons := If(!SameDigits(expected, members[FileName(RELEASE_EVIDENCE)]), ReleaseDigestDiffers);
    var parsed := ParseParts(members);
    if parsed.None? {
      return Diverged(Some(index.expectedGate), ParseError, [Unparsable]);
    }
    var p := parsed.value;
    forall q | Parses(members, q) ensures q == p { ParsedOnce(members, p, q); }
    reasons := reasons + If(p.index.manifestHash != PartsHashes(p).manifest, IndexManifestHash)
               + If(p.index.layoutEvidenceHash != DigestOf(LayoutDoc(p.layout)), IndexLayoutHash);
    var frameReasons := VerifyFrames(members, p.index.frames);
    var rootReasons := VerifyRoot(p);
    var bindings, open, gate := ReEvaluate(p);
    var outcomeReasons := VerifyOutcome(p, index.expectedGate, bindings, open, gate);
    reasons := reasons + frameReasons + rootReasons + outcomeReasons;
    o := Outcome(Some(index.expectedGate), Replayed(gate), |open|, Some(PartsHashes(p).artifactIndex), reasons);
    assert Match(o) <==> ContentsVerify(members, expected, index, p);
  }

  lemma ParsedOnce(members: map<string, Blob>, p: Parts, q: Parts)
    requires forall k :: k in LISTED ==> FileName(k) in members
    requires Parses(members, p) && Parses(members, q)
    ensures p == q
  {
  }

  method VerifyOutcome(p: Parts, expectedGate: GateState, bindings: map<string, string>, open: seq<Issue>,
                       gate: GateState) returns (reasons: seq<Reason>)
    requires bindings == ReplayedBindings(p) && open == ReplayedOpen(p) && gate == ReplayedGateOf(p)
    ensures reasons == [] <==> OutcomeBound(p, expectedGate)
  {
    reasons := If(p.release.identityBindings != bindings, BindingsDiffer)
               + If(gate != expectedGate, GateDiffers)
               + If(p.release.finalGate != gate, FinalGateDiffers)
               + If(p.release.findingsHash != DigestOf(FindingsDoc(open)), FindingsDiffer);
  }

  lemma VerifiesOnlyIntact(b: Bundle, expected: Digest)
    requires forall i :: !Intact(b, i)
    ensures forall i, p :: !Verifies(b, expected, i, p)
  {
  }

  /** Open the package, and find every declared and every required file. */
  method OpenBundle(b: Bundle) returns (r: Result<BundleIndex, Outcome>)
    ensures r.Ok? ==> Intact(b, r.value)
    ensures r.Err? ==> !Match(r.error) && forall i :: !Intact(b, i)
    ensures r.Err? ==> r.error.gate in {SecurityError, Unknown, DivergedHash}
    ensures r.Err? && r.error.gate.SecurityError? <==> b.ZipFile? && !SafeBundle(b)
  {
    if b.NoBundle? || b.CorruptZip? {
      return Err(Diverged(None, Unknown, [if b.NoBundle? then NoSuchBundle else UnreadableBundle]));
    }
    if b.ZipFile? {
      var unsafe := CheckNames(b.members);
      if unsafe.Some? {
        return Err(Diverged(None, SecurityError, [UnsafeEntry(unsafe.value)]));
      }
    }
    if FileName(BUNDLE_INDEX) !in b.members {
      return Err(Diverged(None, Unknown, [NoBundleIndex]));
    }
    var parsed := Parse(b.members[FileName(BUNDLE_INDEX)]);
    if parsed.None? || !parsed.value.BundleDoc? {
      return Err(Diverged(None, Unknown, [MalformedBundleIndex]));
    }
    var index := parsed.value.bundle;
    var reasons := VerifyFiles(b.members, index.files);
    if reasons != [] {
      return Err(Diverged(Some(index.expectedGate), DivergedHash, reasons));
    }
    return Ok(index);
  }

  /** A package that verifies is reported with its own expected gate, as the replayed one too. */
  ghost predicate GateReported(b: Bundle, expected: Digest, o: Outcome) {
    forall index, p :: Verifies(b, expected, index, p) ==>
      o.gate == Replayed(index.expectedGate) && o.expectedGate == Some(index.expectedGate)
  }

  lemma MatchDecided(b: Bundle, expected: Digest, index: BundleIndex)
    requires Intact(b, index)
    ensures (exists p :: ContentsVerify(b.members, expected, index, p)) <==> exists i, p :: Verifies(b, expected, i, p)
  {
    if p :| ContentsVerify(b.members, expected, index, p) {
      assert Verifies(b, expected, index, p);
    }
    if i, p :| Verifies(b, expected, i, p) {
      assert ContentsVerify(b.members, expected, index, p);
    }
  }

  lemma GateDecided(b: Bundle, expected: Digest, index: BundleIndex, o: Outcome)
    requires Intact(b, index)
    requires o.expectedGate == Some(index.expectedGate)
    requires forall p :: Parses(b.members, p) ==> o.gate == Replayed(ReplayedGateOf(p))
    ensures GateReported(b, expected, o)
  {
    forall i, p | Verifies(b, expected, i, p)
      ensures o.gate == Replayed(i.expectedGate) && o.expectedGate == Some(i.expectedGate)
    {
      assert i == index;
    }
  }

  method ReplayBundle(b: Bundle, expected: Digest) returns (o: Outcome)
    ensures Match(o) <==> exists index, p :: Verifies(b, expected, index, p)
    ensures GateReported(b, expected, o)
    ensures o.gate.InvalidExpectedDigest? <==> !WellFormedDigest(expected)
    ensures o.gate.SecurityError? <==> WellFormedDigest(expected) && b.ZipFile? && !SafeBundle(b)
  {
    if !WellFormedDigest(expected) {
      BadDigestNeverVerifies(b, expected);
      return Diverged(None, InvalidExpectedDigest, [BadExpectedDigest]);
    }
    var found := OpenBundle(b);
    if found.Err? {
      VerifiesOnlyIntact(b, expected);
      return found.error;
    }
    o := VerifyContents(b.members, expected, found.value);
    MatchDecided(b, expected, found.value);
    GateDecided(b, expected, found.value, o);
  }

  lemma BadDigestNeverVerifies(b: Bundle, expected: Digest)
    requires !WellFormedDigest(expected)
    ensures forall i, p :: !Verifies(b, expected, i, p)
  {
  }
}
