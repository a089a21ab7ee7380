/** The typed records of the domain and of the release evidence, and ideal hashing over them. */
module Records {
  import opened Domain

  // ---------------------------------------------------------------- checker inputs

  datatype CreditSurface = MAIN_TITLES | END_CARDS | END_CRAWL | BILLING_BLOCK

  datatype CardType = SOLO | SHARED | CRAWL

  datatype CardPosition = AbsolutePosition(ordinal: nat) | RelativePosition(after: bool, referenceElementId: string)

  datatype ObligationStatus =
    Candidate | NeedsConfirmation | Active | Superseded | Conflicting | Waived | PendingExternalAuthority

  datatype Source = Source(documentId: string, version: nat, quote: Text)

  /** `rest` stands for the fields that no component modelled here reads. */
  datatype Obligation = Obligation(id: string, status: ObligationStatus,
                                   creditedPartyId: Option<string>, obligeeText: Option<Text>,
                                   displayText: Option<Text>, roleLabel: Option<Text>,
                                   surface: CreditSurface, cardType: Option<CardType>,
                                   cardPosition: Option<CardPosition>,
                                   minimumRelativeSize: Option<real>, sizeReference: Option<string>,
                                   minimumVisibleDurationMs: Option<nat>,
                                   source: Source, rest: Text)

  datatype ManifestEntry = ManifestEntry(elementId: string, contributorId: string, displayName: Text, role: Text,
                                         surface: CreditSurface, groupId: Option<string>, ordinal: nat,
                                         sharedWith: seq<string>)

  datatype Manifest = Manifest(id: string, deliveryVersionId: string, entries: seq<ManifestEntry>)

  datatype Contributor = Contributor(id: string, canonicalName: Text, aliases: seq<Text>)

  datatype LayoutAssertion = LayoutAssertion(elementId: string, visibleText: Text, fontSizePx: real)

  datatype LayoutEvidence = LayoutEvidence(manifestId: string, renderProfileVersion: string,
                                           assertions: seq<LayoutAssertion>)

  datatype VisualObservation = VisualObservation(elementId: string, observation: Text, flagged: bool)

  datatype VisualObservations = VisualObservations(manifestId: string, observations: seq<VisualObservation>)

  // ---------------------------------------------------------------- issues

  /** An issue id: the digest of its raw text, or any other text that an authorization may carry. */
  datatype IssueId = Sha256Of(raw: string) | OtherId(text: string)

  datatype Issue = Issue(id: IssueId, code: IssueCode, obligationId: Option<string>,
                         manifestRefs: set<string>, source: Option<Source>)

  // ---------------------------------------------------------------- human authority

  /** The four input hashes an authorization is bound to. */
  datatype Hashes = Hashes(manifest: Digest, obligations: Digest, artifactIndex: Digest, visual: Digest)

  /** `Declined` is the status REJECTED. */
  datatype ProposalStatus = Pending | Confirmed | Declined

  datatype Proposal = Proposal(id: string, productionId: string, issueId: IssueId, proposerId: string,
                               action: AuthorizationAction, reason: Text, selectedContributorId: Option<string>,
                               hashes: Hashes, createdAt: string, status: ProposalStatus)

  datatype Authorization = Authorization(id: string, productionId: string, proposalId: string, issueId: IssueId,
                                         proposerId: string, actorId: string, action: AuthorizationAction,
                                         reason: Text, selectedContributorId: Option<string>,
                                         hashes: Hashes, authorizedAt: string)

  // ---------------------------------------------------------------- release evidence

  datatype IndexedFrame = IndexedFrame(frameId: string, sha256: Digest)

  datatype ArtifactIndex = ArtifactIndex(manifestHash: Digest, renderProfileVersion: string,
                                         frames: seq<IndexedFrame>, layoutEvidenceHash: Digest)

  datatype ReleaseEvidence = ReleaseEvidence(hashes: Hashes, renderProfileVersion: string,
                                             orderedFrames: seq<IndexedFrame>, layoutEvidenceHash: Digest,
                                             findingsHash: Digest, identityBindings: map<string, string>,
                                             authorizations: seq<Authorization>, proposals: seq<Proposal>,
                                             finalGate: GateState, findings: seq<Issue>)

  datatype BundleIndex = BundleIndex(productionId: string, deliveryVersionId: string, hashes: Hashes,
                                     authorizationLogHash: Digest, releaseEvidenceDigest: Digest,
                                     expectedGate: GateState, files: map<string, Digest>)

  /** The values that are written as JSON documents. */
  datatype Document =
    | ManifestDoc(manifest: Manifest)
    | ObligationsDoc(obligations: seq<Obligation>)
    | LayoutDoc(layout: Option<LayoutEvidence>)
    | VisualDoc(visual: Option<VisualObservations>)
    | RegistryDoc(registry: seq<Contributor>)
    | AuthorizationsDoc(authorizations: seq<Authorization>)
    | ProposalsDoc(proposals: seq<Proposal>)
    | IndexDoc(index: ArtifactIndex)
    | FindingsDoc(findings: seq<Issue>)
    | ReleaseDoc(release: ReleaseEvidence)
    | BundleDoc(bundle: BundleIndex)

  /** File contents: the canonical JSON text of a document, some other JSON text that parses to one,
      or bytes that are not one of these documents. */
  datatype Blob = Canonical(doc: Document) | Spelled(doc: Document, variant: nat) | Bytes(bytes: seq<Byte>)

  /** A digest-valued field: the lower-case SHA-256 of a preimage, the same digits in another case,
      or any other text. Equal digests have equal preimages. */
  datatype Digest = Sha256(preimage: Blob) | Recased(preimage: Blob, variant: nat) | OtherText(text: string)
}
