/** Documents and their canonical bytes: every string is NFC-normalised before it is written. */
module Documents {
  import opened Domain
  import opened Records

  function Map<A, B>(s: seq<A>, f: A -> B): (r: seq<B>)
    ensures |r| == |s| && forall i :: 0 <= i < |s| ==> r[i] == f(s[i])
  {
    seq(|s|, i requires 0 <= i < |s| => f(s[i]))
  }

  function MapOption<A, B>(o: Option<A>, f: A -> B): Option<B> {
    if o.Some? then Some(f(o.value)) else None
  }

  function NfcSource(s: Source): Source {
    s.(quote := Nfc(s.quote))
  }

  function NfcObligation(o: Obligation): Obligation {
    o.(obligeeText := NfcOption(o.obligeeText), displayText := NfcOption(o.displayText),
       roleLabel := NfcOption(o.roleLabel), source := NfcSource(o.source), rest := Nfc(o.rest))
  }

  function NfcEntry(e: ManifestEntry): ManifestEntry {
    e.(displayName := Nfc(e.displayName), role := Nfc(e.role))
  }

  function NfcManifest(m: Manifest): Manifest {
    m.(entries := Map(m.entries, NfcEntry))
  }

  function NfcContributor(c: Contributor): Contributor {
    c.(canonicalName := Nfc(c.canonicalName), aliases := Map(c.aliases, Nfc))
  }

  function NfcAssertion(a: LayoutAssertion): LayoutAssertion {
    a.(visibleText := Nfc(a.visibleText))
  }

  function NfcLayout(l: LayoutEvidence): LayoutEvidence {
    l.(assertions := Map(l.assertions, NfcAssertion))
  }

  function NfcObservation(v: VisualObservation): VisualObservation {
    v.(observation := Nfc(v.observation))
  }

  function NfcVisual(v: VisualObservations): VisualObservations {
    v.(observations := Map(v.observations, NfcObservation))
  }

  function NfcIssue(i: Issue): Issue {
    i.(source := MapOption(i.source, NfcSource))
  }

  function NfcAuthorization(a: Authorization): Authorization {
    a.(reason := Nfc(a.reason))
  }

  function NfcProposal(p: Proposal): Proposal {
    p.(reason := Nfc(p.reason))
  }

  function NfcRelease(r: ReleaseEvidence): ReleaseEvidence {
    r.(authorizations := Map(r.authorizations, NfcAuthorization), proposals := Map(r.proposals, NfcProposal),
       findings := Map(r.findings, NfcIssue))
  }

  function NfcDoc(d: Document): Document {
    match d
    case ManifestDoc(m) => ManifestDoc(NfcManifest(m))
    case ObligationsDoc(os) => ObligationsDoc(Map(os, NfcObligation))
    case LayoutDoc(l) => LayoutDoc(MapOption(l, NfcLayout))
    case VisualDoc(v) => VisualDoc(MapOption(v, NfcVisual))
    case RegistryDoc(cs) => RegistryDoc(Map(cs, NfcContributor))
    case AuthorizationsDoc(auths) => AuthorizationsDoc(Map(auths, NfcAuthorization))
    case ProposalsDoc(ps) => ProposalsDoc(Map(ps, NfcProposal))
    case IndexDoc(x) => IndexDoc(x)
    case FindingsDoc(fs) => FindingsDoc(Map(fs, NfcIssue))
    case ReleaseDoc(r) => ReleaseDoc(NfcRelease(r))
    case BundleDoc(b) => BundleDoc(b)
  }

  function CanonicalBytes(d: Document): Blob {
    Canonical(NfcDoc(d))
  }

  /** The digest of a document's canonical bytes. */
  function DigestOf(d: Document): Digest {
    Sha256(CanonicalBytes(d))
  }

  /** The document that a file's text parses to. */
  function Parse(b: Blob): Option<Document> {
    match b
    case Canonical(d) => Some(d)
    case Spelled(d, _) => Some(d)
    case Bytes(_) => None
  }

  // ---------------------------------------------------------------- normalising twice

  ghost predicate Idempotent<A(!new)>(f: A -> A) {
    forall a: A :: f(f(a)) == f(a)
  }

  lemma MapTwice<A(!new)>(s: seq<A>, f: A -> A)
    requires Idempotent(f)
    ensures Map(Map(s, f), f) == Map(s, f)
  {
  }

  lemma ReleaseTwice(r: ReleaseEvidence)
    ensures NfcRelease(NfcRelease(r)) == NfcRelease(r)
  {
    MapTwice(r.authorizations, NfcAuthorization);
    MapTwice(r.proposals, NfcProposal);
    MapTwice(r.findings, NfcIssue);
  }

  lemma ContributorTwice(c: Contributor)
    ensures NfcContributor(NfcContributor(c)) == NfcContributor(c)
  {
    MapTwice(c.aliases, Nfc);
  }

  lemma LayoutTwice(l: LayoutEvidence)
    ensures NfcLayout(NfcLayout(l)) == NfcLayout(l)
  {
    MapTwice(l.assertions, NfcAssertion);
  }

  lemma VisualTwice(v: VisualObservations)
    ensures NfcVisual(NfcVisual(v)) == NfcVisual(v)
  {
    MapTwice(v.observations, NfcObservation);
  }

  /** Normalisation is idempotent, so a document read back from its canonical bytes has those same canonical bytes. */
  lemma ReadBackIsCanonical(d: Document)
    ensures Parse(CanonicalBytes(d)) == Some(NfcDoc(d))
    ensures CanonicalBytes(NfcDoc(d)) == CanonicalBytes(d)
  {
    match d
    case ManifestDoc(m) => MapTwice(m.entries, NfcEntry);
    case ObligationsDoc(os) => MapTwice(os, NfcObligation);
    case LayoutDoc(l) => if l.Some? { LayoutTwice(l.value); }
    case VisualDoc(v) => if v.Some? { VisualTwice(v.value); }
    case RegistryDoc(cs) =>
      forall c ensures NfcContributor(NfcContributor(c)) == NfcContributor(c) { ContributorTwice(c); }
      MapTwice(cs, NfcContributor);
    case AuthorizationsDoc(auths) => MapTwice(auths, NfcAuthorization);
    case ProposalsDoc(ps) => MapTwice(ps, NfcProposal);
    case IndexDoc(_) =>
    case FindingsDoc(fs) => MapTwice(fs, NfcIssue);
    case ReleaseDoc(r) => ReleaseTwice(r);
    case BundleDoc(_) =>
  }
}
