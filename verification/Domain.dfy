/** Values shared by every component: text, digests' building blocks, and the frozen enumerations. */
module Domain {

  datatype Option<+T> = None | Some(value: T)

  newtype Byte = x: int | 0 <= x < 0x100

  datatype Result<+T, +E> = Ok(value: T) | Err(error: E)

  /** A Unicode string, written as its NFC normal form and the number of the spelling
      among the strings with that normal form; spelling 0 is the normal form itself. */
  datatype Text = Text(normalForm: string, spelling: nat)

  function Nfc(t: Text): Text {
    t.(spelling := 0)
  }

  function NfcOption(t: Option<Text>): Option<Text> {
    if t.Some? then Some(Nfc(t.value)) else None
  }

  predicate IsSpace(c: char) {
    c in {' ', '\t', '\n', '\r'}
  }

  /** Python's `not s.strip()`. */
  predicate Blank(s: string) {
    forall i :: 0 <= i < |s| ==> IsSpace(s[i])
  }

  datatype GateState = DEGRADED | BLOCKED | NEEDS_HUMAN | NEEDS_CONFIRMATION | STALE | READY_TO_EXPORT

  datatype IssueCode =
    | MISSING_CREDIT
    | ARTIFACT_TEXT_MISMATCH
    | ARTIFACT_GROUPING_MISMATCH
    | ARTIFACT_POSITION_MISMATCH
    | ARTIFACT_SIZE_MISMATCH
    | ARTIFACT_INTEGRITY_FAILURE
    | AMBIGUOUS_IDENTITY
    | CONFLICTING_OBLIGATION
    | VISUAL_OBSERVATION_UNCERTAIN
    | UNSUPPORTED_PRESENTATION_ASSERTION
    | REQUIRED_EVIDENCE_UNAVAILABLE
    | UNCONFIRMED_OBLIGATION
    | STALE_MANIFEST
    | ARTIFACT_PENDING

  datatype AuthorizationAction = CONFIRM_IDENTITY | CONFIRM_VISUAL | WAIVE_OBLIGATION | CONFIRM_PRECEDENCE

  /** Readiness flags kept beside the issue list. */
  datatype ProjectionStatus = ProjectionStatus(artifactPending: bool, staleManifest: bool)

  const NO_FLAGS := ProjectionStatus(false, false)

  function CodeName(c: IssueCode): string {
    match c
    case MISSING_CREDIT => "MISSING_CREDIT"
    case ARTIFACT_TEXT_MISMATCH => "ARTIFACT_TEXT_MISMATCH"
    case ARTIFACT_GROUPING_MISMATCH => "ARTIFACT_GROUPING_MISMATCH"
    case ARTIFACT_POSITION_MISMATCH => "ARTIFACT_POSITION_MISMATCH"
    case ARTIFACT_SIZE_MISMATCH => "ARTIFACT_SIZE_MISMATCH"
    case ARTIFACT_INTEGRITY_FAILURE => "ARTIFACT_INTEGRITY_FAILURE"
    case AMBIGUOUS_IDENTITY => "AMBIGUOUS_IDENTITY"
    case CONFLICTING_OBLIGATION => "CONFLICTING_OBLIGATION"
    case VISUAL_OBSERVATION_UNCERTAIN => "VISUAL_OBSERVATION_UNCERTAIN"
    case UNSUPPORTED_PRESENTATION_ASSERTION => "UNSUPPORTED_PRESENTATION_ASSERTION"
    case REQUIRED_EVIDENCE_UNAVAILABLE => "REQUIRED_EVIDENCE_UNAVAILABLE"
    case UNCONFIRMED_OBLIGATION => "UNCONFIRMED_OBLIGATION"
    case STALE_MANIFEST => "STALE_MANIFEST"
    case ARTIFACT_PENDING => "ARTIFACT_PENDING"
  }
}
