/** The deterministic gate fold. Issues enter it by their codes. */
module Gate {
  import opened Domain

  /** What one open issue contributes to the gate. */
  function Contribution(c: IssueCode): GateState {
    match c
    case MISSING_CREDIT => BLOCKED
    case ARTIFACT_TEXT_MISMATCH => BLOCKED
    case ARTIFACT_GROUPING_MISMATCH => BLOCKED
    case ARTIFACT_POSITION_MISMATCH => BLOCKED
    case ARTIFACT_SIZE_MISMATCH => BLOCKED
    case ARTIFACT_INTEGRITY_FAILURE => BLOCKED
    case AMBIGUOUS_IDENTITY => NEEDS_HUMAN
    case CONFLICTING_OBLIGATION => NEEDS_HUMAN
    case VISUAL_OBSERVATION_UNCERTAIN => NEEDS_HUMAN
    case UNSUPPORTED_PRESENTATION_ASSERTION => NEEDS_HUMAN
    case REQUIRED_EVIDENCE_UNAVAILABLE => DEGRADED
    case UNCONFIRMED_OBLIGATION => NEEDS_CONFIRMATION
    case STALE_MANIFEST => STALE
    case ARTIFACT_PENDING => STALE
  }

  /** Position in the precedence list; 0 is the highest precedence. */
  function Rank(s: GateState): nat {
    match s
    case DEGRADED => 0
    case BLOCKED => 1
    case NEEDS_HUMAN => 2
    case NEEDS_CONFIRMATION => 3
    case STALE => 4
    case READY_TO_EXPORT => 5
  }

  predicate Flagged(p: ProjectionStatus) {
    p.artifactPending || p.staleManifest
  }

  /** `g` is the highest-precedence contribution, or READY_TO_EXPORT when nothing contributes. */
  ghost predicate IsFold(g: GateState, codes: seq<IssueCode>, p: ProjectionStatus) {
    && (forall c :: c in codes ==> Rank(g) <= Rank(Contribution(c)))
    && (Flagged(p) ==> Rank(g) <= Rank(STALE))
    && ((exists c :: c in codes && g == Contribution(c))
        || (Flagged(p) && g == STALE)
        || (codes == [] && !Flagged(p) && g == READY_TO_EXPORT))
  }

  function Worse(a: GateState, b: GateState): GateState {
    if Rank(a) <= Rank(b) then a else b
  }

  /** The fold as a function of the codes and flags. */
  function Folded(codes: seq<IssueCode>, p: ProjectionStatus): GateState {
    if codes == [] then (if Flagged(p) then STALE else READY_TO_EXPORT)
    else Worse(Folded(codes[..|codes|-1], p), Contribution(codes[|codes|-1]))
  }

  /** The list the contributions are gathered into. */
  ghost predicate Gathered(states: seq<GateState>, codes: seq<IssueCode>, p: ProjectionStatus) {
    && |codes| <= |states|
    && (forall k :: 0 <= k < |codes| ==> states[k] == Contribution(codes[k]))
    && (forall k :: |codes| <= k < |states| ==> Flagged(p) && states[k] == STALE)
    && (Flagged(p) ==> |codes| < |states|)
  }

  lemma LeastIsFold(g: GateState, states: seq<GateState>, codes: seq<IssueCode>, p: ProjectionStatus)
    requires Gathered(states, codes, p)
    requires if states == [] then g == READY_TO_EXPORT else g in states
    requires forall k :: 0 <= k < |states| ==> Rank(g) <= Rank(states[k])
    ensures IsFold(g, codes, p)
  {
    if states != [] {
      var k :| 0 <= k < |states| && states[k] == g;
      if k < |codes| {
        assert codes[k] in codes;
      }
    }
    forall c | c in codes ensures Rank(g) <= Rank(Contribution(c)) {
      var i :| 0 <= i < |codes| && codes[i] == c;
      assert states[i] == Contribution(c);
    }
    if Flagged(p) {
      assert states[|codes|] == STALE;
    }
  }

  /** The contributions are gathered into a list, then the least by precedence is taken. */
  method FoldGate(codes: seq<IssueCode>, p: ProjectionStatus) returns (g: GateState)
    ensures IsFold(g, codes, p)
    ensures g == Folded(codes, p)
  {
    var states: seq<GateState> := [];
    for i := 0 to |codes|
      invariant |states| == i
      invariant forall k :: 0 <= k < i ==> states[k] == Contribution(codes[k])
    {
      states := states + [Contribution(codes[i])];
    }
    if p.artifactPending {
      states := states + [STALE];
    }
    if p.staleManifest {
      states := states + [STALE];
    }
    assert Gathered(states, codes, p);
    g := READY_TO_EXPORT;
    if states != [] {
      g := states[0];
      for i := 1 to |states|
        invariant g in states
        invariant forall k :: 0 <= k < i ==> Rank(g) <= Rank(states[k])
      {
        if Rank(states[i]) < Rank(g) {
          g := states[i];
        }
      }
    }
    LeastIsFold(g, states, codes, p);
    FoldedMeaning(codes, p);
    FoldUnique(g, Folded(codes, p), codes, p);
  }

  lemma FoldUnique(g: GateState, h: GateState, codes: seq<IssueCode>, p: ProjectionStatus)
    requires IsFold(g, codes, p) && IsFold(h, codes, p)
    ensures g == h
  {
  }

  lemma {:induction false} FoldedMeaning(codes: seq<IssueCode>, p: ProjectionStatus)
    ensures IsFold(Folded(codes, p), codes, p)
  {
    if codes != [] {
      var init, last := codes[..|codes|-1], codes[|codes|-1];
      FoldedMeaning(init, p);
      assert codes == init + [last];
      assert last in codes;
      assert forall c :: c in codes <==> c in init || c == last;
      if init == [] && !Flagged(p) {
        assert Folded(init, p) == READY_TO_EXPORT;
      }
    }
  }

  /** The gate opens exactly when no issue is open and no projection flag is set. */
  lemma ReadyIffNothingOpen(codes: seq<IssueCode>, p: ProjectionStatus)
    ensures Folded(codes, p) == READY_TO_EXPORT <==> codes == [] && !Flagged(p)
  {
    FoldedMeaning(codes, p);
    if codes != [] {
      assert codes[0] in codes;
    }
  }

  /** An issue that joins the open ones never raises the gate. */
  lemma FoldMonotone(a: seq<IssueCode>, b: seq<IssueCode>, p: ProjectionStatus)
    requires forall c :: c in a ==> c in b
    ensures Rank(Folded(b, p)) <= Rank(Folded(a, p))
  {
    FoldedMeaning(a, p);
    FoldedMeaning(b, p);
  }

  /** Only which codes are open matters: neither their order nor their number. */
  lemma FoldIgnoresOrder(a: seq<IssueCode>, b: seq<IssueCode>, p: ProjectionStatus)
    requires forall c :: c in a <==> c in b
    ensures Folded(a, p) == Folded(b, p)
  {
    FoldMonotone(a, b, p);
    FoldMonotone(b, a, p);
  }
}
