/** The authorization overlay of the export endpoint: identity bindings, cleared issues, and the two-pass
    evaluation that leads to the gate. */
module Authority {
  import opened Domain
  import opened Gate
  import opened Records
  import opened Checker

  // ---------------------------------------------------------------- what an authorization says

  predicate ConfirmsIdentity(a: Authorization, h: Hashes) {
    && a.action == CONFIRM_IDENTITY
    && a.selectedContributorId.Some? && a.selectedContributorId.value != ""
    && a.hashes == h
  }

  predicate ConfirmsVisual(a: Authorization, h: Hashes) {
    a.action == CONFIRM_VISUAL && a.hashes == h
  }

  /** Two valid records name different contributors for one issue. */
  predicate Contradict(a: Authorization, b: Authorization, h: Hashes) {
    && ConfirmsIdentity(a, h) && ConfirmsIdentity(b, h)
    && a.issueId == b.issueId && a.selectedContributorId != b.selectedContributorId
  }

  predicate Conflicted(auths: seq<Authorization>, h: Hashes) {
    exists a, b :: a in auths && b in auths && Contradict(a, b, h)
  }

  /** Issue id to chosen contributor; empty when any two valid records contradict each other. */
  function RawBindings(auths: seq<Authorization>, h: Hashes): map<IssueId, string> {
    if Conflicted(auths, h) then map[]
    else map a | a in auths && ConfirmsIdentity(a, h) :: a.issueId := a.selectedContributorId.value
  }

  lemma ConflictGrows(auths: seq<Authorization>, more: seq<Authorization>, h: Hashes)
    requires forall a :: a in auths ==> a in more
    ensures Conflicted(auths, h) ==> Conflicted(more, h)
  {
  }

  lemma RawBindingsOfAppend(auths: seq<Authorization>, a: Authorization, h: Hashes)
    requires !Conflicted(auths, h)
    ensures var raw, all := RawBindings(auths, h), auths + [a];
            if !ConfirmsIdentity(a, h) then !Conflicted(all, h) && RawBindings(all, h) == raw
            else if a.issueId in raw && raw[a.issueId] != a.selectedContributorId.value then Conflicted(all, h)
            else !Conflicted(all, h) && RawBindings(all, h) == raw[a.issueId := a.selectedContributorId.value]
  {
    var raw, all := RawBindings(auths, h), auths + [a];
    forall b ensures b in all <==> b in auths || b == a {
    }
    if ConfirmsIdentity(a, h) && a.issueId in raw && raw[a.issueId] != a.selectedContributorId.value {
      var b :| b in auths && ConfirmsIdentity(b, h) && b.issueId == a.issueId
               && b.selectedContributorId.value == raw[a.issueId];
      assert Contradict(a, b, h);
    } else {
      assert !Conflicted(all, h) by {
        if b, c :| b in all && c in all && Contradict(b, c, h) {
          assert b in auths || c in auths;
          assert !(b in auths && c in auths);
        }
      }
    }
  }

  method BuildIdentityBindings(auths: seq<Authorization>, h: Hashes) returns (byIssue: map<IssueId, string>)
    ensures byIssue == RawBindings(auths, h)
  {
    byIssue := map[];
    for i := 0 to |auths|
      invariant !Conflicted(auths[..i], h)
      invariant byIssue == RawBindings(auths[..i], h)
    {
      var a := auths[i];
      RawBindingsOfAppend(auths[..i], a, h);
      assert auths[..i+1] == auths[..i] + [a];
      if a.action != CONFIRM_IDENTITY || a.selectedContributorId.None? || a.selectedContributorId.value == "" {
        continue;
      }
      if a.hashes != h {
        continue;
      }
      var chosen := a.selectedContributorId.value;
      if a.issueId in byIssue && byIssue[a.issueId] != chosen {
        ConflictGrows(auths[..i+1], auths, h);
        return map[];
      }
      byIssue := byIssue[a.issueId := chosen];
    }
    assert auths[..|auths|] == auths;
  }

  // ---------------------------------------------------------------- bindings per obligation

  function AmbiguousId(obligationId: string): IssueId {
    StableIssueId(Some(obligationId), AMBIGUOUS_IDENTITY, "")
  }

  lemma AmbiguousIdInjective(a: string, b: string)
    requires AmbiguousId(a) == AmbiguousId(b)
    ensures a == b
  {
    var ra, rb := AmbiguousId(a).raw, AmbiguousId(b).raw;
    assert |a| == |b|;
    assert a == ra[..|a|] && b == rb[..|b|];
  }

  /** Issue ids of ambiguity findings are the stable ids of their obligations. */
  ghost predicate IdsAreStable(findings: seq<Issue>) {
    forall i :: i in findings && i.code == AMBIGUOUS_IDENTITY ==>
                  i.obligationId.Some? && i.id == AmbiguousId(i.obligationId.value)
  }

  function AmbiguousObligations(findings: seq<Issue>): set<string> {
    set i | i in findings && i.code == AMBIGUOUS_IDENTITY && i.obligationId.Some? :: i.obligationId.value
  }

  function BindingsFor(findings: seq<Issue>, raw: map<IssueId, string>): map<string, string> {
    map o | o in AmbiguousObligations(findings) && AmbiguousId(o) in raw :: raw[AmbiguousId(o)]
  }

  method AmbiguityMap(findings: seq<Issue>) returns (m: map<IssueId, string>)
    requires IdsAreStable(findings)
    ensures forall i :: i in m ==> i == AmbiguousId(m[i]) && m[i] in AmbiguousObligations(findings)
    ensures forall o :: o in AmbiguousObligations(findings) ==> AmbiguousId(o) in m && m[AmbiguousId(o)] == o
  {
    m := map[];
    for k := 0 to |findings|
      invariant forall i :: i in m ==> i == AmbiguousId(m[i]) && m[i] in AmbiguousObligations(findings)
      invariant forall j :: 0 <= j < k && findings[j].code == AMBIGUOUS_IDENTITY ==>
                              findings[j].id in m && m[findings[j].id] == findings[j].obligationId.value
    {
      var f := findings[k];
      assert f in findings;
      if f.code == AMBIGUOUS_IDENTITY && f.obligationId.Some? {
        if f.id in m {
          AmbiguousIdInjective(m[f.id], f.obligationId.value);
        }
        m := m[f.id := f.obligationId.value];
      }
    }
    forall o | o in AmbiguousObligations(findings) ensures AmbiguousId(o) in m && m[AmbiguousId(o)] == o {
      var i :| i in findings && i.code == AMBIGUOUS_IDENTITY && i.obligationId.Some? && i.obligationId.value == o;
      var j :| 0 <= j < |findings| && findings[j] == i;
    }
  }

  /** Export's loop; its conflict test cannot fire, because one obligation has one ambiguity issue id. */
  method BindObligations(findings: seq<Issue>, raw: map<IssueId, string>) returns (bindings: map<string, string>)
    requires IdsAreStable(findings)
    ensures bindings == BindingsFor(findings, raw)
  {
    var ambiguous := AmbiguityMap(findings);
    bindings := map[];
    var conflict := false;
    var todo := raw.Keys;
    while todo != {}
      invariant todo <= raw.Keys && !conflict
      invariant forall o :: o in bindings <==> o in AmbiguousObligations(findings) && AmbiguousId(o) in raw.Keys - todo
      invariant forall o :: o in bindings ==> bindings[o] == raw[AmbiguousId(o)]
      decreases |todo|
    {
      var i :| i in todo;
      todo := todo - {i};
      if i !in ambiguous {
        continue;
      }
      var o := ambiguous[i];
      forall p | AmbiguousId(p) == i ensures p == o { AmbiguousIdInjective(p, o); }
      if o in bindings && bindings[o] != raw[i] {
        conflict := true;
        break;
      }
      bindings := bindings[o := raw[i]];
    }
    if conflict {
      bindings := map[];
    }
  }

  // ---------------------------------------------------------------- open issues

  function VisualConfirmations(auths: seq<Authorization>, h: Hashes): set<IssueId> {
    set a | a in auths && ConfirmsVisual(a, h) :: a.issueId
  }

  predicate ClearedBy(i: Issue, confirmed: set<IssueId>) {
    i.code == VISUAL_OBSERVATION_UNCERTAIN && i.id in confirmed
  }

  function StillOpen(issues: seq<Issue>, confirmed: set<IssueId>): seq<Issue> {
    if issues == [] then []
    else
      var last := issues[|issues|-1];
      StillOpen(issues[..|issues|-1], confirmed) + IssueIf(!ClearedBy(last, confirmed), last)
  }

  method ResolveOpenIssues(issues: seq<Issue>, auths: seq<Authorization>, h: Hashes) returns (open: seq<Issue>)
    ensures open == StillOpen(issues, VisualConfirmations(auths, h))
  {
    var confirmed: set<IssueId> := {};
    for i := 0 to |auths|
      invariant confirmed == VisualConfirmations(auths[..i], h)
    {
      assert forall b :: b in auths[..i+1] <==> b in auths[..i] || b == auths[i];
      if ConfirmsVisual(auths[i], h) {
        confirmed := confirmed + {auths[i].issueId};
      }
    }
    assert auths[..|auths|] == auths;
    open := [];
    for i := 0 to |issues|
      invariant open == StillOpen(issues[..i], confirmed)
    {
      assert issues[..i+1][..i] == issues[..i];
      if !(issues[i].id in confirmed && issues[i].code == VISUAL_OBSERVATION_UNCERTAIN) {
        open := open + [issues[i]];
      }
    }
    assert issues[..|issues|] == issues;
  }

  // ---------------------------------------------------------------- the two-pass evaluation

  function FirstPass(inp: CheckerInput): seq<Issue> {
    Findings(inp.(bindings := map[]))
  }

  function IdentityBindings(inp: CheckerInput, auths: seq<Authorization>, h: Hashes): map<string, string> {
    BindingsFor(FirstPass(inp), RawBindings(auths, h))
  }

  function SecondPass(inp: CheckerInput, auths: seq<Authorization>, h: Hashes): seq<Issue> {
    Findings(inp.(bindings := IdentityBindings(inp, auths, h)))
  }

  function OpenIssues(inp: CheckerInput, auths: seq<Authorization>, h: Hashes): seq<Issue> {
    StillOpen(SecondPass(inp, auths, h), VisualConfirmations(auths, h))
  }

  function Codes(issues: seq<Issue>): seq<IssueCode> {
    seq(|issues|, i requires 0 <= i < |issues| => issues[i].code)
  }

  lemma {:induction false} ConcatIdsAreStable(lists: seq<seq<Issue>>)
    requires forall k :: 0 <= k < |lists| ==> IdsAreStable(lists[k])
    ensures IdsAreStable(Concat(lists))
  {
    if lists != [] {
      ConcatIdsAreStable(lists[..|lists|-1]);
      assert IdsAreStable(lists[|lists|-1]);
    }
  }

  lemma {:induction false} VisualIdsAreStable(vs: seq<VisualObservation>)
    ensures IdsAreStable(VisualIssues(vs))
  {
    if vs != [] {
      VisualIdsAreStable(vs[..|vs|-1]);
    }
  }

  lemma ObligationIdsAreStable(inp: CheckerInput, o: Obligation, layout: seq<LayoutAssertion>)
    ensures IdsAreStable(ObligationIssues(inp, o, layout))
  {
    forall i | i in ObligationIssues(inp, o, layout) && i.code == AMBIGUOUS_IDENTITY
      ensures i == NewIssue(AMBIGUOUS_IDENTITY, Some(o), {}, "")
    {
      ObligationIssueShape(inp, o, layout, i);
    }
  }

  lemma FindingsIdsAreStable(inp: CheckerInput)
    ensures IdsAreStable(Findings(inp))
  {
    if EvidenceBound(inp) {
      var layout := inp.layout.value.assertions;
      forall k | 0 <= k < |inp.obligations|
        ensures IdsAreStable(IssuesPerObligation(inp, inp.obligations, layout)[k])
      {
        ObligationIdsAreStable(inp, inp.obligations[k], layout);
      }
      ConcatIdsAreStable(IssuesPerObligation(inp, inp.obligations, layout));
      VisualIdsAreStable(inp.visual.value.observations);
    }
  }

  /** Bindings from a preliminary evaluation, then the evaluation that counts, the overlay and the fold. */
  method ExportEvaluation(inp: CheckerInput, auths: seq<Authorization>, h: Hashes, p: ProjectionStatus)
    returns (bindings: map<string, string>, open: seq<Issue>, gate: GateState)
    ensures bindings == IdentityBindings(inp, auths, h)
    ensures open == OpenIssues(inp, auths, h)
    ensures gate == Folded(Codes(open), p)
  {
    var raw := BuildIdentityBindings(auths, h);
    bindings := map[];
    if raw != map[] {
      var preliminary := EvaluateFindings(inp.(bindings := map[]));
      FindingsIdsAreStable(inp.(bindings := map[]));
      bindings := BindObligations(preliminary, raw);
    }
    var all := EvaluateFindings(inp.(bindings := bindings));
    open := ResolveOpenIssues(all, auths, h);
    gate := FoldGate(Codes(open), p);
  }
}
