/** The proposal and confirmation endpoints: the guards in front of the store, and what a guarded confirmation achieves
    at export. */
module Resolutions {
  import opened Domain
  import opened Records
  import opened Checker
  import opened Authority
  import opened AuthorityProofs
  import opened Release
  import opened ProductionStore

  datatype Role = REVIEWER | RELEASE_APPROVER | OTHER_ROLE

  datatype Actor = Actor(role: Role, subject: string)

  datatype ApiError = Unauthorized | Forbidden | NotFound | BadRequest | Unprocessable | Conflict

  datatype ProposalRequest = ProposalRequest(issueId: IssueId, action: AuthorizationAction, reason: Text,
                                             selectedContributorId: Option<string>)

  /** Python's `s.strip()`. */
  function Strip(s: string): (r: string)
    ensures r == "" <==> Blank(s)
    ensures r != "" ==> !IsSpace(r[0]) && !IsSpace(r[|r|-1])
  {
    if s == "" then ""
    else if IsSpace(s[0]) then Strip(s[1..])
    else if IsSpace(s[|s|-1]) then Strip(s[..|s|-1])
    else s
  }

  function ActorError(a: Actor, required: Role): Option<ApiError> {
    if Blank(a.subject) then Some(Unauthorized) else if a.role != required then Some(Forbidden) else None
  }

  function RequestError(req: ProposalRequest): Option<ApiError> {
    if Blank(req.reason.normalForm) then Some(BadRequest)
    else if req.action in {WAIVE_OBLIGATION, CONFIRM_PRECEDENCE} then Some(BadRequest)
    else if req.action == CONFIRM_IDENTITY && (req.selectedContributorId.None? || Blank(req.selectedContributorId.value))
      then Some(Unprocessable)
    else None
  }

  // ---------------------------------------------------------------- the issue and the action

  function InputOf(p: Production): CheckerInput
    requires p.manifest.Some?
  {
    CheckerInput(p.obligations, p.manifest.value, p.layout, p.visual, p.registry, map[])
  }

  function FindIssue(issues: seq<Issue>, id: IssueId): (r: Option<Issue>)
    ensures r.Some? ==> r.value in issues && r.value.id == id
    ensures r.None? ==> forall i :: i in issues ==> i.id != id
  {
    if issues == [] then None
    else if issues[0].id == id then Some(issues[0])
    else FindIssue(issues[1..], id)
  }

  /** An ambiguity is answered by an identity, a flagged observation by a visual confirmation. */
  predicate ActionFits(code: IssueCode, action: AuthorizationAction) {
    && (code == AMBIGUOUS_IDENTITY ==> action == CONFIRM_IDENTITY)
    && (code == VISUAL_OBSERVATION_UNCERTAIN ==> action == CONFIRM_VISUAL)
  }

  function FindObligation(os: seq<Obligation>, id: string): (r: Option<Obligation>)
    ensures r.Some? ==> r.value in os && r.value.id == id
    ensures r.None? ==> forall o :: o in os ==> o.id != id
  {
    if os == [] then None
    else if os[0].id == id then Some(os[0])
    else FindObligation(os[1..], id)
  }

  /** The selected contributor is one that the obligation's free text names. */
  predicate Candidate(p: Production, issue: Issue, selected: Option<string>) {
    && issue.obligationId.Some? && issue.obligationId.value != ""
    && var o := FindObligation(p.obligations, issue.obligationId.value);
       o.Some? && HasObligee(o.value) && selected.Some?
       && selected.value in RegistryMatches(o.value.obligeeText.value, p.registry)
  }

  function Proposed(productionId: string, p: Production, proposer: string, req: ProposalRequest, id: string, now: string): Proposal
    requires Complete(p)
  {
    Proposal(id, productionId, req.issueId, proposer, req.action, Text(Strip(req.reason.normalForm), req.reason.spelling),
             req.selectedContributorId, CurrentHashes(p), now, Pending)
  }

  // ---------------------------------------------------------------- what the endpoints accept

  /** The finding that a request or a proposal names: the first of the first pass with that id. */
  function Target(p: Production, id: IssueId): Option<Issue>
    requires p.manifest.Some?
  {
    FindIssue(FirstPass(InputOf(p)), id)
  }

  /** The action fits an open first-pass finding. */
  predicate Answers(p: Production, id: IssueId, action: AuthorizationAction)
    requires p.manifest.Some?
  {
    Target(p, id).Some? && ActionFits(Target(p, id).value.code, action)
  }

  predicate Qualified(p: Production, req: ProposalRequest)
    requires p.manifest.Some? && Answers(p, req.issueId, req.action)
  {
    req.action == CONFIRM_IDENTITY ==> Candidate(p, Target(p, req.issueId).value, req.selectedContributorId)
  }

  predicate MayAct(a: Actor, required: Role, hasAccess: bool) {
    !Blank(a.subject) && a.role == required && hasAccess
  }

  /** A reason, an action that proposals know, and a contributor for an identity. */
  predicate WellFormed(req: ProposalRequest) {
    && !Blank(req.reason.normalForm) && req.action in {CONFIRM_IDENTITY, CONFIRM_VISUAL}
    && (req.action == CONFIRM_IDENTITY ==> req.selectedContributorId.Some? && !Blank(req.selectedContributorId.value))
  }

  /** A request is recorded exactly when all of this holds. */
  ghost predicate Recordable(entries: map<string, Entry>, productionId: string, req: ProposalRequest, actor: Actor,
                             hasAccess: bool) {
    && MayAct(actor, REVIEWER, hasAccess) && WellFormed(req)
    && productionId in entries
    && var p := entries[productionId].production;
       && p.manifest.Some? && Answers(p, req.issueId, req.action) && Qualified(p, req) && ValidEvidence(p)
  }

  /** The error of the first guard that fails. */
  ghost function RecordError(entries: map<string, Entry>, productionId: string, req: ProposalRequest, actor: Actor,
                             hasAccess: bool): ApiError
    requires !Recordable(entries, productionId, req, actor, hasAccess)
  {
    if Blank(actor.subject) then Unauthorized
    else if actor.role != REVIEWER || !hasAccess then Forbidden
    else if Blank(req.reason.normalForm) || req.action !in {CONFIRM_IDENTITY, CONFIRM_VISUAL} then BadRequest
    else if !WellFormed(req) then Unprocessable
    else if productionId !in entries then NotFound
    else
      var p := entries[productionId].production;
      if p.manifest.None? then Unprocessable
      else if !Answers(p, req.issueId, req.action) then BadRequest
      else if !Qualified(p, req) then Unprocessable
      else Conflict
  }

  /** The proposal is pending and still answers an open finding of valid evidence. */
  ghost predicate Confirmable(e: Entry, proposalId: string) {
    && e.production.manifest.Some? && ValidEvidence(e.production)
    && var at := IndexOf(e.proposals, proposalId);
       at.Some? && e.proposals[at.value].status == Pending
       && Answers(e.production, e.proposals[at.value].issueId, e.proposals[at.value].action)
  }

  /** Confirmed exactly when the approver is another identity, the proposal was made under the current hashes, and the
      resulting record is valid. */
  ghost predicate ByAnother(e: Entry, productionId: string, proposalId: string, actor: Actor, authId: string, now: string)
    requires Confirmable(e, proposalId)
  {
    var p := e.proposals[IndexOf(e.proposals, proposalId).value];
    && Strip(actor.subject) != p.proposerId && p.hashes == CurrentHashes(e.production)
    && ValidAuthorization(AuthorizationFor(p, productionId, Strip(actor.subject), authId, now))
  }

  // ---------------------------------------------------------------- the endpoints

  /** `id` is the fresh proposal id; `hasAccess` the outcome of the token's production check. */
  method RecordProposal(store: InMemoryProductionStore, productionId: string, req: ProposalRequest, actor: Actor,
                        hasAccess: bool, id: string, now: string) returns (r: Result<Proposal, ApiError>)
    modifies store
    ensures r.Ok? <==> Recordable(old(store.store), productionId, req, actor, hasAccess)
    ensures r.Err? ==> r.error == RecordError(old(store.store), productionId, req, actor, hasAccess)
    ensures r.Err? ==> store.Abstract() == old(store.Abstract())
    ensures r.Ok? ==> store.Abstract() == Step(old(store.Abstract()), Operation.SaveProposal(r.value))
    ensures r.Ok? ==> r.value == Proposed(productionId, old(store.store)[productionId].production, Strip(actor.subject), req,
                                          id, now)
  {
    var actorError := ActorError(actor, REVIEWER);
    if actorError.Some? {
      return Err(actorError.value);
    }
    if !hasAccess {
      return Err(Forbidden);
    }
    var requestError := RequestError(req);
    if requestError.Some? {
      return Err(requestError.value);
    }
    if productionId !in store.store {
      return Err(NotFound);
    }
    var p := store.store[productionId].production;
    if p.manifest.None? {
      return Err(Unprocessable);
    }
    var issues := EvaluateFindings(InputOf(p));
    var target := FindIssue(issues, req.issueId);
    if target.None? {
      return Err(BadRequest);
    }
    if !ActionFits(target.value.code, req.action) {
      return Err(BadRequest);
    }
    if req.action == CONFIRM_IDENTITY && !Candidate(p, target.value, req.selectedContributorId) {
      return Err(Unprocessable);
    }
    var hashes := ValidateArtifactEvidence(p);
    if hashes.Err? {
      return Err(Conflict);
    }
    var proposal := Proposed(productionId, p, Strip(actor.subject), req, id, now);
    var saved := store.SaveProposal(proposal);
    return Ok(proposal);
  }

  /** The checks that precede the store's own. */
  method CheckProposal(e: Entry, proposalId: string) returns (r: Result<Hashes, ApiError>)
    ensures r.Ok? <==> Confirmable(e, proposalId)
    ensures r.Ok? ==> r.value == CurrentHashes(e.production)
    ensures r.Err? ==> r.error == if e.production.manifest.None? then Unprocessable else Conflict
  {
    var (p, proposals) := (e.production, e.proposals);
    if p.manifest.None? {
      return Err(Unprocessable);
    }
    var issues := EvaluateFindings(InputOf(p));
    var at := InMemoryProductionStore.Find(proposals, proposalId);
    if at.None? || proposals[at.value].status != Pending {
      return Err(Conflict);
    }
    var proposal := proposals[at.value];
    var target := FindIssue(issues, proposal.issueId);
    if target.None? || !ActionFits(target.value.code, proposal.action) {
      return Err(Conflict);
    }
    var hashes := ValidateArtifactEvidence(p);
    return if hashes.Err? then Err(Conflict) else Ok(hashes.value);
  }

  /** What the store's own guards leave to refuse, once the endpoint's have passed. */
  lemma ConfirmationIff(s: State, productionId: string, proposalId: string, actor: Actor, authId: string, now: string)
    requires productionId in s.entries && Confirmable(s.entries[productionId], proposalId)
    ensures var e := s.entries[productionId];
            var c := Confirmation(s, productionId, proposalId, Strip(actor.subject), CurrentHashes(e.production), authId, now);
            var p := e.proposals[IndexOf(e.proposals, proposalId).value];
            && (c.Ok? <==> ByAnother(e, productionId, proposalId, actor, authId, now))
            && (c == Err(SameIdentity) <==> Strip(actor.subject) == p.proposerId)
            && c != Err(NoSuchProduction)
  {
  }

  method ConfirmProposal(store: InMemoryProductionStore, productionId: string, proposalId: string, actor: Actor,
                         hasAccess: bool, authId: string, now: string) returns (r: Result<Authorization, ApiError>)
    modifies store
    ensures r.Ok? <==>
            && MayAct(actor, RELEASE_APPROVER, hasAccess) && productionId in old(store.store)
            && Confirmable(old(store.store)[productionId], proposalId)
            && ByAnother(old(store.store)[productionId], productionId, proposalId, actor, authId, now)
    ensures r.Err? ==> r.error == ConfirmError(old(store.store), productionId, proposalId, actor, hasAccess)
    ensures r.Err? ==> store.Abstract() == old(store.Abstract())
    ensures r.Ok? ==> store.Abstract() == Step(old(store.Abstract()), Operation.ConfirmProposal(
                        productionId, proposalId, Strip(actor.subject),
                        CurrentHashes(old(store.store)[productionId].production), authId, now, NoFault))
    ensures r.Ok? ==> var e := old(store.store)[productionId];
                      r.value == AuthorizationFor(e.proposals[IndexOf(e.proposals, proposalId).value], productionId,
                                                  Strip(actor.subject), authId, now)
  {
    var actorError := ActorError(actor, RELEASE_APPROVER);
    if actorError.Some? {
      return Err(actorError.value);
    }
    if !hasAccess {
      return Err(Forbidden);
    }
    if productionId !in store.store {
      return Err(NotFound);
    }
    var hashes := CheckProposal(store.store[productionId], proposalId);
    if hashes.Err? {
      return Err(hashes.error);
    }
    ConfirmationIff(store.Abstract(), productionId, proposalId, actor, authId, now);
    var confirmed := store.ConfirmProposal(productionId, proposalId, Strip(actor.subject), hashes.value, authId, now, NoFault);
    if confirmed.Err? {
      return Err(if confirmed.error == NoSuchProduction then NotFound
                 else if confirmed.error == SameIdentity then Forbidden else Conflict);
    }
    return Ok(confirmed.value);
  }

  /** The error of the first guard that fails: only an approver who is the proposer is forbidden among the store's. */
  ghost function ConfirmError(entries: map<string, Entry>, productionId: string, proposalId: string, actor: Actor,
                              hasAccess: bool): ApiError {
    if Blank(actor.subject) then Unauthorized
    else if actor.role != RELEASE_APPROVER || !hasAccess then Forbidden
    else if productionId !in entries then NotFound
    else
      var e := entries[productionId];
      if e.production.manifest.None? then Unprocessable
      else if !Confirmable(e, proposalId) then Conflict
      else if Strip(actor.subject) == e.proposals[IndexOf(e.proposals, proposalId).value].proposerId then Forbidden
      else Conflict
  }

  // ---------------------------------------------------------------- what a guarded confirmation achieves

  /** The authorization is a confirmation of the proposal, under the production's current hashes. */
  ghost predicate Confirms(a: Authorization, p: Production, productionId: string, proposer: string, req: ProposalRequest)
    requires Complete(p)
  {
    exists id, now, approver, authId, at ::
      a == AuthorizationFor(Proposed(productionId, p, proposer, req, id, now), productionId, approver, authId, at)
  }

  /** A confirmed answer to an ambiguity binds the obligation, at the export of the same production, to the selected
      contributor, and that is one the obligation's text names, unless another valid record contradicts it. */
  lemma ConfirmedIdentityBinds(p: Production, productionId: string, proposer: string, req: ProposalRequest,
                               a: Authorization, auths: seq<Authorization>, i: Issue)
    requires Complete(p) && Confirms(a, p, productionId, proposer, req) && a in auths
    requires i in FirstPass(InputOf(p)) && i.id == req.issueId && i.code == AMBIGUOUS_IDENTITY
    requires ActionFits(i.code, req.action) && Candidate(p, i, req.selectedContributorId)
    requires !Conflicted(auths, CurrentHashes(p)) && req.selectedContributorId != Some("")
    ensures var bindings := IdentityBindings(InputOf(p), auths, CurrentHashes(p));
            && i.obligationId.value in bindings
            && Some(bindings[i.obligationId.value]) == req.selectedContributorId
            && exists o :: o in p.obligations && o.id == i.obligationId.value && o.obligeeText.Some?
                           && bindings[o.id] in RegistryMatches(o.obligeeText.value, p.registry)
  {
    var h := CurrentHashes(p);
    assert ConfirmsIdentity(a, h);
    BoundIffChosen(InputOf(p), auths, h, i);
    FindingsIdsAreStable(InputOf(p));
    var bindings := IdentityBindings(InputOf(p), auths, h);
    var raw := RawBindings(auths, h);
    var b :| b in auths && ConfirmsIdentity(b, h) && b.issueId == i.id && b.selectedContributorId.value == raw[i.id];
    assert !Contradict(a, b, h);
    var o := FindObligation(p.obligations, i.obligationId.value).value;
    assert o in p.obligations && o.id == i.obligationId.value;
  }

  /** A confirmed answer to a flagged observation closes it. */
  lemma ConfirmedVisualCloses(p: Production, productionId: string, proposer: string, req: ProposalRequest,
                              a: Authorization, auths: seq<Authorization>, i: Issue)
    requires Complete(p) && Confirms(a, p, productionId, proposer, req) && a in auths
    requires i.id == req.issueId && i.code == VISUAL_OBSERVATION_UNCERTAIN && ActionFits(i.code, req.action)
    ensures i !in OpenIssues(InputOf(p), auths, CurrentHashes(p))
  {
    var h := CurrentHashes(p);
    assert ConfirmsVisual(a, h);
    InStillOpen(SecondPass(InputOf(p), auths, h), VisualConfirmations(auths, h), i);
  }
}
