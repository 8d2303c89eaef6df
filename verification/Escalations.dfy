/** Escalations (backend/escalation/service.py): opened for ledgered decisions that need a
    human, resolved only through an adjudication committed to the ledger first. */
module Escalations {
  import opened Options
  import opened Schema
  import opened Judgement
  import opened Precedence
  import opened Text
  import opened Evaluator
  import opened DecisionLaws
  import opened MissingFactRounds
  import opened Replay
  import opened LedgerEvents
  import opened LedgerStores
  import opened LedgerProtocol
  import opened LedgerService

  datatype EscalationStatus = Open | Resolved
  datatype ReasonKind =
    MissingFactsReason | NoMatchingPolicyReason | ConflictReason | PolicyDirected | AuthorityRequired
  datatype Detail =
    | NoDetail
    | MissingNames(names: seq<string>)
    | Between(ids: seq<string>)
    | Directed(action: Option<string>, policyId: Option<string>)
    | Approver(role: Option<string>, action: Option<string>, policyId: Option<string>)

  datatype Resolution = Resolution(chosenAction: string, outcomeKind: string, rationale: string, resolver: Actor,
                                   adjudicationEventId: string, resolvedAt: int, promotedToGolden: bool)
  datatype Escalation = Escalation(escalationId: string, companyId: string, workflow: string, decisionEventId: string,
                                   reason: ReasonKind, detail: Detail, status: EscalationStatus, createdAt: int,
                                   resolution: Option<Resolution>)

  /** Rows by (company, escalation), and the escalation of each (company, decision). */
  datatype Desk = Desk(rows: map<(string, string), Escalation>, byDecision: map<(string, string), string>)

  // ------------------------------------------------------------------ opening

  /** Why a ledgered outcome needs a human, if it does. */
  function ReasonFor(outcome: Ruled): Option<(ReasonKind, Detail)> {
    match outcome
    case ByHuman(kind, action, _) =>
      if kind == KindName(Escalate) then Some((PolicyDirected, Directed(Some(action), None))) else None
    case ByPolicy(o) =>
      if o.kind == Escalate then
        match o.reason
        case Some(MissingFacts) => Some((MissingFactsReason, MissingNames(o.missingFacts)))
        case Some(Conflict) => Some((ConflictReason, Between(o.conflictBetween)))
        case Some(NoMatchingPolicy) => Some((NoMatchingPolicyReason, NoDetail))
        case None => Some((PolicyDirected, Directed(o.action, o.policyId)))
      else if o.approvalRequired then Some((AuthorityRequired, Approver(o.approverRole, o.action, o.policyId)))
      else None
  }

  ghost predicate GovernedBy(lib: Lib, b: Bundle, workflow: string, e: map<string, Scalar>, p: Policy, v: Verdict) {
    Governs(lib, PoliciesFor(b.policies, workflow), e, p) && v.outcome == Decisive(p.id, p.effect, p.authority)
  }

  /** Nobody is asked when a governing policy rules by itself; a policy that needs approval is named with its
      role and action, and one that directs to a human with its action. */
  ghost predicate AskedByPolicy(lib: Lib, b: Bundle, workflow: string, e: map<string, Scalar>, v: Verdict,
                                why: Option<(ReasonKind, Detail)>) {
    && (why.None? <==>
        exists p :: GovernedBy(lib, b, workflow, e, p, v) && p.effect.kind != Escalate && !p.authority.approvalRequired)
    && (why.Some? && why.value.0 == AuthorityRequired <==>
        exists p :: GovernedBy(lib, b, workflow, e, p, v) && p.effect.kind != Escalate && p.authority.approvalRequired)
    && (why.Some? && why.value.0 == AuthorityRequired ==>
          exists p :: GovernedBy(lib, b, workflow, e, p, v)
                      && why.value.1 == Approver(p.authority.approverRole, Some(p.effect.action), Some(p.id)))
    && (why.Some? && why.value.0 == PolicyDirected <==>
        exists p :: GovernedBy(lib, b, workflow, e, p, v) && p.effect.kind == Escalate)
    && (why.Some? && why.value.0 == PolicyDirected ==>
          exists p :: GovernedBy(lib, b, workflow, e, p, v)
                      && why.value.1 == Directed(Some(p.effect.action), Some(p.id)))
  }

  /** Main result: what a human is asked about is what actually happened. Nobody is asked
      exactly when a governing policy rules by itself; a conflict names the tied policies; no
      match means that every policy failed; missing facts are absent ones. */
  lemma HumansAreAskedForTheRightReason(lib: Lib, facts: map<string, Json>, b: Bundle, workflow: string,
          w: WorkflowSpec)
    requires EvaluatesIn(lib, b, workflow, w, facts)
    ensures var ps := PoliciesFor(b.policies, workflow); var e := Effective(facts, w);
            var verdict := VerdictOn(lib, facts, b, workflow);
            verdict.Some? &&
            var o := verdict.value.outcome; var why := ReasonFor(ByPolicy(o));
            && AskedByPolicy(lib, b, workflow, e, verdict.value, why)
            && (why == Some((NoMatchingPolicyReason, NoDetail))
                <==> forall p :: p in ps ==> StatusOf(lib, p, e) == Failed)
            && (why.Some? && why.value.0 == ConflictReason <==> |Finalists(MatchedField(Ballots(lib, ps, e)))| > 1)
            && (why.Some? && why.value.0 == ConflictReason ==>
                  why.value.1 == Between(SortedSet(Ids(Finalists(MatchedField(Ballots(lib, ps, e)))))))
            && (why.Some? && why.value.0 == MissingFactsReason ==>
                  why.value.1 == MissingNames(o.missingFacts) && o.missingFacts != []
                  && forall x :: x in o.missingFacts ==> x in FactNames(w) && x !in e)
  {
    hide EvaluatesIn, Governs, StatusOf, Evaluate, Ballots, Effective;
    RulingsAreExplained(lib, facts, b, workflow, w);
    if Asks(lib, facts, b, workflow) { AsksForAbsentFacts(lib, facts, b, workflow, w); }
    var v := VerdictOn(lib, facts, b, workflow).value;
    if v.winner.Some? {
      var p :| Governs(lib, PoliciesFor(b.policies, workflow), Effective(facts, w), p) && v.winner == Some(p.id)
               && v.outcome == Decisive(p.id, p.effect, p.authority);
      assert GovernedBy(lib, b, workflow, Effective(facts, w), p, v);
    }
  }

  /** What the outcome is about to tell a human, field by field. */
  predicate ToldTo(outcome: Ruled, reason: ReasonKind, detail: Detail) {
    match outcome
    case ByHuman(kind, action, _) =>
      && kind == "escalate" && reason == PolicyDirected
      && detail.Directed? && detail.action == Some(action) && detail.policyId == None
    case ByPolicy(o) =>
      && (reason == AuthorityRequired <==> o.kind != Escalate)
      && (o.kind != Escalate ==>
            && o.approvalRequired && detail.Approver? && detail.role == o.approverRole
            && detail.action == o.action && detail.policyId == o.policyId)
      && (o.kind == Escalate ==>
            && (reason == MissingFactsReason <==> o.reason == Some(MissingFacts))
            && (reason == ConflictReason <==> o.reason == Some(Conflict))
            && (reason == NoMatchingPolicyReason <==> o.reason == Some(NoMatchingPolicy))
            && (reason == MissingFactsReason ==> detail.MissingNames? && detail.names == o.missingFacts)
            && (reason == ConflictReason ==> detail.Between? && detail.ids == o.conflictBetween)
            && (reason == NoMatchingPolicyReason ==> detail.NoDetail?)
            && (reason == PolicyDirected ==>
                  detail.Directed? && detail.action == o.action && detail.policyId == o.policyId))
  }

  /** Nobody is needed: the outcome is no escalation and, if a policy's, asks for no approval. */
  predicate NobodyNeeded(outcome: Ruled) {
    match outcome
    case ByHuman(kind, _, _) => kind != "escalate"
    case ByPolicy(o) => o.kind != Escalate && !o.approvalRequired
  }

  /** Main result: an outcome asks for a human or does not, and what it tells the human is fixed. */
  lemma ToldExactly(outcome: Ruled, reason: ReasonKind, detail: Detail)
    ensures ReasonFor(outcome) == None <==> NobodyNeeded(outcome)
    ensures ReasonFor(outcome) == Some((reason, detail)) <==> ToldTo(outcome, reason, detail)
  {
    if outcome.ByPolicy? && outcome.outcome.reason.Some? {
      match outcome.outcome.reason.value {
        case MissingFacts =>
        case NoMatchingPolicy =>
        case Conflict =>
      }
    }
  }

  /** The case opened for a ledgered event. */
  predicate OpenedFor(e: Event, id: string, now: int, esc: Escalation) {
    && esc.escalationId == id && esc.companyId == e.body.entry.companyId && esc.workflow == e.body.entry.workflow
    && esc.decisionEventId == e.body.id && esc.createdAt == now && esc.status == Open && esc.resolution == None
    && ToldTo(e.body.entry.outcome, esc.reason, esc.detail)
  }

  /** The case opened for an evaluator's ruling that needs approval, or that a policy directs to a human,
      names the role, the action and the id of a policy that governs. */
  lemma OpenedCaseNamesItsPolicy(lib: Lib, facts: map<string, Json>, b: Bundle, workflow: string, w: WorkflowSpec,
                                 event: Event, id: string, now: int, esc: Escalation)
    requires EvaluatesIn(lib, b, workflow, w, facts) && OpenedFor(event, id, now, esc)
    requires VerdictOn(lib, facts, b, workflow).Some?
             && event.body.entry.outcome == ByPolicy(VerdictOn(lib, facts, b, workflow).value.outcome)
    ensures var e := Effective(facts, w); var v := VerdictOn(lib, facts, b, workflow).value;
            && (esc.reason == AuthorityRequired ==>
                  exists p :: GovernedBy(lib, b, workflow, e, p, v)
                              && esc.detail == Approver(p.authority.approverRole, Some(p.effect.action), Some(p.id)))
            && (esc.reason == PolicyDirected ==>
                  exists p :: GovernedBy(lib, b, workflow, e, p, v)
                              && esc.detail == Directed(Some(p.effect.action), Some(p.id)))
  {
    hide EvaluatesIn, GovernedBy, ReasonFor, ToldTo, VerdictOn, StatusOf, Effective;
    HumansAreAskedForTheRightReason(lib, facts, b, workflow, w);
    ToldExactly(event.body.entry.outcome, esc.reason, esc.detail);
  }

  function Opened(e: Event, why: (ReasonKind, Detail), id: string, now: int): Escalation {
    Escalation(id, e.body.entry.companyId, e.body.entry.workflow, e.body.id, why.0, why.1, Open, now, None)
  }

  function RowKey(esc: Escalation): (string, string) { (esc.companyId, esc.escalationId) }
  function DecisionKey(esc: Escalation): (string, string) { (esc.companyId, esc.decisionEventId) }

  // ------------------------------------------------------------------ the desk

  ghost predicate RowOk(d: Desk, k: (string, string), esc: Escalation) {
    && RowKey(esc) == k && (esc.status == Resolved <==> esc.resolution.Some?)
    && DecisionKey(esc) in d.byDecision && d.byDecision[DecisionKey(esc)] == k.1
  }

  ghost predicate IndexOk(d: Desk, k: (string, string)) {
    k in d.byDecision ==> (k.0, d.byDecision[k]) in d.rows && d.rows[(k.0, d.byDecision[k])].decisionEventId == k.1
  }

  /** Both indexes agree, so a decision has at most one escalation; only resolved rows carry
      a resolution. */
  ghost predicate DeskOk(d: Desk) {
    (forall k :: k in d.rows ==> RowOk(d, k, d.rows[k])) && (forall k :: IndexOk(d, k))
  }

  predicate SameCase(a: Escalation, b: Escalation) {
    && a.escalationId == b.escalationId && a.companyId == b.companyId && a.workflow == b.workflow
    && a.decisionEventId == b.decisionEventId && a.reason == b.reason && a.detail == b.detail
       && a.createdAt == b.createdAt
  }

  /** Cases are never dropped or redirected, and a resolved one is never reopened. */
  ghost predicate DeskGrows(before: Desk, after: Desk) {
    forall k :: k in before.rows ==>
      k in after.rows && SameCase(before.rows[k], after.rows[k])
          && (before.rows[k].status == Resolved ==> after.rows[k].status == Resolved)
  }

  lemma OneEscalationPerDecision(d: Desk, company: string, i: string, j: string)
    requires DeskOk(d) && (company, i) in d.rows && (company, j) in d.rows
    requires d.rows[(company, i)].decisionEventId == d.rows[(company, j)].decisionEventId
    ensures i == j
  {
    assert RowOk(d, (company, i), d.rows[(company, i)]) && RowOk(d, (company, j), d.rows[(company, j)]);
  }

  function AddedTo(d: Desk, esc: Escalation): Escalation
    requires IndexOk(d, DecisionKey(esc))
  {
    if DecisionKey(esc) in d.byDecision then d.rows[(esc.companyId, d.byDecision[DecisionKey(esc)])] else esc
  }

  function AfterAdd(d: Desk, esc: Escalation): Desk {
    if DecisionKey(esc) in d.byDecision then d
    else Desk(d.rows[RowKey(esc) := esc], d.byDecision[DecisionKey(esc) := esc.escalationId])
  }

  function AfterUpdate(d: Desk, esc: Escalation): Desk {
    d.(rows := d.rows[RowKey(esc) := esc])
  }

  lemma AddKeeps(d: Desk, esc: Escalation)
    requires DeskOk(d) && RowKey(esc) !in d.rows && esc.status == Open && esc.resolution == None
    ensures DeskOk(AfterAdd(d, esc)) && DeskGrows(d, AfterAdd(d, esc))
  {
    assert IndexOk(d, DecisionKey(esc));
    if DecisionKey(esc) !in d.byDecision {
      var after := AfterAdd(d, esc);
      forall k | k in after.rows ensures RowOk(after, k, after.rows[k]) {
        if k != RowKey(esc) { assert RowOk(d, k, d.rows[k]); }
      }
      forall k ensures IndexOk(after, k) { assert IndexOk(d, k); }
    }
  }

  lemma AddedIsStored(d: Desk, esc: Escalation)
    requires DeskOk(d)
    ensures IndexOk(d, DecisionKey(esc))
    ensures var added := AddedTo(d, esc);
            && RowKey(added) in AfterAdd(d, esc).rows && AfterAdd(d, esc).rows[RowKey(added)] == added
            && DecisionKey(added) == DecisionKey(esc)
  {
    var k := DecisionKey(esc);
    assert IndexOk(d, k);
    if k in d.byDecision { assert RowOk(d, (k.0, d.byDecision[k]), d.rows[(k.0, d.byDecision[k])]); }
  }

  lemma UpdateKeeps(d: Desk, esc: Escalation)
    requires DeskOk(d) && RowKey(esc) in d.rows && SameCase(d.rows[RowKey(esc)], esc)
    requires esc.status == Resolved && esc.resolution.Some?
    ensures DeskOk(AfterUpdate(d, esc)) && DeskGrows(d, AfterUpdate(d, esc))
  {
    var after := AfterUpdate(d, esc);
    forall k | k in after.rows ensures RowOk(after, k, after.rows[k]) { assert RowOk(d, k, d.rows[k]); }
    forall k ensures IndexOk(after, k) { assert IndexOk(d, k); }
  }

  class EscalationStore {
    var rows: map<(string, string), Escalation>
    var byDecision: map<(string, string), string>

    constructor ()
      ensures State() == Desk(map[], map[]) && DeskOk(State())
    {
      rows, byDecision := map[], map[];
    }

    function State(): Desk
      reads this
    {
      Desk(rows, byDecision)
    }

    method Add(esc: Escalation) returns (r: Escalation)
      requires DeskOk(State()) && RowKey(esc) !in rows && esc.status == Open && esc.resolution == None
      modifies this
      ensures State() == AfterAdd(old(State()), esc)
      ensures old(IndexOk(State(), DecisionKey(esc))) && r == AddedTo(old(State()), esc)
      ensures DeskOk(State()) && DeskGrows(old(State()), State())
      ensures RowKey(r) in rows && rows[RowKey(r)] == r && DecisionKey(r) == DecisionKey(esc)
    {
      AddKeeps(State(), esc);
      AddedIsStored(State(), esc);
      var key := DecisionKey(esc);
      if key in byDecision { return rows[(esc.companyId, byDecision[key])]; }
      rows := rows[RowKey(esc) := esc];
      byDecision := byDecision[key := esc.escalationId];
      r := esc;
    }

    method Update(esc: Escalation)
      requires DeskOk(State()) && RowKey(esc) in rows && SameCase(rows[RowKey(esc)], esc)
      requires esc.status == Resolved && esc.resolution.Some?
      modifies this
      ensures State() == AfterUpdate(old(State()), esc) && DeskOk(State()) && DeskGrows(old(State()), State())
    {
      UpdateKeeps(State(), esc);
      rows := rows[RowKey(esc) := esc];
    }

    /** `by_decision`: the case of a decision, None only if there is none. */
    method ByDecision(company: string, decision: string) returns (r: Option<Escalation>)
      requires DeskOk(State())
      ensures r.Some? ==> RowKey(r.value) in rows && rows[RowKey(r.value)] == r.value
                          && DecisionKey(r.value) == (company, decision)
      ensures r.None? ==> forall k :: k in rows ==> DecisionKey(rows[k]) != (company, decision)
    {
      assert IndexOk(State(), (company, decision));
      forall k | k in rows ensures RowOk(State(), k, rows[k]) { }
      r := if (company, decision) in byDecision then Some(rows[(company, byDecision[(company, decision)])]) else None;
    }
  }

  // ------------------------------------------------------------------ resolving

  function AdjudicationKey(escalationId: string): string {
    "adjudication:" + escalationId
  }

  datatype ResolveResult =
    | Settled(escalation: Escalation)
    | UnknownEscalation
    | AlreadyResolved
    | DecisionMissing
    | NotLedgered(answer: Answer)
    | PromotionFailed(event: Event)

  function Resolving(esc: Escalation, resolution: Resolution): Escalation {
    esc.(status := Resolved, resolution := Some(resolution))
  }

  /** The write-ahead rule: the resolution names an event of the ledger, stored under the
      escalation's own adjudication key. */
  ghost predicate NamesLedgered(l: Ledger, esc: Escalation) {
    esc.resolution.Some? && exists e :: Adjudicates(l, esc, e) && e.body.id == esc.resolution.value.adjudicationEventId
  }

  ghost predicate Adjudicates(l: Ledger, esc: Escalation, e: Event) {
    e in StreamOf(l, esc.companyId) && KeyOf(e) == (esc.companyId, AdjudicationKey(esc.escalationId))
  }

  /** A decision recorded under a case's adjudication key is what a later ruling on that case
      would return, so the case would be resolved by an event that is no adjudication. */
  lemma TakenKeyNamesTheDecision(digest: Digest, l: Ledger, company: string, id: string, original: Event,
                                 resolver: Actor, action: string, kind: string, rationale: string, ticks: seq<Tick>)
    requires ticks != [] && (company, AdjudicationKey(id)) in l.byKey
    requires l.byKey[(company, AdjudicationKey(id))].body.entry.eventType == DecisionType
    ensures var a := Attempts(digest, l,
            AdjudicationEntry(company, original, resolver, action, kind, rationale, AdjudicationKey(id)), ticks).0;
            a.Recorded? && !a.created && a.event.body.entry.eventType == DecisionType
  {
    EarlierEventWins(digest, l, AdjudicationEntry(company, original, resolver, action, kind, rationale,
        AdjudicationKey(id)), ticks);
  }

  /** What a person decides about a case. */
  datatype Words = Words(action: string, kind: string, rationale: string, resolver: Actor)

  function WordsOf(r: Resolution): Words {
    Words(r.chosenAction, r.outcomeKind, r.rationale, r.resolver)
  }

  function EntryOf(company: string, original: Event, w: Words, id: string): Entry {
    AdjudicationEntry(company, original, w.resolver, w.action, w.kind, w.rationale, AdjudicationKey(id))
  }

  /** The ledgered event says these words, in this person's name. */
  predicate Says(e: Event, w: Words) {
    e.body.entry.outcome == ByHuman(w.kind, w.action, w.rationale) && e.body.entry.actor == w.resolver
  }

  /** Main result: a ruling that is recorded while nobody else writes under its key is what the ledger
      says if and only if the key was free before the call or already held the same words. */
  lemma LedgerSaysExactly(digest: Digest, l: Ledger, company: string, id: string, original: Event, w: Words,
                          ticks: seq<Tick>)
    requires KeyUndisturbed(ticks, (company, AdjudicationKey(id)))
    requires Attempts(digest, l, EntryOf(company, original, w, id), ticks).0.Recorded?
    ensures var k := (company, AdjudicationKey(id));
            Says(Attempts(digest, l, EntryOf(company, original, w, id), ticks).0.event, w) <==>
            k !in l.byKey || Says(l.byKey[k], w)
  {
    CreatesExactlyOnFreeKey(digest, l, EntryOf(company, original, w, id), ticks);
  }

  class EscalationService {
    const store: EscalationStore
    const decisions: DecisionService

    constructor (store: EscalationStore, decisions: DecisionService)
      ensures this.store == store && this.decisions == decisions
    {
      this.store, this.decisions := store, decisions;
    }

    /** `open_for`: an escalation exactly when the outcome escalates or needs approval. */
    method OpenFor(event: Event, freshId: string, now: int) returns (r: Option<Escalation>)
      requires DeskOk(store.State()) && (event.body.entry.companyId, freshId) !in store.rows
      modifies store
      ensures r.None? <==> ReasonFor(event.body.entry.outcome).None?
      ensures r.None? ==> store.State() == old(store.State())
      ensures r.Some? ==>
                store.State() == AfterAdd(old(store.State()),
                                          Opened(event, ReasonFor(event.body.entry.outcome).value, freshId, now))
      ensures r.Some? ==> RowKey(r.value) in store.rows && store.rows[RowKey(r.value)] == r.value &&
                          DecisionKey(r.value) == IdOf(event)
      ensures r.None? <==> NobodyNeeded(event.body.entry.outcome)
      ensures r.Some? && IdOf(event) !in old(store.byDecision) ==>
                && OpenedFor(event, freshId, now, r.value)
                && store.rows == old(store.rows)[(event.body.entry.companyId, freshId) := r.value]
      ensures r.Some? && IdOf(event) in old(store.byDecision) ==>
                var k := (event.body.entry.companyId, old(store.byDecision)[IdOf(event)]);
                k in old(store.rows) && r.value == old(store.rows)[k] && store.State() == old(store.State())
      ensures DeskOk(store.State()) && DeskGrows(old(store.State()), store.State())
    {
      var why := ReasonFor(event.body.entry.outcome);
      ToldExactly(event.body.entry.outcome, PolicyDirected, NoDetail);
      if why.None? { return None; }
      ToldExactly(event.body.entry.outcome, why.value.0, why.value.1);
      var esc := store.Add(Opened(event, why.value, freshId, now));
      r := Some(esc);
    }

    /** An open case whose decision the ledger knows. */
    ghost predicate Actionable(company: string, id: string)
      reads store, decisions.store
    {
      && (company, id) in store.rows && store.rows[(company, id)].status == Open
      && (company, store.rows[(company, id)].decisionEventId) in decisions.store.byId
    }

    /** The ruling that resolving an actionable case would put on the ledger. */
    ghost function RulingEntry(company: string, id: string, resolver: Actor, action: string, kind: string,
                               rationale: string): Entry
      requires Actionable(company, id)
      reads store, decisions.store
    {
      AdjudicationEntry(company, decisions.store.byId[(company, store.rows[(company, id)].decisionEventId)],
                        resolver, action, kind, rationale, AdjudicationKey(id))
    }

    /** `resolve`; `promotionFails` says whether the golden-set callback would raise. */
    method Resolve(company: string, id: string, resolver: Actor, action: string, kind: string, rationale: string,
                   promote: bool, promotionFails: bool, ticks: seq<Tick>, now: int) returns (r: ResolveResult)
      requires DeskOk(store.State()) && LedgerOk(decisions.store.digest, decisions.store.State())
               && |ticks| == MAX_ATTEMPTS
      modifies store, decisions.store
      ensures r.UnknownEscalation? <==> (company, id) !in old(store.rows)
      ensures r.AlreadyResolved? <==> (company, id) in old(store.rows)
                                      && old(store.rows)[(company, id)].status == Resolved
      ensures r.DecisionMissing? ==> forall e :: e in StreamOf(old(decisions.store.State()), company) ==>
                                                  e.body.id != old(store.rows)[(company, id)].decisionEventId
      ensures r.Settled? ==>
                && (company, id) in old(store.rows)
                && store.State() == AfterUpdate(old(store.State()), r.escalation)
                && store.rows == old(store.rows)[(company, id) := r.escalation]
                && store.byDecision == old(store.byDecision)
                && SameCase(old(store.rows)[(company, id)], r.escalation) && r.escalation.status == Resolved
                && NamesLedgered(decisions.store.State(), r.escalation)
      ensures r.Settled? ==>
                r.escalation.resolution == Some(Resolution(action, kind, rationale, resolver,
                                                           r.escalation.resolution.value.adjudicationEventId,
                                                           now, promote))
      ensures r.PromotionFailed? ==> promote && promotionFails && KeyOf(r.event) == (company, AdjudicationKey(id))
      ensures !r.Settled? ==> store.State() == old(store.State())
      ensures old(Actionable(company, id)) && !IsBlank(rationale) ==>
                var out := Attempts(decisions.store.digest, old(decisions.store.State()),
                                    old(RulingEntry(company, id, resolver, action, kind, rationale)), ticks);
                && decisions.store.State() == out.1
                && (if !out.0.Recorded? then r == NotLedgered(out.0)
                    else if promote && promotionFails then r == PromotionFailed(out.0.event)
                    else r.Settled? && r.escalation.resolution.value.adjudicationEventId == out.0.event.body.id)
      ensures r.Settled? ==>
                var key := (company, "adjudication:" + id);
                && key in decisions.store.byKey
                && decisions.store.byKey[key].body.id == r.escalation.resolution.value.adjudicationEventId
                && (KeyUndisturbed(ticks, key) ==>
                    var words := Words(action, kind, rationale, resolver);
                    (Says(decisions.store.byKey[key], words) <==>
                     key !in old(decisions.store.byKey) || Says(old(decisions.store.byKey)[key], words)))
      ensures !(old(Actionable(company, id)) && !IsBlank(rationale))
              ==> decisions.store.State() == old(decisions.store.State())
      ensures DeskOk(store.State()) && DeskGrows(old(store.State()), store.State())
      ensures Grows(old(decisions.store.State()), decisions.store.State())
    {
      hide Attempts, ChainOk;
      if (company, id) !in store.rows { return UnknownEscalation; }
      var esc := store.rows[(company, id)];
      assert RowOk(store.State(), (company, id), esc);
      if esc.status == Resolved { return AlreadyResolved; }
      var original := decisions.store.Get(company, esc.decisionEventId);
      if original.None? { return DecisionMissing; }
      var a := decisions.RecordAdjudication(company, original.value, resolver, action, kind, rationale,
          AdjudicationKey(id), ticks);
      if !a.Recorded? { return NotLedgered(a); }
      assert RowOk(old(store.State()), (company, id), esc);
      assert Adjudicates(decisions.store.State(), esc, a.event);
      if promote && promotionFails { return PromotionFailed(a.event); }
      var settled := Resolving(esc, Resolution(action, kind, rationale, resolver, a.event.body.id, now, promote));
      if KeyUndisturbed(ticks, (company, AdjudicationKey(id))) {
        LedgerSaysExactly(decisions.store.digest, old(decisions.store.State()), company, id, original.value,
                          Words(action, kind, rationale, resolver), ticks);
      }
      store.Update(settled);
      r := Settled(settled);
    }
  }
}
