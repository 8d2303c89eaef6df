/** The decision endpoint (backend/v1_api.py): active bundle, decide, then open or look up the
    escalation. */
module DecisionApi {
  import opened Options
  import opened Schema
  import opened Evaluator
  import opened Canonical
  import opened Replay
  import opened Lifecycle
  import opened LedgerEvents
  import opened LedgerStores
  import opened LedgerProtocol
  import opened LedgerService
  import opened Escalations

  datatype Response =
    | NoPublishedBundle
    | Failure(answer: Answer)
    | Decided(event: Event, created: bool, escalation: Option<Escalation>)

  /** A new decision carries the active bundle's address and that bundle's ruling, and has an
      escalation exactly when its outcome needs a human; a repeated one is answered with the
      stored event and whatever escalation it has. */
  method EvaluateDecision(lib: Lib, ghost content: Content -> string, ghost runs: Runs, bundles: BundleStore,
                          decisions: DecisionService, escalations: EscalationService,
                          company: string, workflow: string, facts: map<string, Json>, actor: Actor, key: string,
                          ticks: seq<Tick>, freshId: string, now: int) returns (r: Response)
    requires RegistryOk(content, runs, bundles.State())
             && (forall k :: k in bundles.rows ==> ValidBundle(bundles.rows[k].bundle))
    requires LedgerOk(decisions.store.digest, decisions.store.State()) && DeskOk(escalations.store.State())
    requires (forall c :: (c, freshId) !in escalations.store.rows) && |ticks| == MAX_ATTEMPTS
    modifies decisions.store, escalations.store
    ensures r.NoPublishedBundle? <==> ActiveOf(bundles.State(), company).None?
    ensures !r.Decided? ==> escalations.store.State() == old(escalations.store.State())
    ensures ActiveOf(bundles.State(), company).Some? && (company, key) in old(decisions.store.byKey) ==>
              r.Decided? && !r.created && r.event == old(decisions.store.byKey)[(company, key)]
    ensures ActiveOf(bundles.State(), company).Some? && (company, key) !in old(decisions.store.byKey) ==>
              var ruling := Evaluate(lib, facts, ActiveOf(bundles.State(), company).value.bundle, workflow);
              !ruling.Ruling? ==> r == Failure(NotEvaluated(ruling))
                                  && decisions.store.State() == old(decisions.store.State())
    ensures ActiveOf(bundles.State(), company).Some? && (company, key) !in old(decisions.store.byKey) ==>
              var active := ActiveOf(bundles.State(), company).value;
              var ruling := Evaluate(lib, facts, active.bundle, workflow);
              ruling.Ruling? ==>
                var out := Attempts(decisions.store.digest, old(decisions.store.State()),
                                    DecisionEntry(company, workflow, facts, actor, key, ruling, active.contentHash),
                                    ticks);
                && decisions.store.State() == out.1
                && (if out.0.Recorded? then r.Decided? && r.event == out.0.event && r.created == out.0.created
                    else r == Failure(out.0))
    ensures r.Decided? && r.created ==>
              var active := ActiveOf(bundles.State(), company).value;
              var ruling := Evaluate(lib, facts, active.bundle, workflow);
              ruling.Ruling?
              && RecordsDecision(r.event.body, company, workflow, facts, actor, key, ruling, active.contentHash)
    ensures r.Decided? && r.created && r.escalation.Some? && IdOf(r.event) !in old(escalations.store.byDecision) ==>
              OpenedFor(r.event, freshId, now, r.escalation.value)
    ensures r.Decided? && r.created ==>
              var active := ActiveOf(bundles.State(), company).value;
              var ruling := Evaluate(lib, facts, active.bundle, workflow);
              && ruling.Ruling?
              && r.event.body.entry == DecisionEntry(company, workflow, facts, actor, key, ruling, active.contentHash)
              && (r.escalation.Some? <==> ReasonFor(ByPolicy(ruling.outcome)).Some?)
    ensures r.Decided? ==> (company, key) in decisions.store.byKey && decisions.store.byKey[(company, key)] == r.event
    ensures r.Decided? && r.escalation.Some? ==>
              RowKey(r.escalation.value) in escalations.store.rows
                  && escalations.store.rows[RowKey(r.escalation.value)] == r.escalation.value
              && DecisionKey(r.escalation.value) == (r.event.body.entry.companyId, r.event.body.id)
    ensures r.Decided? && r.escalation.None? && !r.created ==>
              forall k :: k in escalations.store.rows
                  ==> DecisionKey(escalations.store.rows[k]) != (company, r.event.body.id)
    ensures DeskGrows(old(escalations.store.State()), escalations.store.State())
    ensures Grows(old(decisions.store.State()), decisions.store.State())
  {
    hide LedgerOk, DeskOk, RegistryOk, ValidBundle, Evaluate, Attempts, Crowd, Indexed;
    var active := ActiveOf(bundles.State(), company);
    if active.None? { return NoPublishedBundle; }
    var a := decisions.Decide(lib, company, workflow, facts, actor, key, active.value.bundle, active.value.contentHash,
        ticks);
    if !a.Recorded? { return Failure(a); }
    if a.created {
      var escalation := escalations.OpenFor(a.event, freshId, now);
      r := Decided(a.event, true, escalation);
    } else {
      assert KeyOf(a.event) == (company, key);
      var escalation := escalations.store.ByDecision(company, a.event.body.id);
      r := Decided(a.event, false, escalation);
    }
  }
}
