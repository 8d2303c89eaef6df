/** What every adjudication in the ledger rules on: a decision in the same ledger, whose workflow, facts and
    bundle it keeps. */
module Adjudications {
  import opened Options
  import opened Schema
  import opened Evaluator
  import opened Lifecycle
  import opened LedgerEvents
  import opened LedgerStores
  import opened LedgerProtocol
  import opened Escalations
  import opened Governance

  /** The entry is a human's ruling on this recorded decision. */
  predicate RulesOnDecision(e: Entry, o: Event) {
    && o.body.entry.eventType == DecisionType && e.companyId == o.body.entry.companyId
    && e.workflow == o.body.entry.workflow && e.facts == o.body.entry.facts
    && e.bundleHash == o.body.entry.bundleHash && e.linked == Some(o.body.id)
    && e.outcome.ByHuman? && e.trace == Adjudicated(o.body.id, o.body.entry.outcome)
  }

  ghost predicate Continues(l: Ledger, e: Entry) {
    exists o :: o in StreamOf(l, e.companyId) && RulesOnDecision(e, o)
  }

  ghost predicate CallsContinue(l: Ledger, calls: map<nat, Call>) {
    forall n :: n in calls && calls[n].entry.eventType == AdjudicationType ==> Continues(l, calls[n].entry)
  }

  lemma ContinuesStays(l: Ledger, m: Ledger, e: Entry)
    requires Continues(l, e) && Grows(l, m)
    ensures Continues(m, e)
  {
    var o :| o in StreamOf(l, e.companyId) && RulesOnDecision(e, o);
    GrowsKeeps(l, m, e.companyId, o);
  }

  /** The decision a case is about is the one stored under its id. */
  lemma StoredDecision(env: Env, s: State, k: (string, string))
    requires GovOk(env, s) && k in s.desk.rows && (k.0, s.desk.rows[k].decisionEventId) in s.system.ledger.byId
    ensures var o := s.system.ledger.byId[(k.0, s.desk.rows[k].decisionEventId)];
            && o in StreamOf(s.system.ledger, k.0) && o.body.entry.eventType == DecisionType
            && o.body.id == s.desk.rows[k].decisionEventId && o.body.entry.companyId == k.0
  {
    hide RegistryOk, BundlesValid, RunsGenuine, CallsLawful, CasesOk, ChainOk;
    var esc := s.desk.rows[k];
    assert RowOk(s.desk, k, esc);
    assert Grounded(s.system.ledger, esc);
    var e :| e in StreamOf(s.system.ledger, esc.companyId) && DecisionOf(esc, e);
    assert Filed(s.system.ledger, esc.companyId, e);
  }

  lemma ResolveContinues(env: Env, s: State, a: Act, t: State)
    requires GovOk(env, s) && a.StartResolve? && Next(env, s, a, t)
    ensures t.system.ledger == s.system.ledger && a.n in t.system.calls
    ensures t.system.calls == s.system.calls[a.n := t.system.calls[a.n]]
    ensures Continues(t.system.ledger, t.system.calls[a.n].entry)
  {
    hide GovOk, IsBlank;
    StoredDecision(env, s, (a.company, a.id));
    var o := s.system.ledger.byId[(a.company, s.desk.rows[(a.company, a.id)].decisionEventId)];
    assert RulesOnDecision(t.system.calls[a.n].entry, o);
  }

  /** No other act puts an adjudication on its way. */
  lemma OthersContinue(env: Env, s: State, a: Act, t: State)
    requires CallsContinue(s.system.ledger, s.system.calls) && Next(env, s, a, t) && !a.LedgerStep? && !a.StartResolve?
    ensures CallsContinue(t.system.ledger, t.system.calls)
  {
    hide Continues, Evaluate, RegistryStep, RunsStep, CaseOpens, ResolveFinishes, PromotionFails;
    if a.OpenCase? { OpeningIsQuiet(s, t, a); }
    if a.FinishResolve? || a.PromotionRaises? { EndingIsQuiet(s, t, a); }
  }

  lemma OpeningIsQuiet(s: State, t: State, a: Act)
    requires a.OpenCase? && CaseOpens(s, t, a)
    ensures t.system == s.system
  {
  }

  lemma EndingIsQuiet(s: State, t: State, a: Act)
    requires (a.FinishResolve? && ResolveFinishes(s, t, a)) || (a.PromotionRaises? && PromotionFails(s, t, a))
    ensures t.system == s.system
  {
  }

  lemma StepContinues(env: Env, s: State, a: Act, t: State)
    requires GovOk(env, s) && CallsContinue(s.system.ledger, s.system.calls) && Next(env, s, a, t)
    ensures CallsContinue(t.system.ledger, t.system.calls)
  {
    hide GovOk, Continues, Next, Take;
    if a.LedgerStep? {
      LedgerStepIs(env, s, a, t);
      NextKeeps(env, s, a, t);
      StepKeepsEntries(env.digest, s.system, a.a);
      forall n | n in t.system.calls && t.system.calls[n].entry.eventType == AdjudicationType
        ensures Continues(t.system.ledger, t.system.calls[n].entry)
      {
        ContinuesStays(s.system.ledger, t.system.ledger, t.system.calls[n].entry);
      }
    } else if a.StartResolve? {
      ResolveContinues(env, s, a, t);
    } else {
      OthersContinue(env, s, a, t);
    }
  }

  lemma LedgerStepIs(env: Env, s: State, a: Act, t: State)
    requires a.LedgerStep? && Next(env, s, a, t)
    ensures !a.a.Begin? && t.system == Take(env.digest, s.system, a.a)
  {
  }

  lemma {:induction false} RunContinues(env: Env, states: seq<State>, acts: seq<Act>, i: nat)
    requires Run(env, states, acts) && i <= |acts|
    ensures CallsContinue(states[i].system.ledger, states[i].system.calls)
  {
    hide Next, GovOk;
    if i > 0 {
      RunContinues(env, states, acts, i - 1);
      EveryRunIsGoverned(env, states, acts, i - 1);
      StepContinues(env, states[i - 1], acts[i - 1], states[i]);
    }
  }

  /** Main result: in every run, each ADJUDICATION event is a human's ruling on a DECISION event of the same
      stream, linked to it and with its workflow, its facts, its bundle hash and its outcome on record. */
  lemma AdjudicationsKeepTheDecision(env: Env, states: seq<State>, acts: seq<Act>, company: string, e: Event)
    returns (o: Event)
    requires Run(env, states, acts) && e in StreamOf(states[|acts|].system.ledger, company)
    requires e.body.entry.eventType == AdjudicationType
    ensures o in StreamOf(states[|acts|].system.ledger, company) && RulesOnDecision(e.body.entry, o)
  {
    hide Next, RegistryOk, BundlesValid, RunsGenuine, DeskOk, RowsGrounded, CasesOk;
    var s := states[|acts|];
    EveryRunIsGoverned(env, states, acts, |acts|);
    RunContinues(env, states, acts, |acts|);
    EventIsLawful(env, s, company, e);
    var n := EventHasCreator(env.digest, s.system, company, e);
    assert Continues(s.system.ledger, e.body.entry);
    o :| o in StreamOf(s.system.ledger, e.body.entry.companyId) && RulesOnDecision(e.body.entry, o);
  }
}
