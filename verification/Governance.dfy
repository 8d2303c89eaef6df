/** The whole governed system as one state machine: the bundle registry and its replay runs,
    the ledger under concurrent decisions and adjudications, and the escalation desk.
    Lifecycle operations are atomic steps; every ledger call is interleaved step by step. */
module Governance {
  import opened Options
  import opened Schema
  import opened Evaluator
  import opened Likeness
  import opened Canonical
  import opened Replay
  import opened Lifecycle
  import opened LedgerEvents
  import opened LedgerStores
  import opened LedgerProtocol
  import opened LedgerService
  import opened Escalations

  /** What the code takes from outside: library functions and the hashes. */
  datatype Env = Env(lib: Lib, content: Content -> string, cases: CaseDigest, digest: Digest)

  /** A `resolve` in flight: the escalation as it was read, and the ruling. */
  datatype Case = Case(escalation: Escalation, action: string, kind: string, rationale: string, resolver: Actor,
                       promote: bool)

  function Spoken(c: Case): Words {
    Words(c.action, c.kind, c.rationale, c.resolver)
  }

  datatype State = State(registry: Registry, runs: Runs, system: System, desk: Desk, resolving: map<nat, Case>)

  datatype Act =
    | SaveDraft(company: string, bundle: Bundle, who: string, id: string, now: int)
    | RunReplay(company: string, candidate: string, withReference: bool, golden: seq<GoldenCase>, id: string, now: int)
    | Acknowledge(company: string, runId: string, who: string)
    | Publish(company: string, id: string, who: string, now: int)
    | Activate(company: string, id: string)
    | StartDecide(n: nat, company: string, workflow: string, facts: map<string, Json>, actor: Actor, key: string)
    | LedgerStep(a: Action)
    | OpenCase(n: nat, id: string, now: int)
    | StartResolve(n: nat, company: string, id: string, resolver: Actor, action: string, kind: string,
                   rationale: string, promote: bool)
    | PromotionRaises(n: nat)
    | FinishResolve(n: nat, now: int)

  const INITIAL: State := State(Registry(map[], map[]), map[], EMPTY, Desk(map[], map[]), map[])

  /** What `decide` would record; a request that does not evaluate records nothing. */
  ghost function ProposedEntry(env: Env, active: BundleRecord, workflow: string, facts: map<string, Json>,
                               actor: Actor, key: string): Entry {
    var r := Evaluate(env.lib, facts, active.bundle, workflow);
    if r.Ruling? then DecisionEntry(active.companyId, workflow, facts, actor, key, r, active.contentHash)
    else Entry(DecisionType, active.companyId, workflow, actor, key, facts, ByHuman("", "", ""),
        Adjudicated("", ByHuman("", "", "")),
               active.contentHash, None)
  }

  ghost predicate DecideStarts(env: Env, s: State, t: State, a: Act)
    requires a.StartDecide?
  {
    var active := ActiveOf(s.registry, a.company);
    && a.n !in s.system.calls && active.Some?
    && t == s.(system := Take(env.digest, s.system,
                              Begin(a.n, ProposedEntry(env, active.value, a.workflow, a.facts, a.actor, a.key),
                                    Evaluate(env.lib, a.facts, active.value.bundle, a.workflow).Ruling?, true)))
  }

  ghost predicate CaseOpens(s: State, t: State, a: Act)
    requires a.OpenCase?
  {
    && a.n in s.system.calls && s.system.calls[a.n].pc.Returned? && s.system.calls[a.n].pc.created
    && var e := s.system.calls[a.n].pc.event;
    && e.body.entry.eventType == DecisionType && (e.body.entry.companyId, a.id) !in s.desk.rows
    && var why := ReasonFor(e.body.entry.outcome);
    && t == if why.None? then s else s.(desk := AfterAdd(s.desk, Opened(e, why.value, a.id, a.now)))
  }

  ghost predicate ResolveStarts(env: Env, s: State, t: State, a: Act)
    requires a.StartResolve?
  {
    var k := (a.company, a.id);
    && a.n !in s.system.calls && k in s.desk.rows && s.desk.rows[k].status == Open && !IsBlank(a.rationale)
    && (a.company, s.desk.rows[k].decisionEventId) in s.system.ledger.byId
    && var original := s.system.ledger.byId[(a.company, s.desk.rows[k].decisionEventId)];
    && var entry := AdjudicationEntry(a.company, original, a.resolver, a.action, a.kind, a.rationale,
       AdjudicationKey(a.id));
    && t == s.(system := Take(env.digest, s.system, Begin(a.n, entry, true, false)),
               resolving := s.resolving[a.n := Case(s.desk.rows[k], a.action, a.kind, a.rationale, a.resolver,
                                                    a.promote)])
  }

  function ResolutionOf(c: Case, e: Event, now: int): Resolution {
    Resolution(c.action, c.kind, c.rationale, c.resolver, e.body.id, now, c.promote)
  }

  function SettledRow(c: Case, e: Event, now: int): Escalation {
    Resolving(c.escalation, ResolutionOf(c, e, now))
  }

  /** The ruling's call has its event. */
  predicate Ledgered(s: State, n: nat) {
    n in s.resolving && n in s.system.calls && s.system.calls[n].pc.Returned?
  }

  /** The golden-set callback raises: the call ends, the event stays and the desk is untouched. */
  ghost predicate PromotionFails(s: State, t: State, a: Act)
    requires a.PromotionRaises?
  {
    Ledgered(s, a.n) && s.resolving[a.n].promote && t == s.(resolving := s.resolving - {a.n})
  }

  ghost predicate ResolveFinishes(s: State, t: State, a: Act)
    requires a.FinishResolve?
  {
    && Ledgered(s, a.n)
    && t == s.(desk := AfterUpdate(s.desk, SettledRow(s.resolving[a.n], s.system.calls[a.n].pc.event, a.now)),
               resolving := s.resolving - {a.n})
  }

  ghost predicate RegistryStep(env: Env, s: State, reg: Registry, a: Act) {
    match a
    case SaveDraft(company, b, who, id, now) =>
        ValidBundle(b) && DraftStep(env.content, s.registry, reg, company, b, who, id, now)
    case Publish(company, id, who, now) =>
        exists runId :: PublishStep(s.runs, s.registry, reg, company, id, runId, who, now)
    case Activate(company, id) => ActivateStep(s.registry, reg, company, id)
    case _ => false
  }

  /** The replay endpoint compares with the active bundle, if asked to and there is one. */
  function ReferenceOf(reg: Registry, company: string, wanted: bool): Option<Bundle> {
    var active := ActiveOf(reg, company);
    if wanted && active.Some? then Some(active.value.bundle) else None
  }

  ghost predicate ReplayStep(env: Env, s: State, runs: Runs, a: Act)
    requires a.RunReplay?
  {
    && (a.company, a.id) !in s.runs && (a.company, a.candidate) in s.registry.rows
    && var candidate := s.registry.rows[(a.company, a.candidate)].bundle;
    && var reference := ReferenceOf(s.registry, a.company, a.withReference);
    && !ReplayAborts(env.lib, candidate, reference, a.golden)
    && (a.company, a.id) in runs && var run := runs[(a.company, a.id)];
    && run.companyId == a.company && run.runId == a.id && run.createdAt == a.now && run.acknowledgedBy == None
    && Records(env.content, env.cases, env.lib, a.golden, candidate, reference, run)
    && runs == s.runs[(a.company, a.id) := run]
  }

  ghost predicate RunsStep(env: Env, s: State, runs: Runs, a: Act) {
    match a
    case RunReplay(_, _, _, _, _, _) => ReplayStep(env, s, runs, a)
    case Acknowledge(company, id, who) =>
      (company, id) in s.runs && runs == s.runs[(company, id) := s.runs[(company, id)].(acknowledgedBy := Some(who))]
    case _ => false
  }

  ghost predicate Next(env: Env, s: State, a: Act, t: State) {
    match a
    case StartDecide(_, _, _, _, _, _) => DecideStarts(env, s, t, a)
    case LedgerStep(step) => !step.Begin? && t == s.(system := Take(env.digest, s.system, step))
    case OpenCase(_, _, _) => CaseOpens(s, t, a)
    case StartResolve(_, _, _, _, _, _, _, _) => ResolveStarts(env, s, t, a)
    case PromotionRaises(_) => PromotionFails(s, t, a)
    case FinishResolve(_, _) => ResolveFinishes(s, t, a)
    case RunReplay(_, _, _, _, _, _) => RunsStep(env, s, t.runs, a) && t == s.(runs := t.runs)
    case Acknowledge(_, _, _) => RunsStep(env, s, t.runs, a) && t == s.(runs := t.runs)
    case _ => RegistryStep(env, s, t.registry, a) && t == s.(registry := t.registry)
  }

  /** A run: states joined by acts. */
  ghost predicate Run(env: Env, states: seq<State>, acts: seq<Act>) {
    && |states| == |acts| + 1 && states[0] == INITIAL
    && forall i :: 0 <= i < |acts| ==> Next(env, states[i], acts[i], states[i + 1])
  }

  // ------------------------------------------------------------------ the invariant

  /** The entry is the evaluator's ruling on an accepted bundle the company has published. */
  ghost predicate BackedBy(env: Env, rows: Rows, e: Entry, id: string) {
    && (e.companyId, id) in rows
    && var r := rows[(e.companyId, id)];
    && r.publishedAt.Some? && r.contentHash == e.bundleHash
    && RulingOf(env.lib, r.bundle, e)
  }

  ghost predicate RulingOf(lib: Lib, b: Bundle, e: Entry) {
    var ruling := Evaluate(lib, e.facts, b, e.workflow);
    && ValidBundle(b) && ruling.Ruling? && e.outcome == ByPolicy(ruling.outcome) && e.trace == Derivation(ruling.trace)
  }

  ghost predicate Backed(env: Env, rows: Rows, e: Entry) {
    exists id :: BackedBy(env, rows, e, id)
  }

  ghost predicate LinkedBy(d: Desk, e: Entry, id: string) {
    && (e.companyId, id) in d.rows && e.key == AdjudicationKey(id)
    && e.linked == Some(d.rows[(e.companyId, id)].decisionEventId)
  }

  /** The entry rules on the decision of an escalation, under that escalation's own key. */
  ghost predicate Linked(d: Desk, e: Entry) {
    exists id :: LinkedBy(d, e, id)
  }

  ghost predicate Lawful(env: Env, rows: Rows, d: Desk, e: Entry) {
    if e.eventType == DecisionType then Backed(env, rows, e) else Linked(d, e)
  }

  ghost predicate CallsLawful(env: Env, rows: Rows, d: Desk, calls: map<nat, Call>) {
    forall n :: n in calls && calls[n].evaluates ==> Lawful(env, rows, d, calls[n].entry)
  }

  ghost predicate BundlesValid(rows: Rows) {
    forall k :: k in rows ==> ValidBundle(rows[k].bundle)
  }

  /** The run holds the results of replaying a registered bundle of the company. */
  ghost predicate Genuine(env: Env, rows: Rows, company: string, run: ReplayRun) {
    exists id :: GenuineFor(env, rows, company, run, id)
  }

  ghost predicate GenuineFor(env: Env, rows: Rows, company: string, run: ReplayRun, id: string) {
    (company, id) in rows &&
    exists golden, reference :: Records(env.content, env.cases, env.lib, golden, rows[(company, id)].bundle, reference,
        run)
  }

  ghost predicate RunsGenuine(env: Env, rows: Rows, runs: Runs) {
    forall k :: k in runs ==> Genuine(env, rows, k.0, runs[k])
  }

  ghost predicate DecisionOf(esc: Escalation, e: Event) {
    && e.body.id == esc.decisionEventId && e.body.entry.eventType == DecisionType
    && ReasonFor(e.body.entry.outcome) == Some((esc.reason, esc.detail))
  }

  /** The case is about a decision in the ledger, for the reason its outcome gives. */
  ghost predicate Grounded(l: Ledger, esc: Escalation) {
    exists e :: e in StreamOf(l, esc.companyId) && DecisionOf(esc, e)
  }

  ghost predicate RowsGrounded(l: Ledger, d: Desk) {
    forall k :: k in d.rows ==> Grounded(l, d.rows[k]) && (d.rows[k].status == Resolved ==> NamesLedgered(l, d.rows[k]))
  }

  /** The entry on its way to the ledger says what the ruling says, under the case's key. */
  predicate Conveys(entry: Entry, c: Case) {
    && (entry.companyId, entry.key) == (c.escalation.companyId, AdjudicationKey(c.escalation.escalationId))
    && entry.outcome == ByHuman(c.kind, c.action, c.rationale) && entry.actor == c.resolver
  }

  ghost predicate CasesOk(d: Desk, calls: map<nat, Call>, cases: map<nat, Case>) {
    forall n :: n in cases ==>
      && n in calls && Conveys(calls[n].entry, cases[n])
      && RowKey(cases[n].escalation) in d.rows && SameCase(d.rows[RowKey(cases[n].escalation)], cases[n].escalation)
  }

  ghost predicate GovOk(env: Env, s: State) {
    && RegistryOk(env.content, s.runs, s.registry) && BundlesValid(s.registry.rows)
    && RunsGenuine(env, s.registry.rows, s.runs)
    && SystemOk(env.digest, s.system) && CallsLawful(env, s.registry.rows, s.desk, s.system.calls)
    && DeskOk(s.desk) && RowsGrounded(s.system.ledger, s.desk) && CasesOk(s.desk, s.system.calls, s.resolving)
  }

  /** What no step undoes. */
  ghost predicate Progress(s: State, t: State) {
    && KeepsRows(s.registry.rows, t.registry.rows) && Grows(s.system.ledger, t.system.ledger)
       && DeskGrows(s.desk, t.desk)
    && forall c, id, hash :: Gates(s.runs, c, id, hash) ==> Gates(t.runs, c, id, hash)
  }

  // ------------------------------------------------------------------ registry and runs

  lemma LawfulStays(env: Env, rows: Rows, more: Rows, d: Desk, after: Desk, e: Entry)
    requires Lawful(env, rows, d, e) && KeepsRows(rows, more) && DeskGrows(d, after)
    ensures Lawful(env, more, after, e)
  {
    if e.eventType == DecisionType {
      var id :| BackedBy(env, rows, e, id);
      assert KeepsRow(rows[(e.companyId, id)], more[(e.companyId, id)]);
      assert BackedBy(env, more, e, id);
    } else {
      var id :| LinkedBy(d, e, id);
      assert LinkedBy(after, e, id);
    }
  }

  lemma CallsStayLawful(env: Env, rows: Rows, more: Rows, d: Desk, after: Desk, calls: map<nat, Call>)
    requires CallsLawful(env, rows, d, calls) && KeepsRows(rows, more) && DeskGrows(d, after)
    ensures CallsLawful(env, more, after, calls)
  {
    forall n | n in calls && calls[n].evaluates ensures Lawful(env, more, after, calls[n].entry) {
      LawfulStays(env, rows, more, d, after, calls[n].entry);
    }
  }

  lemma KeptBundlesValid(rows: Rows, more: Rows)
    requires BundlesValid(rows) && KeepsRows(rows, more)
    requires forall k :: k in more && k !in rows ==> ValidBundle(more[k].bundle)
    ensures BundlesValid(more)
  {
    forall k | k in more ensures ValidBundle(more[k].bundle) {
      if k in rows { assert KeepsRow(rows[k], more[k]); }
    }
  }

  lemma RegistryStepKeeps(env: Env, s: State, reg: Registry, a: Act)
    requires RegistryOk(env.content, s.runs, s.registry) && BundlesValid(s.registry.rows)
             && RegistryStep(env, s, reg, a)
    ensures RegistryOk(env.content, s.runs, reg) && KeepsRows(s.registry.rows, reg.rows) && BundlesValid(reg.rows)
  {
    hide ValidBundle, PublishStep, ActivateStep, KeepsRow, GoodRecord, HashesDistinct, ActiveIsPublished, KeyedRuns;
    match a {
      case SaveDraft(company, b, who, id, now) =>
        DraftKeeps(env.content, s.runs, s.registry, reg, company, b, who, id, now);
      case Publish(company, id, who, now) =>
        var runId :| PublishStep(s.runs, s.registry, reg, company, id, runId, who, now);
        PublishKeeps(env.content, s.runs, s.registry, reg, company, id, runId, who, now);
        SameKeys(env, s, reg, a);
      case Activate(company, id) =>
        ActivateKeeps(env.content, s.runs, s.registry, reg, company, id);
        SameKeys(env, s, reg, a);
      case _ =>
    }
    KeptBundlesValid(s.registry.rows, reg.rows);
  }

  lemma SameKeys(env: Env, s: State, reg: Registry, a: Act)
    requires RegistryOk(env.content, s.runs, s.registry) && RegistryStep(env, s, reg, a) && !a.SaveDraft?
    ensures reg.rows.Keys == s.registry.rows.Keys
  {
    hide RegistryOk, GoodRecord, ContentHash, ActiveIsPublished, ValidBundle, KeepsRow, HashesDistinct;
    if a.Publish? {
      ActiveKey(env.content, s.runs, s.registry, a.company);
    } else {
      ActiveKey(env.content, s.runs, s.registry, a.company);
    }
  }

  lemma LifecycleActKeeps(env: Env, s: State, a: Act, t: State)
    requires GovOk(env, s) && (a.SaveDraft? || a.Publish? || a.Activate?) && Next(env, s, a, t)
    ensures GovOk(env, t) && Progress(s, t)
  {
    hide RegistryOk, SystemOk, BundlesValid, RunsGenuine, CallsLawful, DeskOk, RowsGrounded, CasesOk, RegistryStep,
        KeepsRows;
    RegistryStepKeeps(env, s, t.registry, a);
    CallsStayLawful(env, s.registry.rows, t.registry.rows, s.desk, s.desk, s.system.calls);
    RunsStayGenuine(env, s.registry.rows, t.registry.rows, s.runs);
  }

  lemma GenuineStays(env: Env, rows: Rows, more: Rows, company: string, run: ReplayRun)
    requires Genuine(env, rows, company, run) && KeepsRows(rows, more)
    ensures Genuine(env, more, company, run)
  {
    hide Records;
    var id :| GenuineFor(env, rows, company, run, id);
    assert KeepsRow(rows[(company, id)], more[(company, id)]);
    assert GenuineFor(env, more, company, run, id);
  }

  lemma RunsStayGenuine(env: Env, rows: Rows, more: Rows, runs: Runs)
    requires RunsGenuine(env, rows, runs) && KeepsRows(rows, more)
    ensures RunsGenuine(env, more, runs)
  {
    hide Genuine, KeepsRows;
    forall k | k in runs ensures Genuine(env, more, k.0, runs[k]) { GenuineStays(env, rows, more, k.0, runs[k]); }
  }

  lemma NewRunGenuine(env: Env, s: State, runs: Runs, a: Act)
    requires RunsGenuine(env, s.registry.rows, s.runs) && a.RunReplay? && ReplayStep(env, s, runs, a)
    ensures RunsGenuine(env, s.registry.rows, runs)
  {
    hide Records, ReplayAborts;
    assert GenuineFor(env, s.registry.rows, a.company, runs[(a.company, a.id)], a.candidate);
  }

  lemma AcknowledgedGenuine(env: Env, rows: Rows, runs: Runs, k: (string, string), who: string)
    requires RunsGenuine(env, rows, runs) && k in runs
    ensures RunsGenuine(env, rows, runs[k := runs[k].(acknowledgedBy := Some(who))])
  {
    var run, after := runs[k], runs[k].(acknowledgedBy := Some(who));
    assert Genuine(env, rows, k.0, after) by {
      var id :| GenuineFor(env, rows, k.0, run, id);
      var golden, reference :| Records(env.content, env.cases, env.lib, golden, rows[(k.0, id)].bundle, reference, run);
      assert Records(env.content, env.cases, env.lib, golden, rows[(k.0, id)].bundle, reference, after);
      assert GenuineFor(env, rows, k.0, after, id);
    }
    hide Genuine;
  }

  lemma RunActKeeps(env: Env, s: State, a: Act, t: State)
    requires GovOk(env, s) && (a.RunReplay? || a.Acknowledge?) && Next(env, s, a, t)
    ensures GovOk(env, t) && Progress(s, t)
  {
    hide SystemOk, BundlesValid, RunsGenuine, Records, ReplayAborts, CallsLawful, DeskOk, RowsGrounded, CasesOk,
        ContentHash, CaseSetHash, CaseResults, GoodRecord, HashesDistinct, ActiveIsPublished;
    if a.RunReplay? {
      NewRunKeeps(s.runs, t.runs[(a.company, a.id)]);
      NewRunGenuine(env, s, t.runs, a);
    } else {
      AcknowledgeKeeps(s.runs, a.company, a.runId, a.who);
      AcknowledgedGenuine(env, s.registry.rows, s.runs, (a.company, a.runId), a.who);
    }
    RunsKeep(env.content, s.runs, t.runs, s.registry);
  }

  // ------------------------------------------------------------------ ledger steps

  lemma NamesLedgeredStays(l: Ledger, m: Ledger, esc: Escalation)
    requires NamesLedgered(l, esc) && Grows(l, m)
    ensures NamesLedgered(m, esc)
  {
    var e :| Adjudicates(l, esc, e) && e.body.id == esc.resolution.value.adjudicationEventId;
    GrowsKeeps(l, m, esc.companyId, e);
    assert Adjudicates(m, esc, e);
  }

  lemma GroundedStays(l: Ledger, m: Ledger, esc: Escalation)
    requires Grounded(l, esc) && Grows(l, m)
    ensures Grounded(m, esc)
  {
    var e :| e in StreamOf(l, esc.companyId) && DecisionOf(esc, e);
    GrowsKeeps(l, m, esc.companyId, e);
  }

  lemma RowsStayGrounded(l: Ledger, m: Ledger, d: Desk)
    requires RowsGrounded(l, d) && Grows(l, m)
    ensures RowsGrounded(m, d)
  {
    forall k | k in d.rows
      ensures Grounded(m, d.rows[k]) && (d.rows[k].status == Resolved ==> NamesLedgered(m, d.rows[k]))
    {
      GroundedStays(l, m, d.rows[k]);
      if d.rows[k].status == Resolved { NamesLedgeredStays(l, m, d.rows[k]); }
    }
  }

  ghost predicate SameEntries(calls: map<nat, Call>, after: map<nat, Call>) {
    calls.Keys == after.Keys &&
    forall n :: n in calls ==> after[n].entry == calls[n].entry && after[n].evaluates == calls[n].evaluates
  }

  /** A ledger step changes nobody's entry. */
  lemma StepKeepsEntries(digest: Digest, s: System, step: Action)
    requires !step.Begin?
    ensures SameEntries(s.calls, Take(digest, s, step).calls)
  {
  }

  lemma SameEntriesLawful(env: Env, rows: Rows, d: Desk, calls: map<nat, Call>, after: map<nat, Call>,
                          cases: map<nat, Case>)
    requires SameEntries(calls, after) && CallsLawful(env, rows, d, calls) && CasesOk(d, calls, cases)
    ensures CallsLawful(env, rows, d, after) && CasesOk(d, after, cases)
  {
    hide Lawful;
    forall n | n in cases ensures after[n].entry == calls[n].entry { }
  }

  lemma LedgerStepKeeps(env: Env, s: State, a: Act, t: State)
    requires GovOk(env, s) && a.LedgerStep? && Next(env, s, a, t)
    ensures GovOk(env, t) && Progress(s, t)
  {
    hide RegistryOk, SystemOk, BundlesValid, RunsGenuine, CallsLawful, DeskOk, RowsGrounded, CasesOk, Take;
    TakeKeeps(env.digest, s.system, a.a);
    StepKeepsEntries(env.digest, s.system, a.a);
    SameEntriesLawful(env, s.registry.rows, s.desk, s.system.calls, t.system.calls, s.resolving);
    RowsStayGrounded(s.system.ledger, t.system.ledger, s.desk);
  }

  lemma CallAddedLawful(env: Env, rows: Rows, d: Desk, calls: map<nat, Call>, n: nat, c: Call, cases: map<nat, Case>)
    requires CallsLawful(env, rows, d, calls) && CasesOk(d, calls, cases) && n !in calls
    requires c.evaluates ==> Lawful(env, rows, d, c.entry)
    ensures CallsLawful(env, rows, d, calls[n := c]) && CasesOk(d, calls[n := c], cases)
  {
    hide Lawful;
  }

  /** A call that begins with a lawful entry. */
  lemma BeginKeeps(env: Env, s: State, step: Action)
    requires GovOk(env, s) && step.Begin? && Enabled(s.system, step)
    requires step.evaluates ==> Lawful(env, s.registry.rows, s.desk, step.entry)
    ensures var t := s.(system := Take(env.digest, s.system, step)); GovOk(env, t) && Progress(s, t)
  {
    hide RegistryOk, SystemOk, BundlesValid, RunsGenuine, CallsLawful, DeskOk, RowsGrounded, CasesOk, Lawful;
    var t := s.(system := Take(env.digest, s.system, step));
    TakeKeeps(env.digest, s.system, step);
    CallAddedLawful(env, s.registry.rows, s.desk, s.system.calls, step.n, t.system.calls[step.n], s.resolving);
  }

  lemma ActiveRecordGood(env: Env, s: State, company: string)
    requires RegistryOk(env.content, s.runs, s.registry) && ActiveOf(s.registry, company).Some?
    ensures var active := ActiveOf(s.registry, company).value;
            active.companyId == company && active.publishedAt.Some? && (company, active.recordId) in s.registry.rows
            && s.registry.rows[(company, active.recordId)] == active
  {
    assert GoodRecord(env.content, s.runs, (company, s.registry.active[company]), ActiveOf(s.registry, company).value);
  }

  lemma ProposalLawful(env: Env, s: State, active: BundleRecord, workflow: string, facts: map<string, Json>,
                       actor: Actor, key: string)
    requires BundlesValid(s.registry.rows) && active.publishedAt.Some?
    requires (active.companyId, active.recordId) in s.registry.rows
             && s.registry.rows[(active.companyId, active.recordId)] == active
    requires Evaluate(env.lib, facts, active.bundle, workflow).Ruling?
    ensures Lawful(env, s.registry.rows, s.desk, ProposedEntry(env, active, workflow, facts, actor, key))
  {
    hide Evaluate, ValidBundle;
    assert ValidBundle(active.bundle);
    assert BackedBy(env, s.registry.rows, ProposedEntry(env, active, workflow, facts, actor, key), active.recordId);
  }

  lemma DecideActKeeps(env: Env, s: State, a: Act, t: State)
    requires GovOk(env, s) && a.StartDecide? && Next(env, s, a, t)
    ensures GovOk(env, t) && Progress(s, t)
  {
    hide RegistryOk, SystemOk, BundlesValid, RunsGenuine, CallsLawful, DeskOk, RowsGrounded, CasesOk, Lawful, Evaluate,
        Take;
    ActiveRecordGood(env, s, a.company);
    var active := ActiveOf(s.registry, a.company).value;
    var evaluates := Evaluate(env.lib, a.facts, active.bundle, a.workflow).Ruling?;
    if evaluates { ProposalLawful(env, s, active, a.workflow, a.facts, a.actor, a.key); }
    BeginKeeps(env, s, Begin(a.n, ProposedEntry(env, active, a.workflow, a.facts, a.actor, a.key), evaluates, true));
  }

  lemma OriginalIs(env: Env, s: State, company: string, decision: string)
    requires SystemOk(env.digest, s.system) && (company, decision) in s.system.ledger.byId
    ensures s.system.ledger.byId[(company, decision)].body.id == decision
  {
    assert IdOf(s.system.ledger.byId[(company, decision)]) == (company, decision);
  }

  lemma CaseAdded(d: Desk, calls: map<nat, Call>, cases: map<nat, Case>, n: nat, c: Case)
    requires DeskOk(d) && CasesOk(d, calls, cases) && n in calls
    requires Conveys(calls[n].entry, c)
    requires RowKey(c.escalation) in d.rows && d.rows[RowKey(c.escalation)] == c.escalation
    ensures CasesOk(d, calls, cases[n := c])
  {
  }

  lemma RowAt(d: Desk, k: (string, string))
    requires DeskOk(d) && k in d.rows
    ensures RowKey(d.rows[k]) == k
  {
    assert RowOk(d, k, d.rows[k]);
  }

  lemma ResolveActKeeps(env: Env, s: State, a: Act, t: State)
    requires GovOk(env, s) && a.StartResolve? && Next(env, s, a, t)
    ensures GovOk(env, t) && Progress(s, t)
  {
    hide RegistryOk, SystemOk, BundlesValid, RunsGenuine, CallsLawful, DeskOk, RowsGrounded, CasesOk;
    var k := (a.company, a.id);
    var original := s.system.ledger.byId[(a.company, s.desk.rows[k].decisionEventId)];
    var entry := AdjudicationEntry(a.company, original, a.resolver, a.action, a.kind, a.rationale,
        AdjudicationKey(a.id));
    OriginalIs(env, s, a.company, s.desk.rows[k].decisionEventId);
    assert LinkedBy(s.desk, entry, a.id);
    BeginKeeps(env, s, Begin(a.n, entry, true, false));
    RowAt(s.desk, k);
    CaseAdded(s.desk, t.system.calls, s.resolving, a.n, t.resolving[a.n]);
  }

  // ------------------------------------------------------------------ desk steps

  lemma CasesStay(d: Desk, after: Desk, calls: map<nat, Call>, cases: map<nat, Case>, fewer: map<nat, Case>)
    requires CasesOk(d, calls, cases) && DeskGrows(d, after)
    requires forall n :: n in fewer ==> n in cases && fewer[n] == cases[n]
    ensures CasesOk(after, calls, fewer)
  {
  }

  lemma DeskStepKeeps(env: Env, s: State, after: Desk, cases: map<nat, Case>)
    requires GovOk(env, s) && DeskOk(after) && DeskGrows(s.desk, after) && RowsGrounded(s.system.ledger, after)
    requires forall n :: n in cases ==> n in s.resolving && cases[n] == s.resolving[n]
    ensures var t := s.(desk := after, resolving := cases); GovOk(env, t) && Progress(s, t)
  {
    hide RegistryOk, SystemOk, BundlesValid, RunsGenuine, CallsLawful, DeskOk, DeskGrows, RowsGrounded, CasesOk;
    CallsStayLawful(env, s.registry.rows, s.registry.rows, s.desk, after, s.system.calls);
    CasesStay(s.desk, after, s.system.calls, s.resolving, cases);
  }

  lemma ReturnedAt(digest: Digest, s: System, n: nat)
    requires SystemOk(digest, s) && n in s.calls && s.calls[n].pc.Returned?
    ensures var e := s.calls[n].pc.event;
            KeyOf(e) == CallKey(s.calls[n]) && e in StreamOf(s.ledger, e.body.entry.companyId)
  {
    assert CallOk(digest, s.ledger, s.calls[n]);
  }

  lemma AddedGrounded(l: Ledger, d: Desk, esc: Escalation)
    requires RowsGrounded(l, d) && Grounded(l, esc) && esc.status == Open
    ensures RowsGrounded(l, AfterAdd(d, esc))
  {
    hide Grounded;
  }

  lemma OpenActKeeps(env: Env, s: State, a: Act, t: State)
    requires GovOk(env, s) && a.OpenCase? && Next(env, s, a, t)
    ensures GovOk(env, t) && Progress(s, t)
  {
    hide RegistryOk, SystemOk, BundlesValid, RunsGenuine, CallsLawful, DeskOk, RowsGrounded, CasesOk;
    var e := s.system.calls[a.n].pc.event;
    var why := ReasonFor(e.body.entry.outcome);
    if why.Some? {
      var esc := Opened(e, why.value, a.id, a.now);
      AddKeeps(s.desk, esc);
      ReturnedAt(env.digest, s.system, a.n);
      assert DecisionOf(esc, e);
      AddedGrounded(s.system.ledger, s.desk, esc);
      DeskStepKeeps(env, s, t.desk, s.resolving);
    }
  }

  lemma SameCaseGrounded(l: Ledger, a: Escalation, b: Escalation)
    requires Grounded(l, a) && SameCase(a, b)
    ensures Grounded(l, b)
  {
    var e :| e in StreamOf(l, a.companyId) && DecisionOf(a, e);
    assert DecisionOf(b, e);
  }

  lemma UpdatedGrounded(l: Ledger, d: Desk, esc: Escalation)
    requires RowsGrounded(l, d) && RowKey(esc) in d.rows && SameCase(d.rows[RowKey(esc)], esc) && NamesLedgered(l, esc)
    ensures RowsGrounded(l, AfterUpdate(d, esc))
  {
    hide NamesLedgered;
    SameCaseGrounded(l, d.rows[RowKey(esc)], esc);
  }

  lemma CaseAt(d: Desk, calls: map<nat, Call>, cases: map<nat, Case>, n: nat)
    requires CasesOk(d, calls, cases) && n in cases
    ensures var esc := cases[n].escalation;
            && n in calls && Conveys(calls[n].entry, cases[n])
            && RowKey(esc) in d.rows && SameCase(d.rows[RowKey(esc)], esc)
  {
  }

  lemma FinishActKeeps(env: Env, s: State, a: Act, t: State)
    requires GovOk(env, s) && a.FinishResolve? && Next(env, s, a, t)
    ensures GovOk(env, t) && Progress(s, t)
  {
    hide RegistryOk, SystemOk, BundlesValid, RunsGenuine, CallsLawful, DeskOk, RowsGrounded, CasesOk, DeskGrows;
    var e := s.system.calls[a.n].pc.event;
    var esc := SettledRow(s.resolving[a.n], e, a.now);
    CaseAt(s.desk, s.system.calls, s.resolving, a.n);
    UpdateKeeps(s.desk, esc);
    ReturnedAt(env.digest, s.system, a.n);
    assert Adjudicates(s.system.ledger, esc, e);
    UpdatedGrounded(s.system.ledger, s.desk, esc);
    DeskStepKeeps(env, s, t.desk, t.resolving);
  }

  lemma PromotionActKeeps(env: Env, s: State, a: Act, t: State)
    requires GovOk(env, s) && a.PromotionRaises? && Next(env, s, a, t)
    ensures GovOk(env, t) && Progress(s, t)
  {
    hide RegistryOk, SystemOk, BundlesValid, RunsGenuine, CallsLawful, DeskOk, RowsGrounded, CasesOk;
    DeskStepKeeps(env, s, s.desk, t.resolving);
  }

  // ------------------------------------------------------------------ every run

  lemma NextKeeps(env: Env, s: State, a: Act, t: State)
    requires GovOk(env, s) && Next(env, s, a, t)
    ensures GovOk(env, t) && Progress(s, t)
  {
    hide GovOk, Progress, DecideStarts, CaseOpens, ResolveStarts, PromotionFails, ResolveFinishes, RegistryStep,
        RunsStep;
    match a {
      case StartDecide(_, _, _, _, _, _) => DecideActKeeps(env, s, a, t);
      case LedgerStep(_) => LedgerStepKeeps(env, s, a, t);
      case OpenCase(_, _, _) => OpenActKeeps(env, s, a, t);
      case StartResolve(_, _, _, _, _, _, _, _) => ResolveActKeeps(env, s, a, t);
      case PromotionRaises(_) => PromotionActKeeps(env, s, a, t);
      case FinishResolve(_, _) => FinishActKeeps(env, s, a, t);
      case RunReplay(_, _, _, _, _, _) => RunActKeeps(env, s, a, t);
      case Acknowledge(_, _, _) => RunActKeeps(env, s, a, t);
      case _ => LifecycleActKeeps(env, s, a, t);
    }
  }

  lemma InitiallyOk(env: Env)
    ensures GovOk(env, INITIAL)
  {
    EmptyLedgerOk(env.digest);
  }

  lemma {:induction false} EveryRunIsGoverned(env: Env, states: seq<State>, acts: seq<Act>, i: nat)
    requires Run(env, states, acts) && i <= |acts|
    ensures GovOk(env, states[i])
  {
    hide GovOk, Progress, Next;
    if i == 0 {
      InitiallyOk(env);
    } else {
      EveryRunIsGoverned(env, states, acts, i - 1);
      NextKeeps(env, states[i - 1], acts[i - 1], states[i]);
    }
  }

  lemma {:induction false} RunsProgress(env: Env, states: seq<State>, acts: seq<Act>, i: nat, j: nat)
    requires Run(env, states, acts) && i <= j <= |acts|
    ensures Progress(states[i], states[j])
    decreases j - i
  {
    hide GovOk, Progress, Next;
    EveryRunIsGoverned(env, states, acts, i);
    ProgressReflexive(states[i]);
    if i < j {
      NextKeeps(env, states[i], acts[i], states[i + 1]);
      RunsProgress(env, states, acts, i + 1, j);
      ProgressTransitive(states[i], states[i + 1], states[j]);
    }
  }

  lemma ProgressReflexive(s: State)
    ensures Progress(s, s)
  {
  }

  lemma ProgressTransitive(s: State, t: State, u: State)
    requires Progress(s, t) && Progress(t, u)
    ensures Progress(s, u)
  {
    GrowsTransitive(s.system.ledger, t.system.ledger, u.system.ledger);
    forall k | k in s.registry.rows ensures k in u.registry.rows && KeepsRow(s.registry.rows[k], u.registry.rows[k]) {
      assert KeepsRow(s.registry.rows[k], t.registry.rows[k]) && KeepsRow(t.registry.rows[k], u.registry.rows[k]);
    }
  }

  // ------------------------------------------------------------------ main results

  /** A bundle the company has published under an acknowledged replay run of exactly its content. */
  ghost predicate PublishedUnderReplay(env: Env, s: State, company: string, id: string, hash: string) {
    && (company, id) in s.registry.rows
    && var r := s.registry.rows[(company, id)];
    && r.contentHash == hash && ContentHash(env.content, r.bundle) == hash && ValidBundle(r.bundle)
    && r.publishedAt.Some? && r.replayRunId.Some? && (company, r.replayRunId.value) in s.runs
    && AcknowledgedFor(s.runs[(company, r.replayRunId.value)], company, hash)
    && ReplayOf(env, r.bundle, s.runs[(company, r.replayRunId.value)])
  }

  /** The run holds the results of replaying this very bundle on some cases. */
  ghost predicate ReplayOf(env: Env, b: Bundle, run: ReplayRun) {
    exists golden, reference :: Records(env.content, env.cases, env.lib, golden, b, reference, run)
  }

  /** A run with a record's hash replayed that record: hashes are distinct per company. */
  lemma GateReplayedTheRecord(env: Env, s: State, company: string, id: string, runId: string)
    requires GoodRecords(env.content, s.runs, s.registry.rows) && HashesDistinct(s.registry.rows)
    requires RunsGenuine(env, s.registry.rows, s.runs) && (company, id) in s.registry.rows
    requires Gates(s.runs, company, runId, s.registry.rows[(company, id)].contentHash)
    ensures ReplayOf(env, s.registry.rows[(company, id)].bundle, s.runs[(company, runId)])
  {
    hide ContentHash, CaseResults, CaseSetHash;
    var rows := s.registry.rows;
    var run := s.runs[(company, runId)];
    assert Genuine(env, rows, company, run);
    var other :| GenuineFor(env, rows, company, run, other);
    var golden, reference :| Records(env.content, env.cases, env.lib, golden, rows[(company, other)].bundle, reference,
        run);
    assert GoodRecord(env.content, s.runs, (company, other), rows[(company, other)]);
    assert other == id;
  }

  /** The bundle a replay compares with, and its address: of the company's PUBLISHED record, if asked for and
      there is one. */
  ghost predicate ComparesWith(rows: Rows, company: string, wanted: bool, reference: Option<Bundle>,
                               hash: Option<string>) {
    && (reference.Some? <==> wanted && exists id :: (company, id) in rows && rows[(company, id)].status == Published)
    && (hash.Some? <==> reference.Some?)
    && forall id :: (company, id) in rows && rows[(company, id)].status == Published && wanted ==>
         reference == Some(rows[(company, id)].bundle) && hash == Some(rows[(company, id)].contentHash)
  }

  lemma ReferenceIsPublished(env: Env, runs: Runs, reg: Registry, company: string, wanted: bool)
    requires RegistryOk(env.content, runs, reg)
    ensures var reference := ReferenceOf(reg, company, wanted);
            ComparesWith(reg.rows, company, wanted, reference,
                         if reference.Some? then Some(ContentHash(env.content, reference.value)) else None)
  {
    hide ContentHash, KeyedRuns, HashesDistinct, Gates;
    if company in reg.active {
      assert GoodRecord(env.content, runs, (company, reg.active[company]), reg.rows[(company, reg.active[company])]);
    }
  }

  /** A replay of a registered draft is filed under that draft's address, the address of what it compares with and
      the hash of its cases, unacknowledged; it holds the results of exactly that comparison. */
  lemma ReplayComparesWithPublished(env: Env, s: State, a: Act, t: State) returns (reference: Option<Bundle>)
    requires GovOk(env, s) && a.RunReplay? && Next(env, s, a, t)
    ensures (a.company, a.candidate) in s.registry.rows && (a.company, a.id) in t.runs
    ensures var run := t.runs[(a.company, a.id)]; var candidate := s.registry.rows[(a.company, a.candidate)];
            && run.candidateHash == candidate.contentHash && run.caseSetHash == CaseSetHash(env.cases, a.golden)
            && run.createdAt == a.now && run.acknowledgedBy == None
            && ComparesWith(s.registry.rows, a.company, a.withReference, reference, run.referenceHash)
            && run.results == CaseResults(env.lib, candidate.bundle, reference, a.golden)
            && run.summary == SummaryOf(run.results)
  {
    hide ContentHash, CaseResults, CaseSetHash, SummaryOf, SystemOk, DeskOk, ReplayAborts, ComparesWith, ReferenceOf;
    var rows := s.registry.rows;
    reference := ReferenceOf(s.registry, a.company, a.withReference);
    ReferenceIsPublished(env, s.runs, s.registry, a.company, a.withReference);
    assert GoodRecord(env.content, s.runs, (a.company, a.candidate), rows[(a.company, a.candidate)]);
  }

  /** Every event of a stream is the entry of the call that created it. */
  lemma EventIsLawful(env: Env, s: State, company: string, e: Event)
    requires SystemOk(env.digest, s.system) && CallsLawful(env, s.registry.rows, s.desk, s.system.calls)
    requires e in StreamOf(s.system.ledger, company)
    ensures Lawful(env, s.registry.rows, s.desk, e.body.entry) && e.body.entry.companyId == company
  {
    hide Lawful, SystemOk;
    var n := EventHasCreator(env.digest, s.system, company, e);
  }

  /** Main result: in every run, each DECISION event names a record its company published under
      an acknowledged replay of exactly that content, and its outcome is the evaluator's on
      that record's bundle. */
  lemma DecisionsAreGoverned(env: Env, states: seq<State>, acts: seq<Act>, company: string, e: Event)
    requires Run(env, states, acts) && e in StreamOf(states[|acts|].system.ledger, company)
    requires e.body.entry.eventType == DecisionType
    ensures exists id :: PublishedUnderReplay(env, states[|acts|], company, id, e.body.entry.bundleHash) &&
                         RulingOf(env.lib, states[|acts|].registry.rows[(company, id)].bundle, e.body.entry)
  {
    hide RulingOf, ValidBundle, ReplayOf, RunsGenuine;
    var s := states[|acts|];
    EveryRunIsGoverned(env, states, acts, |acts|);
    EventIsLawful(env, s, company, e);
    var id :| BackedBy(env, s.registry.rows, e.body.entry, id);
    assert GoodRecord(env.content, s.runs, (company, id), s.registry.rows[(company, id)]);
    GateReplayedTheRecord(env, s, company, id, s.registry.rows[(company, id)].replayRunId.value);
    assert PublishedUnderReplay(env, s, company, id, e.body.entry.bundleHash);
  }

  /** Main result: with a collision-free digest and bundles whose values spell one way, two DECISION
      events on one bundle hash, workflow and facts have one outcome, in whatever run, company
      and moment they were taken. */
  lemma SameRequestSameOutcome(env: Env, states: seq<State>, acts: seq<Act>, c: string, e: Event, d: string, f: Event)
    requires Run(env, states, acts) && CollisionFree(env.content)
    requires forall k :: k in states[|acts|].registry.rows ==>
               BundleDoubles(env.lib, states[|acts|].registry.rows[k].bundle) &&
               StringsPrintOneWay(env.lib, states[|acts|].registry.rows[k].bundle)
    requires e in StreamOf(states[|acts|].system.ledger, c) && f in StreamOf(states[|acts|].system.ledger, d)
    requires e.body.entry.eventType == DecisionType && f.body.entry.eventType == DecisionType
    requires e.body.entry.bundleHash == f.body.entry.bundleHash && e.body.entry.workflow == f.body.entry.workflow
    requires e.body.entry.facts == f.body.entry.facts
    ensures e.body.entry.outcome == f.body.entry.outcome
  {
    hide Next, Evaluate, ValidBundle, BundleDoubles, StringsPrintOneWay, ReplayOf, Gates, CollisionFree, ContentHash,
        StreamOf;
    var s := states[|acts|];
    DecisionsAreGoverned(env, states, acts, c, e);
    DecisionsAreGoverned(env, states, acts, d, f);
    var i :| PublishedUnderReplay(env, s, c, i, e.body.entry.bundleHash)
        && RulingOf(env.lib, s.registry.rows[(c, i)].bundle, e.body.entry);
    var j :| PublishedUnderReplay(env, s, d, j, f.body.entry.bundleHash)
        && RulingOf(env.lib, s.registry.rows[(d, j)].bundle, f.body.entry);
    var x, y := s.registry.rows[(c, i)].bundle, s.registry.rows[(d, j)].bundle;
    HashDeterminesDecision(env.content, env.lib, x, y, e.body.entry.facts, e.body.entry.workflow);
  }

  /** The active bundle, the one decisions are taken on, is the company's only published record. */
  lemma OnePublishedRecord(env: Env, states: seq<State>, acts: seq<Act>, company: string, id: string)
    requires Run(env, states, acts) && (company, id) in states[|acts|].registry.rows
    ensures var s := states[|acts|];
            s.registry.rows[(company, id)].status == Published
            <==> ActiveOf(s.registry, company) == Some(s.registry.rows[(company, id)])
  {
    hide SystemOk, BundlesValid, RunsGenuine, RunsStep, CallsLawful, DeskOk, RowsGrounded, CasesOk;
    var s := states[|acts|];
    EveryRunIsGoverned(env, states, acts, |acts|);
    assert GoodRecord(env.content, s.runs, (company, id), s.registry.rows[(company, id)]);
    ActiveKey(env.content, s.runs, s.registry, company);
  }

  /** Main result: an escalation has at most one ADJUDICATION event, and so has its decision. */
  lemma AdjudicatedOnce(env: Env, states: seq<State>, acts: seq<Act>, company: string, e: Event, f: Event)
    requires Run(env, states, acts)
    requires e in StreamOf(states[|acts|].system.ledger, company)
             && f in StreamOf(states[|acts|].system.ledger, company)
    requires e.body.entry.eventType == AdjudicationType && f.body.entry.eventType == AdjudicationType
    requires e.body.entry.linked == f.body.entry.linked
    ensures e == f
  {
    hide RegistryOk, BundlesValid, RunsGenuine, RowsGrounded, CasesOk;
    var s := states[|acts|];
    EveryRunIsGoverned(env, states, acts, |acts|);
    EventIsLawful(env, s, company, e);
    EventIsLawful(env, s, company, f);
    var i :| LinkedBy(s.desk, e.body.entry, i);
    var j :| LinkedBy(s.desk, f.body.entry, j);
    OneEscalationPerDecision(s.desk, company, i, j);
    assert Filed(s.system.ledger, company, e) && Filed(s.system.ledger, company, f);
  }

  /** Main result: no escalation is ever dropped, redirected or reopened, and at every moment
      each decision has at most one. */
  lemma NeverReopened(env: Env, states: seq<State>, acts: seq<Act>, i: nat, j: nat, k: (string, string))
    requires Run(env, states, acts) && i <= j <= |acts| && k in states[i].desk.rows
    ensures k in states[j].desk.rows && SameCase(states[i].desk.rows[k], states[j].desk.rows[k])
    ensures states[i].desk.rows[k].status == Resolved ==> states[j].desk.rows[k].status == Resolved
    ensures forall m :: m in states[j].desk.rows
                        && DecisionKey(states[j].desk.rows[m]) == DecisionKey(states[j].desk.rows[k])
                        ==> m == k
  {
    hide RegistryOk, SystemOk, BundlesValid, RunsGenuine, CallsLawful, RowsGrounded, CasesOk;
    RunsProgress(env, states, acts, i, j);
    EveryRunIsGoverned(env, states, acts, j);
    var d := states[j].desk;
    forall m | m in d.rows && DecisionKey(d.rows[m]) == DecisionKey(d.rows[k]) ensures m == k {
      assert RowOk(d, m, d.rows[m]) && RowOk(d, k, d.rows[k]);
    }
  }

  /** The resolution's event, and whether it rules on the case's decision. */
  ghost predicate RulesOn(esc: Escalation, e: Event) {
    e.body.entry.eventType == AdjudicationType && e.body.entry.linked == Some(esc.decisionEventId)
  }

  lemma ResolvedAt(l: Ledger, d: Desk, k: (string, string)) returns (e: Event)
    requires DeskOk(d) && RowsGrounded(l, d) && k in d.rows && d.rows[k].status == Resolved
    ensures RowKey(d.rows[k]) == k && d.rows[k].resolution.Some? && Adjudicates(l, d.rows[k], e)
    ensures e.body.id == d.rows[k].resolution.value.adjudicationEventId
  {
    hide Grounded;
    RowAt(d, k);
    assert NamesLedgered(l, d.rows[k]);
    e :| Adjudicates(l, d.rows[k], e) && e.body.id == d.rows[k].resolution.value.adjudicationEventId;
  }

  /** Main result: a resolved escalation always names an event of the ledger stored under its
      own adjudication key; that event rules on its decision exactly when no decision was
      recorded under that key. */
  lemma ResolutionRulesUnlessKeyTaken(env: Env, states: seq<State>, acts: seq<Act>, k: (string, string))
    requires Run(env, states, acts) && k in states[|acts|].desk.rows && states[|acts|].desk.rows[k].status == Resolved
    ensures var s := states[|acts|]; var esc := s.desk.rows[k]; var key := (k.0, AdjudicationKey(k.1));
            && esc.resolution.Some? && key in s.system.ledger.byKey
            && var e := s.system.ledger.byKey[key];
            && e in StreamOf(s.system.ledger, k.0) && e.body.id == esc.resolution.value.adjudicationEventId
            && (RulesOn(esc, e) <==> e.body.entry.eventType != DecisionType)
  {
    hide RegistryOk, BundlesValid, RunsGenuine, CasesOk, SystemOk, CallsLawful, RowsGrounded, DeskOk, Backed;
    var s := states[|acts|];
    EveryRunIsGoverned(env, states, acts, |acts|);
    var e := ResolvedAt(s.system.ledger, s.desk, k);
    EventIsLawful(env, s, k.0, e);
    var n := EventHasCreator(env.digest, s.system, k.0, e);
    if e.body.entry.eventType == AdjudicationType {
      var i :| LinkedBy(s.desk, e.body.entry, i);
      assert AdjudicationKey(i)[13..] == i && AdjudicationKey(k.1)[13..] == k.1;
    }
  }

  // ------------------------------------------------------------------ reserved keys

  predicate Reserved(key: string) {
    "adjudication:" <= key
  }

  ghost predicate DecisionKeysFree(calls: map<nat, Call>) {
    forall n :: n in calls && calls[n].entry.eventType == DecisionType ==> !Reserved(calls[n].entry.key)
  }

  lemma FreeKeysStay(env: Env, s: State, a: Act, t: State)
    requires DecisionKeysFree(s.system.calls) && Next(env, s, a, t) && (a.StartDecide? ==> !Reserved(a.key))
    ensures DecisionKeysFree(t.system.calls)
  {
    hide Evaluate, RegistryStep, RunsStep;
    if a.LedgerStep? { StepKeepsEntries(env.digest, s.system, a.a); }
  }

  lemma {:induction false} FreeKeys(env: Env, states: seq<State>, acts: seq<Act>, i: nat)
    requires Run(env, states, acts) && i <= |acts|
    requires forall j :: 0 <= j < |acts| && acts[j].StartDecide? ==> !Reserved(acts[j].key)
    ensures DecisionKeysFree(states[i].system.calls)
  {
    hide Next;
    if i > 0 {
      FreeKeys(env, states, acts, i - 1);
      FreeKeysStay(env, states[i - 1], acts[i - 1], states[i]);
    }
  }

  /** Main result: while no client key starts with "adjudication:", every resolved escalation
      names an ADJUDICATION event that is already in the ledger and linked to its decision. */
  lemma ResolutionsAreAdjudications(env: Env, states: seq<State>, acts: seq<Act>, k: (string, string))
    requires Run(env, states, acts) && k in states[|acts|].desk.rows && states[|acts|].desk.rows[k].status == Resolved
    requires forall j :: 0 <= j < |acts| && acts[j].StartDecide? ==> !Reserved(acts[j].key)
    ensures var s := states[|acts|]; var esc := s.desk.rows[k];
            esc.resolution.Some? &&
            exists e :: e in StreamOf(s.system.ledger, k.0) && RulesOn(esc, e)
                && e.body.id == esc.resolution.value.adjudicationEventId
  {
    hide RegistryOk, BundlesValid, RunsGenuine, CallsLawful, DeskOk, RowsGrounded, CasesOk;
    var s := states[|acts|];
    ResolutionRulesUnlessKeyTaken(env, states, acts, k);
    EveryRunIsGoverned(env, states, acts, |acts|);
    FreeKeys(env, states, acts, |acts|);
    var e := s.system.ledger.byKey[(k.0, AdjudicationKey(k.1))];
    var n := EventHasCreator(env.digest, s.system, k.0, e);
    assert KeyOf(e) == (k.0, AdjudicationKey(k.1));
    assert Reserved(AdjudicationKey(k.1));
  }
}
