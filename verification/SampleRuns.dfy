/** The pieces whole runs are built of: one company takes a bundle live, a client gets a decision
    that needs a human, the case opens, and rulings on it are taken step by step. */
module SampleRuns {
  import opened Options
  import opened Schema
  import opened Judgement
  import opened Evaluator
  import opened Canonical
  import opened Replay
  import opened Lifecycle
  import opened LedgerEvents
  import opened LedgerStores
  import opened LedgerProtocol
  import opened LedgerService
  import opened Escalations
  import opened Governance

  ghost predicate Reaches(env: Env, states: seq<State>, acts: seq<Act>, s: State) {
    Run(env, states, acts) && states[|acts|] == s
  }

  /** At no moment are two rulings in flight. */
  ghost predicate Calm(states: seq<State>) {
    forall i :: 0 <= i < |states| ==> |states[i].resolving| <= 1
  }

  /** A run went on to `t`; if nothing crowded before and nothing does now, nothing did. */
  ghost predicate Extended(states: seq<State>, acts: seq<Act>, more: seq<State>, steps: seq<Act>, t: State) {
    states <= more && acts <= steps && (Calm(states) && |t.resolving| <= 1 ==> Calm(more))
  }

  lemma CalmEnd(env: Env, states: seq<State>, acts: seq<Act>, s: State)
    requires Reaches(env, states, acts, s) && Calm(states)
    ensures |s.resolving| <= 1
  {
    hide Next;
  }

  lemma Then(env: Env, states: seq<State>, acts: seq<Act>, s: State, a: Act, t: State)
    returns (more: seq<State>, steps: seq<Act>)
    requires Reaches(env, states, acts, s) && Next(env, s, a, t)
    ensures Reaches(env, more, steps, t) && Extended(states, acts, more, steps, t)
  {
    hide Next;
    more, steps := states + [t], acts + [a];
    forall i | 0 <= i < |steps| ensures Next(env, more[i], steps[i], more[i + 1]) {
      if i < |acts| { assert Next(env, states[i], acts[i], states[i + 1]); }
    }
  }

  lemma Start(env: Env) returns (states: seq<State>, acts: seq<Act>)
    ensures Reaches(env, states, acts, INITIAL) && Calm(states)
  {
    states, acts := [INITIAL], [];
  }

  // ------------------------------------------------------------------ publishing

  function Drafted(env: Env, b: Bundle): State {
    INITIAL.(registry := WithDraft(env.content, INITIAL.registry, "acme", b, "owner", "R", 0))
  }

  function FirstRun(env: Env, b: Bundle): ReplayRun {
    ReplayRun("T", "acme", ContentHash(env.content, b), None, CaseSetHash(env.cases, []), 0, SummaryOf([]), [], None)
  }

  function Replayed(env: Env, b: Bundle): State {
    Drafted(env, b).(runs := map[("acme", "T") := FirstRun(env, b)])
  }

  function Acknowledged(env: Env, b: Bundle): State {
    Drafted(env, b).(runs := map[("acme", "T") := FirstRun(env, b).(acknowledgedBy := Some("owner"))])
  }

  function Live(env: Env, b: Bundle): State {
    var s := Acknowledged(env, b);
    s.(registry := WithPublished(s.registry, "acme", "R", "T", "owner", 1))
  }

  lemma Drafts(env: Env, b: Bundle)
    requires ValidBundle(b)
    ensures Next(env, INITIAL, SaveDraft("acme", b, "owner", "R", 0), Drafted(env, b))
  {
    hide ValidBundle, ContentHash;
    assert forall id :: !HashTaken(INITIAL.registry.rows, "acme", ContentHash(env.content, b), id);
  }

  lemma Replays(env: Env, b: Bundle)
    ensures Next(env, Drafted(env, b), RunReplay("acme", "R", false, [], "T", 0), Replayed(env, b))
  {
    hide ContentHash, CaseAborts, CaseSetHash;
    assert Records(env.content, env.cases, env.lib, [], b, None, FirstRun(env, b));
  }

  lemma Acknowledges(env: Env, b: Bundle)
    ensures Next(env, Replayed(env, b), Acknowledge("acme", "T", "owner"), Acknowledged(env, b))
  {
    hide ContentHash, CaseSetHash;
  }

  lemma Publishes(env: Env, b: Bundle)
    ensures Next(env, Acknowledged(env, b), Publish("acme", "R", "owner", 1), Live(env, b))
  {
    hide ContentHash, CaseSetHash;
    var s := Acknowledged(env, b);
    assert PublishStep(s.runs, s.registry, Live(env, b).registry, "acme", "R", "T", "owner", 1);
  }

  lemma NothingInFlight(env: Env, b: Bundle)
    ensures |Drafted(env, b).resolving| == |Replayed(env, b).resolving| == 0
    ensures |Acknowledged(env, b).resolving| == |Live(env, b).resolving| == 0
  {
    hide ContentHash, CaseSetHash;
  }

  lemma GoesLive(env: Env, b: Bundle) returns (states: seq<State>, acts: seq<Act>)
    requires ValidBundle(b)
    ensures Reaches(env, states, acts, Live(env, b)) && Calm(states)
  {
    hide ValidBundle, Next, Reaches, Drafted, Replayed, Acknowledged, Live, Calm;
    NothingInFlight(env, b);
    Drafts(env, b);
    Replays(env, b);
    Acknowledges(env, b);
    Publishes(env, b);
    states, acts := Start(env);
    states, acts := Then(env, states, acts, INITIAL, SaveDraft("acme", b, "owner", "R", 0), Drafted(env, b));
    states, acts := Then(env, states, acts, Drafted(env, b), RunReplay("acme", "R", false, [], "T", 0),
        Replayed(env, b));
    states, acts := Then(env, states, acts, Replayed(env, b), Acknowledge("acme", "T", "owner"), Acknowledged(env, b));
    states, acts := Then(env, states, acts, Acknowledged(env, b), Publish("acme", "R", "owner", 1), Live(env, b));
  }

  /** The company's active bundle is `b`, and the ledger and the desk have nothing yet. */
  lemma LiveState(env: Env, b: Bundle)
    ensures var s := Live(env, b); var active := ActiveOf(s.registry, "acme");
            && active.Some? && active.value.bundle == b && active.value.companyId == "acme"
            && s.system == EMPTY && s.desk == Desk(map[], map[]) && s.resolving == map[]
  {
    hide ContentHash, CaseSetHash;
  }

  // ------------------------------------------------------------------ one call on its own

  /** The system after a call that met nobody: it looked its key up, read the head and appended. */
  ghost predicate Appended(s: System, t: System, n: nat, entry: Entry, id: string, e: Event) {
    && n in t.calls && t.calls[n].entry == entry && t.calls[n].pc == Returned(e, true)
    && t.calls == s.calls[n := t.calls[n]] && t.ids == s.ids + {id}
    && e.body.entry == entry && e.body.id == id
    && t.ledger.byKey == s.ledger.byKey[(entry.companyId, entry.key) := e]
    && t.ledger.byId == s.ledger.byId[(entry.companyId, id) := e]
  }

  lemma ReadyReadsAndAppends(digest: Digest, s: System, n: nat, id: string) returns (e: Event)
    requires n in s.calls && s.calls[n].pc == Ready(0) && CallKey(s.calls[n]) !in s.ledger.byKey && id !in s.ids
    ensures Appended(s, Take(digest, Take(digest, s, ReadHead(n, id, 0)), TryAppend(n)), n, s.calls[n].entry, id, e)
  {
    var c := s.calls[n];
    e := SealedEvent(digest, s, c, id, 0);
    var u := Take(digest, s, ReadHead(n, id, 0));
    assert u.calls[n].pc == Sealed(0, e) && u.ledger == s.ledger;
    assert Creates(digest, s.ledger, e);
    AppendKeepsMaps(digest, s.ledger, e);
    var t := Take(digest, u, TryAppend(n));
    assert t.calls[n].pc == Returned(e, true);
    assert t.calls == s.calls[n := t.calls[n]];
    assert Appended(s, t, n, c.entry, id, e);
  }

  lemma BeginsAndLooksUp(digest: Digest, s: System, n: nat, entry: Entry)
    requires n !in s.calls && (entry.companyId, entry.key) !in s.ledger.byKey
    ensures var t := Take(digest, Take(digest, s, Begin(n, entry, true, true)), Lookup(n));
            t == s.(calls := s.calls[n := Call(entry, true, Ready(0), [], [])])
  {
    assert s.calls[n := Call(entry, true, Looking, [], [])][n := Call(entry, true, Ready(0), [], [])] ==
           s.calls[n := Call(entry, true, Ready(0), [], [])];
  }

  /** The four steps of a decision nobody interferes with. */
  function DecidedAlone(digest: Digest, s: System, n: nat, entry: Entry, id: string): System {
    Take(digest, Take(digest, Take(digest, Take(digest, s, Begin(n, entry, true, true)), Lookup(n)),
                      ReadHead(n, id, 0)), TryAppend(n))
  }

  lemma DecisionAppends(digest: Digest, s: System, n: nat, entry: Entry, id: string) returns (e: Event)
    requires n !in s.calls && (entry.companyId, entry.key) !in s.ledger.byKey && id !in s.ids
    ensures Appended(s, DecidedAlone(digest, s, n, entry, id), n, entry, id, e)
  {
    BeginsAndLooksUp(digest, s, n, entry);
    var u := s.(calls := s.calls[n := Call(entry, true, Ready(0), [], [])]);
    e := ReadyReadsAndAppends(digest, u, n, id);
    var t := DecidedAlone(digest, s, n, entry, id);
    assert u.calls[n := t.calls[n]] == s.calls[n := t.calls[n]];
  }

  lemma Decides(env: Env, states: seq<State>, acts: seq<Act>, s: State, n: nat, workflow: string,
                facts: map<string, Json>, actor: Actor, key: string, id: string)
    returns (more: seq<State>, steps: seq<Act>, t: State, e: Event)
    requires Reaches(env, states, acts, s) && ActiveOf(s.registry, "acme").Some?
    requires var active := ActiveOf(s.registry, "acme").value;
             active.companyId == "acme" && Evaluate(env.lib, facts, active.bundle, workflow).Ruling?
    requires n !in s.system.calls && ("acme", key) !in s.system.ledger.byKey && id !in s.system.ids
    ensures Extended(states, acts, more, steps, t)
    ensures Reaches(env, more, steps, t) && t == s.(system := t.system)
    ensures var active := ActiveOf(s.registry, "acme").value;
            var entry := ProposedEntry(env, active, workflow, facts, actor, key);
            Appended(s.system, t.system, n, entry, id, e)
  {
    hide Evaluate, Reaches, Appended, ActiveOf, Take, Calm;
    var active := ActiveOf(s.registry, "acme").value;
    var entry := ProposedEntry(env, active, workflow, facts, actor, key);
    var d := env.digest;
    var s1 := s.(system := Take(d, s.system, Begin(n, entry, true, true)));
    var s2 := s1.(system := Take(d, s1.system, Lookup(n)));
    var s3 := s2.(system := Take(d, s2.system, ReadHead(n, id, 0)));
    t := s3.(system := Take(d, s3.system, TryAppend(n)));
    more, steps := Then(env, states, acts, s, StartDecide(n, "acme", workflow, facts, actor, key), s1);
    more, steps := Then(env, more, steps, s1, LedgerStep(Lookup(n)), s2);
    more, steps := Then(env, more, steps, s2, LedgerStep(ReadHead(n, id, 0)), s3);
    more, steps := Then(env, more, steps, s3, LedgerStep(TryAppend(n)), t);
    e := DecisionAppends(d, s.system, n, entry, id);
  }

  /** A call that is ready and finds its key taken. */
  lemma ReadyFindsTheKeyTaken(digest: Digest, s: System, n: nat, id: string)
    requires n in s.calls && s.calls[n].pc == Ready(0) && CallKey(s.calls[n]) in s.ledger.byKey && id !in s.ids
    ensures var t := Take(digest, Take(digest, s, ReadHead(n, id, 0)), TryAppend(n));
            && n in t.calls && t.calls[n].pc == Returned(s.ledger.byKey[CallKey(s.calls[n])], false)
            && t.calls == s.calls[n := t.calls[n]] && t.ledger == s.ledger && t.ids == s.ids + {id}
  {
    var e := SealedEvent(digest, s, s.calls[n], id, 0);
    var u := Take(digest, s, ReadHead(n, id, 0));
    assert u.calls[n].pc == Sealed(0, e) && u.ledger == s.ledger && KeyOf(e) == CallKey(s.calls[n]);
    var t := Take(digest, u, TryAppend(n));
    assert t.calls == s.calls[n := t.calls[n]];
  }

  // ------------------------------------------------------------------ a case

  const CASE: (string, string) := ("acme", "E")
  const CASE_KEY: Key := ("acme", AdjudicationKey("E"))

  /** The desk after the first decision opened its case. */
  lemma Opens(env: Env, states: seq<State>, acts: seq<Act>, s: State, n: nat, e: Event, why: (ReasonKind, Detail))
    returns (more: seq<State>, steps: seq<Act>, t: State)
    requires Reaches(env, states, acts, s) && s.desk == Desk(map[], map[])
    requires n in s.system.calls && s.system.calls[n].pc == Returned(e, true)
    requires e.body.entry.eventType == DecisionType && ReasonFor(e.body.entry.outcome) == Some(why)
    ensures Extended(states, acts, more, steps, t)
    ensures Reaches(env, more, steps, t) && t == s.(desk := t.desk)
    ensures t.desk.rows == map[(e.body.entry.companyId, "E") := Opened(e, why, "E", 0)]
  {
    hide Reaches, Calm;
    t := s.(desk := AfterAdd(s.desk, Opened(e, why, "E", 0)));
    more, steps := Then(env, states, acts, s, OpenCase(n, "E", 0), t);
  }

  ghost predicate OpenCaseAt(s: State) {
    && CASE in s.desk.rows && s.desk.rows[CASE].status == Open && RowKey(s.desk.rows[CASE]) == CASE
    && ("acme", s.desk.rows[CASE].decisionEventId) in s.system.ledger.byId
  }

  /** A run that has just opened its first case: nobody has ruled on it, and its key is free. */
  ghost predicate JustOpened(s: State) {
    && OpenCaseAt(s) && CASE_KEY !in s.system.ledger.byKey && s.resolving == map[]
    && s.system.calls.Keys == {0} && s.system.ids == {"D1"}
  }

  /** Whatever the bundle, one request it refers to a human opens a case. */
  lemma CaseIsOpened(env: Env, b: Bundle, workflow: string, facts: map<string, Json>, client: Actor)
    returns (states: seq<State>, acts: seq<Act>, s: State)
    requires ValidBundle(b) && Evaluate(env.lib, facts, b, workflow).Ruling?
    requires ReasonFor(ByPolicy(Evaluate(env.lib, facts, b, workflow).outcome)).Some?
    ensures Reaches(env, states, acts, s) && JustOpened(s) && Calm(states)
    ensures s.registry == Live(env, b).registry
  {
    hide ValidBundle, Evaluate, ReasonFor, Live, ActiveOf, Reaches, Calm;
    states, acts := GoesLive(env, b);
    LiveState(env, b);
    var s0 := Live(env, b);
    var s1, e;
    states, acts, s1, e := Decides(env, states, acts, s0, 0, workflow, facts, client, "K", "D1");
    var why := ReasonFor(e.body.entry.outcome).value;
    states, acts, s := Opens(env, states, acts, s1, 0, e, why);
    assert AdjudicationKey("E") != "K" by { assert AdjudicationKey("E")[0] == 'a'; }
  }

  // ------------------------------------------------------------------ rulings, step by step

  function RulingAt(s: State, w: Words): Entry
    requires CASE in s.desk.rows && ("acme", s.desk.rows[CASE].decisionEventId) in s.system.ledger.byId
  {
    EntryOf("acme", s.system.ledger.byId[("acme", s.desk.rows[CASE].decisionEventId)], w, "E")
  }

  function CaseAs(s: State, w: Words, promote: bool): Case
    requires CASE in s.desk.rows
  {
    Case(s.desk.rows[CASE], w.action, w.kind, w.rationale, w.resolver, promote)
  }

  /** The ruling has begun: it has read the case and is ready to append. */
  lemma StartsRuling(env: Env, states: seq<State>, acts: seq<Act>, s: State, n: nat, w: Words, promote: bool)
    returns (more: seq<State>, steps: seq<Act>, t: State)
    requires Reaches(env, states, acts, s) && OpenCaseAt(s) && n !in s.system.calls && !IsBlank(w.rationale)
    ensures Extended(states, acts, more, steps, t)
    ensures Reaches(env, more, steps, t)
    ensures t == s.(system := s.system.(calls := s.system.calls[n := Call(RulingAt(s, w), true, Ready(0), [], [])]),
                    resolving := s.resolving[n := CaseAs(s, w, promote)])
  {
    hide Reaches, AdjudicationEntry, IsBlank, Calm;
    t := s.(system := Take(env.digest, s.system, Begin(n, RulingAt(s, w), true, false)),
            resolving := s.resolving[n := CaseAs(s, w, promote)]);
    var a := StartResolve(n, "acme", "E", w.resolver, w.action, w.kind, w.rationale, promote);
    more, steps := Then(env, states, acts, s, a, t);
  }

  function ReadAndTried(digest: Digest, s: System, n: nat, id: string): System {
    Take(digest, Take(digest, s, ReadHead(n, id, 0)), TryAppend(n))
  }

  /** The ruling reads the head and appends; nobody steps in between. */
  lemma ReadsAndTries(env: Env, states: seq<State>, acts: seq<Act>, s: State, n: nat, id: string)
    returns (more: seq<State>, steps: seq<Act>, t: State)
    requires Reaches(env, states, acts, s)
    ensures Extended(states, acts, more, steps, t)
    ensures Reaches(env, more, steps, t) && t == s.(system := ReadAndTried(env.digest, s.system, n, id))
  {
    hide Reaches, Take, DecideStarts, CaseOpens, ResolveStarts, ResolveFinishes, RegistryStep, RunsStep, Calm;
    var u := s.(system := Take(env.digest, s.system, ReadHead(n, id, 0)));
    t := u.(system := Take(env.digest, u.system, TryAppend(n)));
    more, steps := Then(env, states, acts, s, LedgerStep(ReadHead(n, id, 0)), u);
    more, steps := Then(env, more, steps, u, LedgerStep(TryAppend(n)), t);
  }

  lemma Finishes(env: Env, states: seq<State>, acts: seq<Act>, s: State, n: nat)
    returns (more: seq<State>, steps: seq<Act>, t: State)
    requires Reaches(env, states, acts, s) && Ledgered(s, n)
    ensures Extended(states, acts, more, steps, t)
    ensures Reaches(env, more, steps, t)
    ensures t == s.(desk := AfterUpdate(s.desk, SettledRow(s.resolving[n], s.system.calls[n].pc.event, 0)),
                    resolving := s.resolving - {n})
  {
    hide Reaches, Calm;
    t := s.(desk := AfterUpdate(s.desk, SettledRow(s.resolving[n], s.system.calls[n].pc.event, 0)),
            resolving := s.resolving - {n});
    more, steps := Then(env, states, acts, s, FinishResolve(n, 0), t);
  }

  lemma PromotionBreaks(env: Env, states: seq<State>, acts: seq<Act>, s: State, n: nat)
    returns (more: seq<State>, steps: seq<Act>, t: State)
    requires Reaches(env, states, acts, s) && Ledgered(s, n) && s.resolving[n].promote
    ensures Extended(states, acts, more, steps, t)
    ensures Reaches(env, more, steps, t) && t == s.(resolving := s.resolving - {n})
  {
    hide Reaches, Calm;
    t := s.(resolving := s.resolving - {n});
    more, steps := Then(env, states, acts, s, PromotionRaises(n), t);
  }

  // ------------------------------------------------------------------ a concrete bundle

  /** One workflow and no policy: every request about it is referred to a human. */
  const SILENT: Bundle := Bundle("1", "acme", [WorkflowSpec("refund", [], "")], [])

  lemma SilentBundle(lib: Lib)
    ensures ValidBundle(SILENT) && Evaluate(lib, map[], SILENT, "refund").Ruling?
    ensures Evaluate(lib, map[], SILENT, "refund").outcome == Judgement.Escalation(NoMatchingPolicy, [], [])
  {
    assert RanksOverrides(SILENT.policies, map[]);
    var w := SILENT.workflows[0];
    assert WorkflowNamed(SILENT.workflows, "refund") == Some(w) && FactsTyped(map[], w);
    var ps := PoliciesFor(SILENT.policies, "refund");
    var ballots := Ballots(lib, ps, Effective(map[], w));
    assert ps == [] && ballots == {};
    JudgeNobody(ballots);
  }

  lemma SeenIsNotBlank()
    ensures !IsBlank("seen")
  {
    assert "seen"[0] == 's' && !IsSpace('s');
  }
}
