/** A run of the whole system that ends with an escalation resolved by a DECISION event: a client
    used the escalation's adjudication key for a decision of its own before anybody ruled on it. */
module ReservedKeyRun {
  import opened Options
  import opened Schema
  import opened Evaluator
  import opened Lifecycle
  import opened LedgerEvents
  import opened LedgerProtocol
  import opened Escalations
  import opened Governance
  import opened SampleRuns

  ghost predicate ResolvedByADecision(s: State, k: (string, string)) {
    && k in s.desk.rows && s.desk.rows[k].status == Resolved && s.desk.rows[k].resolution.Some?
    && var key := (k.0, AdjudicationKey(k.1));
    && key in s.system.ledger.byKey && s.system.ledger.byKey[key].body.entry.eventType == DecisionType
    && s.desk.rows[k].resolution.value.adjudicationEventId == s.system.ledger.byKey[key].body.id
  }

  /** Ruling on the case comes back with the event that holds its key. */
  lemma RulingFindsIt(env: Env, states: seq<State>, acts: seq<Act>, s: State, n: nat, w: Words)
    returns (more: seq<State>, steps: seq<Act>, t: State)
    requires Reaches(env, states, acts, s) && OpenCaseAt(s) && n !in s.system.calls && "D3" !in s.system.ids
    requires CASE_KEY in s.system.ledger.byKey && !IsBlank(w.rationale)
    ensures Reaches(env, more, steps, t) && CASE in t.desk.rows && t.system.ledger == s.system.ledger
    ensures var row := t.desk.rows[CASE];
            && row.status == Resolved && row.resolution.Some?
            && row.resolution.value.adjudicationEventId == s.system.ledger.byKey[CASE_KEY].body.id
  {
    hide Reaches, Take, IsBlank;
    var u, v;
    more, steps, u := StartsRuling(env, states, acts, s, n, w, false);
    more, steps, v := ReadsAndTries(env, more, steps, u, n, "D3");
    ReadyFindsTheKeyTaken(env.digest, u.system, n, "D3");
    more, steps, t := Finishes(env, more, steps, v, n);
  }

  /** Whatever the bundle, one request it refers to a human is enough: the client decides, the case
      opens, the client decides once more under the case's adjudication key, and the ruling on the
      case is recorded as that second decision. */
  lemma ClientTakesTheKey(env: Env, b: Bundle, workflow: string, facts: map<string, Json>, client: Actor, w: Words)
    returns (states: seq<State>, acts: seq<Act>)
    requires ValidBundle(b) && Evaluate(env.lib, facts, b, workflow).Ruling? && !IsBlank(w.rationale)
    requires ReasonFor(ByPolicy(Evaluate(env.lib, facts, b, workflow).outcome)).Some?
    ensures Run(env, states, acts) && ResolvedByADecision(states[|acts|], CASE)
  {
    hide ValidBundle, Evaluate, ReasonFor, Live, ActiveOf, Run, IsBlank;
    var s, t, u, d;
    states, acts, s := CaseIsOpened(env, b, workflow, facts, client);
    LiveState(env, b);
    states, acts, t, d := Decides(env, states, acts, s, 1, workflow, facts, client, AdjudicationKey("E"), "D2");
    states, acts, u := RulingFindsIt(env, states, acts, t, 2, w);
  }

  /** Such a run exists, whatever the library functions and the hashes are. */
  lemma KeysCanBeTaken(env: Env) returns (states: seq<State>, acts: seq<Act>)
    ensures Run(env, states, acts) && ResolvedByADecision(states[|acts|], CASE)
  {
    hide Evaluate, ValidBundle, Run, ResolvedByADecision, IsBlank;
    SilentBundle(env.lib);
    SeenIsNotBlank();
    var yes := Words("grant", "approve", "seen", Actor("human", "ann", None));
    states, acts := ClientTakesTheKey(env, SILENT, "refund", map[], Actor("agent", "bot", None), yes);
  }
}
