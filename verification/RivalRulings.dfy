/** Runs in which a case ends with words that are not on the ledger: two people rule on it at once, or
    the first ruling commits its event, fails to promote the case, and somebody else rules again. */
module RivalRulings {
  import opened Options
  import opened Schema
  import opened Evaluator
  import opened LedgerEvents
  import opened LedgerProtocol
  import opened Escalations
  import opened Governance
  import opened Finality
  import opened Faithfulness
  import opened SampleRuns

  /** The case is resolved with one person's words, and another's ruling is still in flight. */
  ghost predicate RivalInFlight(s: State, yes: Words, no: Words) {
    && Stands(s, CASE, yes) && s.desk.rows[CASE].status == Resolved && LedgerSays(s, CASE, yes)
    && InFlightSays(s, CASE, no)
  }

  /** The desk says one thing, the ledger event the case names says another. */
  ghost predicate Contradicted(s: State, yes: Words, no: Words) {
    Stands(s, CASE, no) && s.desk.rows[CASE].status == Resolved && LedgerSays(s, CASE, yes) && !Faithful(s, CASE)
  }

  /** One ruling commits its event while the key is free. */
  lemma Commits(env: Env, states: seq<State>, acts: seq<Act>, s: State, n: nat, w: Words, id: string)
    returns (more: seq<State>, steps: seq<Act>, t: State)
    requires Reaches(env, states, acts, s) && CASE_KEY !in s.system.ledger.byKey && id !in s.system.ids
    requires n in s.system.calls && s.system.calls[n].pc == Ready(0) && s.system.calls[n].entry.outcome.ByHuman?
    requires CallKey(s.system.calls[n]) == CASE_KEY && EntrySays(s.system.calls[n].entry, w)
    ensures Reaches(env, more, steps, t) && t == s.(system := t.system) && LedgerSays(t, CASE, w)
    ensures n in t.system.calls && t.system.calls[n].pc.Returned? && t.system.ids == s.system.ids + {id}
    ensures t.system.calls == s.system.calls[n := t.system.calls[n]]
    ensures s.system.ledger.byId.Keys <= t.system.ledger.byId.Keys && Extended(states, acts, more, steps, t)
  {
    hide Reaches, Take, Calm;
    more, steps, t := ReadsAndTries(env, states, acts, s, n, id);
    var e := ReadyReadsAndAppends(env.digest, s.system, n, id);
  }

  /** Another ruling finds the key taken and finishes: the desk says what it says, the ledger does not. */
  lemma FindsAndFinishes(env: Env, states: seq<State>, acts: seq<Act>, s: State, n: nat, yes: Words, no: Words,
                         id: string)
    returns (more: seq<State>, steps: seq<Act>, t: State)
    requires Reaches(env, states, acts, s) && LedgerSays(s, CASE, yes) && yes != no && id !in s.system.ids
    requires n in s.resolving && RowKey(s.resolving[n].escalation) == CASE && Spoken(s.resolving[n]) == no
    requires n in s.system.calls && s.system.calls[n].pc == Ready(0) && CallKey(s.system.calls[n]) == CASE_KEY
    ensures Reaches(env, more, steps, t) && Contradicted(t, yes, no) && Extended(states, acts, more, steps, t)
    ensures t.resolving == s.resolving - {n}
  {
    hide Reaches, Take, Calm;
    if Calm(states) { CalmEnd(env, states, acts, s); }
    var u;
    more, steps, u := ReadsAndTries(env, states, acts, s, n, id);
    ReadyFindsTheKeyTaken(env.digest, s.system, n, id);
    more, steps, t := Finishes(env, more, steps, u, n);
  }

  /** Two rulings on one case, of which the first is done and the second in flight, ... */
  lemma RivalsMeet(env: Env, states: seq<State>, acts: seq<Act>, s: State, yes: Words, no: Words)
    returns (more: seq<State>, steps: seq<Act>, t: State)
    requires Reaches(env, states, acts, s) && JustOpened(s) && !IsBlank(yes.rationale) && !IsBlank(no.rationale)
    ensures Reaches(env, more, steps, t) && RivalInFlight(t, yes, no) && t.system.ids == {"D1", "D3"}
    ensures 2 in t.resolving && RowKey(t.resolving[2].escalation) == CASE && Spoken(t.resolving[2]) == no
    ensures 2 in t.system.calls && t.system.calls[2].pc == Ready(0) && CallKey(t.system.calls[2]) == CASE_KEY
  {
    hide Extended, Reaches, IsBlank, Conveys, Calm, Says;
    var u, v, x;
    more, steps, u := StartsRuling(env, states, acts, s, 1, yes, false);
    more, steps, v := StartsRuling(env, more, steps, u, 2, no, false);
    more, steps, x := Commits(env, more, steps, v, 1, yes, "D3");
    more, steps, t := Finishes(env, more, steps, x, 1);
    assert RulingSays(t, CASE, 2, no);
  }

  /** Main result: whatever the bundle, one request it refers to a human is enough for a run in which one
      person resolves the case with any words, while a ruling with any other words is in flight; and
      it goes on to a state in which these stand on the desk and the ledger still says the first. */
  lemma LaterRulingOverwrites(env: Env, b: Bundle, workflow: string, facts: map<string, Json>, client: Actor,
                              yes: Words, no: Words)
    returns (states: seq<State>, acts: seq<Act>, i: nat)
    requires ValidBundle(b) && Evaluate(env.lib, facts, b, workflow).Ruling?
    requires ReasonFor(ByPolicy(Evaluate(env.lib, facts, b, workflow).outcome)).Some?
    requires yes != no && !IsBlank(yes.rationale) && !IsBlank(no.rationale)
    ensures Run(env, states, acts) && i <= |acts|
    ensures RivalInFlight(states[i], yes, no) && Contradicted(states[|acts|], yes, no)
  {
    hide ValidBundle, Evaluate, ReasonFor, IsBlank, Next, InFlightSays, Contradicted, Calm;
    var s, t, u;
    states, acts, s := CaseIsOpened(env, b, workflow, facts, client);
    states, acts, t := RivalsMeet(env, states, acts, s, yes, no);
    i := |acts|;
    states, acts, u := FindsAndFinishes(env, states, acts, t, 2, yes, no, "D4");
  }

  /** The ledger has the first ruling; the case is still open and nobody is ruling on it. */
  ghost predicate LedgeredButOpen(s: State, w: Words) {
    && OpenCaseAt(s) && LedgerSays(s, CASE, w) && s.resolving == map[]
    && s.system.calls.Keys == {0, 1} && s.system.ids == {"D1", "D3"}
  }

  lemma FailsToPromote(env: Env, states: seq<State>, acts: seq<Act>, s: State, yes: Words)
    returns (more: seq<State>, steps: seq<Act>, t: State)
    requires Reaches(env, states, acts, s) && JustOpened(s) && Calm(states) && !IsBlank(yes.rationale)
    ensures Reaches(env, more, steps, t) && LedgeredButOpen(t, yes) && Calm(more)
  {
    hide Reaches, IsBlank, Calm;
    var u, v;
    more, steps, u := StartsRuling(env, states, acts, s, 1, yes, true);
    more, steps, v := Commits(env, more, steps, u, 1, yes, "D3");
    more, steps, t := PromotionBreaks(env, more, steps, v, 1);
  }

  lemma RulesOtherwise(env: Env, states: seq<State>, acts: seq<Act>, s: State, yes: Words, no: Words)
    returns (more: seq<State>, steps: seq<Act>, t: State)
    requires Reaches(env, states, acts, s) && LedgeredButOpen(s, yes) && Calm(states)
    requires yes != no && !IsBlank(no.rationale)
    ensures Reaches(env, more, steps, t) && Contradicted(t, yes, no) && Calm(more)
  {
    hide Reaches, IsBlank, Calm, Contradicted;
    var u;
    more, steps, u := StartsRuling(env, states, acts, s, 2, no, false);
    more, steps, t := FindsAndFinishes(env, more, steps, u, 2, yes, no, "D4");
    assert t.resolving == map[];
  }

  /** Main result: with no two rulings in flight at once the same happens, when the promotion of the first
      one raises after its event is on the ledger and a second person then rules otherwise. */
  lemma RetryContradictsTheLedger(env: Env, b: Bundle, workflow: string, facts: map<string, Json>, client: Actor,
                                  yes: Words, no: Words)
    returns (states: seq<State>, acts: seq<Act>)
    requires ValidBundle(b) && Evaluate(env.lib, facts, b, workflow).Ruling?
    requires ReasonFor(ByPolicy(Evaluate(env.lib, facts, b, workflow).outcome)).Some?
    requires yes != no && !IsBlank(yes.rationale) && !IsBlank(no.rationale)
    ensures Run(env, states, acts) && Contradicted(states[|acts|], yes, no)
    ensures Calm(states)
  {
    hide ValidBundle, Evaluate, ReasonFor, IsBlank, Next, Contradicted, Calm, LedgeredButOpen;
    var s, t, u;
    states, acts, s := CaseIsOpened(env, b, workflow, facts, client);
    states, acts, t := FailsToPromote(env, states, acts, s, yes);
    states, acts, u := RulesOtherwise(env, states, acts, t, yes, no);
  }

  // ------------------------------------------------------------------ concrete runs

  const GRANT: Words := Words("grant", "approve", "seen", Actor("human", "ann", None))
  const REFUSE: Words := Words("refuse", "deny", "seen", Actor("human", "bob", None))

  /** Both runs exist, whatever the library functions and the hashes are. */
  lemma RivalsOverwrite(env: Env) returns (states: seq<State>, acts: seq<Act>, i: nat)
    ensures Run(env, states, acts) && i <= |acts|
    ensures RivalInFlight(states[i], GRANT, REFUSE) && Contradicted(states[|acts|], GRANT, REFUSE)
  {
    hide Evaluate, ValidBundle, Run, RivalInFlight, Contradicted, IsBlank;
    SilentBundle(env.lib);
    SeenIsNotBlank();
    var client := Actor("agent", "bot", None);
    states, acts, i := LaterRulingOverwrites(env, SILENT, "refund", map[], client, GRANT, REFUSE);
  }

  lemma RetriesContradict(env: Env) returns (states: seq<State>, acts: seq<Act>)
    ensures Run(env, states, acts) && Contradicted(states[|acts|], GRANT, REFUSE) && Calm(states)
  {
    hide Evaluate, ValidBundle, Run, Contradicted, IsBlank, Calm;
    SilentBundle(env.lib);
    SeenIsNotBlank();
    states, acts := RetryContradictsTheLedger(env, SILENT, "refund", map[], Actor("agent", "bot", None), GRANT, REFUSE);
  }
}
