/** The account of a ruling leaves nothing open: it fixes every field of the outcome and the trace, so
    on an accepted bundle the ruling of `evaluate` is the one result that is accounted for. */
module AccountExact {
  import opened Options
  import opened Text
  import opened Schema
  import opened Precedence
  import opened Selection
  import opened Judgement
  import opened Evaluator
  import opened RulingsAccounted
  import A = Account

  // ------------------------------------------------------------------ facts

  lemma SeenOneWay(v: Json, s: Scalar, t: Scalar)
    requires A.SeenAs(v, s) && A.SeenAs(v, t)
    ensures s == t
  {
    assert s.Int? ==> (s.i as real).Floor == s.i;
    assert t.Int? ==> (t.i as real).Floor == t.i;
  }

  lemma FactsExact(facts: map<string, Json>, w: WorkflowSpec, s: Trace, t: Trace)
    requires A.FactsAccounted(facts, w, s) && A.FactsAccounted(facts, w, t)
    ensures s.factsSupplied == t.factsSupplied && s.factsEffective == t.factsEffective
    ensures s.factsIgnored == t.factsIgnored && s.defaultsApplied == t.defaultsApplied
  {
    AscendingUnique(s.factsIgnored, t.factsIgnored);
    AscendingUnique(s.defaultsApplied, t.defaultsApplied);
    forall n | n in s.factsEffective ensures s.factsEffective[n] == t.factsEffective[n] {
      if n in facts {
        var f :| f in w.facts && f.name == n;
        SeenOneWay(facts[n], s.factsEffective[n], t.factsEffective[n]);
      } else {
        var f :| f in w.facts && f.name == n && f.default.Some?;
      }
    }
    forall n ensures n in s.factsEffective <==> n in t.factsEffective { }
  }

  // ------------------------------------------------------------------ policies

  lemma PolicyExact(lib: Lib, p: Policy, e: map<string, Scalar>, r: PolicyEvaluation, s: PolicyEvaluation)
    requires A.PolicyAccounted(lib, p, e, r) && A.PolicyAccounted(lib, p, e, s)
    ensures r == s
  {
    hide A.Matches, A.Fails, A.Lacks, A.Holds;
    AscendingUnique(r.missingFields, s.missingFields);
    forall i | 0 <= i < |p.conditions| ensures r.conditions[i] == s.conditions[i] {
      assert A.ResultAccounted(lib, p.conditions[i], e, r.conditions[i]);
      assert A.ResultAccounted(lib, p.conditions[i], e, s.conditions[i]);
    }
    assert r.conditions == s.conditions;
  }

  lemma PoliciesExact(lib: Lib, ps: seq<Policy>, e: map<string, Scalar>, r: seq<PolicyEvaluation>,
                      s: seq<PolicyEvaluation>)
    requires A.PoliciesAccounted(lib, ps, e, r) && A.PoliciesAccounted(lib, ps, e, s)
    ensures r == s
  {
    hide A.PolicyAccounted;
    forall i | 0 <= i < |ps| ensures r[i] == s[i] { PolicyExact(lib, ps[i], e, r[i], s[i]); }
  }

  // ------------------------------------------------------------------ the outcome

  /** One of the three: a tie, a sole leader, or nobody matched. */
  ghost predicate SomeCase(lib: Lib, ps: seq<Policy>, e: map<string, Scalar>) {
    || A.Tied(lib, ps, e)
    || (exists p :: p in ps && A.LeadsAlone(lib, ps, e, p))
    || (forall p :: p in ps ==> !A.Matches(lib, p, e))
  }

  lemma SomeCaseHolds(lib: Lib, ps: seq<Policy>, e: map<string, Scalar>)
    requires Clear(lib, ps, e) && !Stuck(MatchedOn(lib, ps, e))
    ensures SomeCase(lib, ps, e)
  {
    hide Clear, Finalists, A.Tied, A.LeadsAlone, Stuck, A.Matches;
    var m := MatchedOn(lib, ps, e);
    TiedExactly(lib, ps, e);
    AloneExactly(lib, ps, e);
    NoFinalists(m);
    if m == {} {
      NobodyMatches(lib, ps, e);
    } else if !A.Tied(lib, ps, e) {
      SizeOne(Finalists(m));
    }
  }

  lemma UnmatchedExact(lib: Lib, ps: seq<Policy>, e: map<string, Scalar>, o: Outcome, u: Outcome)
    requires A.UnmatchedOutcome(lib, ps, e, o) && A.UnmatchedOutcome(lib, ps, e, u)
    ensures o == u
  {
    hide A.Pends, A.Lacks;
    if exists v :: v in ps && A.Pends(lib, v, e) {
      forall x ensures x in o.missingFacts <==> x in u.missingFacts { }
      AscendingUnique(o.missingFacts, u.missingFacts);
    }
  }

  lemma LedExact(lib: Lib, ps: seq<Policy>, e: map<string, Scalar>, p: Policy, o: Outcome, u: Outcome)
    requires A.LedOutcome(lib, ps, e, p, o) && A.LedOutcome(lib, ps, e, p, u)
    ensures o == u
  {
    hide A.Blocks, A.Blocked, A.Lacks;
    if A.Blocked(lib, ps, e, p) {
      forall x ensures x in o.missingFacts <==> x in u.missingFacts { }
      AscendingUnique(o.missingFacts, u.missingFacts);
    }
  }

  lemma TiedExact(lib: Lib, ps: seq<Policy>, e: map<string, Scalar>, o: Outcome, u: Outcome)
    requires A.TiedOutcome(lib, ps, e, o) && A.TiedOutcome(lib, ps, e, u)
    ensures o == u
  {
    hide A.Leads;
    forall x ensures x in o.conflictBetween <==> x in u.conflictBetween { }
    AscendingUnique(o.conflictBetween, u.conflictBetween);
  }

  lemma OutcomeExact(lib: Lib, ps: seq<Policy>, e: map<string, Scalar>, o: Outcome, u: Outcome)
    requires SomeCase(lib, ps, e)
    requires A.OutcomeAccounted(lib, ps, e, o) && A.OutcomeAccounted(lib, ps, e, u)
    ensures o == u
  {
    hide A.Tied, A.LeadsAlone, A.Matches, A.TiedOutcome, A.LedOutcome, A.UnmatchedOutcome;
    if A.Tied(lib, ps, e) {
      TiedExact(lib, ps, e, o, u);
    } else if exists p :: p in ps && A.LeadsAlone(lib, ps, e, p) {
      var p :| p in ps && A.LeadsAlone(lib, ps, e, p);
      LedExact(lib, ps, e, p, o, u);
    } else {
      UnmatchedExact(lib, ps, e, o, u);
    }
  }

  // ------------------------------------------------------------------ the precedence trace

  lemma PrecedenceExact(lib: Lib, ps: seq<Policy>, e: map<string, Scalar>, t: PrecedenceTrace, u: PrecedenceTrace)
    requires A.PrecedenceAccounted(lib, ps, e, t) && A.PrecedenceAccounted(lib, ps, e, u)
    ensures t.appliedRules == u.appliedRules && t.winner == u.winner
    ensures t.tieBetween == u.tieBetween && t.dominanceBlockedBy == u.dominanceBlockedBy
  {
    RulesExact(lib, ps, e, t.appliedRules, u.appliedRules);
    hide A.RulesAccounted, A.LeadsAlone, A.Blocked, A.Tied, A.Leads, A.Blocks;
    AscendingUnique(t.tieBetween, u.tieBetween);
    forall x ensures x in t.dominanceBlockedBy <==> x in u.dominanceBlockedBy { }
    AscendingUnique(t.dominanceBlockedBy, u.dominanceBlockedBy);
  }

  lemma RulesExact(lib: Lib, ps: seq<Policy>, e: map<string, Scalar>, a: seq<Rule>, b: seq<Rule>)
    requires A.RulesAccounted(lib, ps, e, a) && A.RulesAccounted(lib, ps, e, b)
    ensures a == b
  {
  }

  // ------------------------------------------------------------------ the strikes

  predicate Rising(block: seq<Elimination>) {
    forall i, j :: 0 <= i < j < |block| ==> Less(block[i].policyId, block[j].policyId)
  }

  lemma RisingHeads(a: seq<Elimination>, b: seq<Elimination>)
    requires Rising(a) && Rising(b) && a != [] && b != []
    requires forall x :: x in a <==> x in b
    ensures a[0] == b[0]
  {
    assert a[0] in b && b[0] in a;
    if a[0] != b[0] {
      LessTransitive(a[0].policyId, b[0].policyId, a[0].policyId);
      LessIrreflexive(a[0].policyId);
    }
  }

  lemma {:induction false} RisingUnique(a: seq<Elimination>, b: seq<Elimination>)
    requires Rising(a) && Rising(b) && forall x :: x in a <==> x in b
    ensures a == b
  {
    assert b == [] || b[0] in a;
    if a != [] {
      assert a[0] in b;
      RisingHeads(a, b);
      LessIrreflexive(a[0].policyId);
      forall x ensures x in a[1..] <==> x in b[1..] {
        assert x in a <==> x == a[0] || x in a[1..];
        assert x in b <==> x == b[0] || x in b[1..];
      }
      RisingUnique(a[1..], b[1..]);
    }
  }

  lemma BlockExact(lib: Lib, ps: seq<Policy>, e: map<string, Scalar>, rule: Rule, a: seq<Elimination>,
                   b: seq<Elimination>)
    requires A.BlockAccounted(lib, ps, e, rule, a) && A.BlockAccounted(lib, ps, e, rule, b)
    ensures a == b
  {
    hide A.StruckBy, Less;
    forall x | x in a || x in b ensures x in a && x in b {
      assert x == Elimination(x.policyId, x.eliminatedBy, rule);
    }
    RisingUnique(a, b);
  }

  lemma StrikesExact(lib: Lib, ps: seq<Policy>, e: map<string, Scalar>, s: seq<Elimination>, t: seq<Elimination>)
    requires A.StrikesAccounted(lib, ps, e, s) && A.StrikesAccounted(lib, ps, e, t)
    ensures s == t
  {
    hide A.BlockAccounted;
    var a, b, c :| s == a + b + c && A.BlockAccounted(lib, ps, e, OverridesRule, a)
                   && A.BlockAccounted(lib, ps, e, SpecificityRule, b) && A.BlockAccounted(lib, ps, e, PriorityRule, c);
    var i, j, k :| t == i + j + k && A.BlockAccounted(lib, ps, e, OverridesRule, i)
                   && A.BlockAccounted(lib, ps, e, SpecificityRule, j) && A.BlockAccounted(lib, ps, e, PriorityRule, k);
    BlockExact(lib, ps, e, OverridesRule, a, i);
    BlockExact(lib, ps, e, SpecificityRule, b, j);
    BlockExact(lib, ps, e, PriorityRule, c, k);
  }

  // ------------------------------------------------------------------ the ruling

  lemma AccountedOnce(lib: Lib, facts: map<string, Json>, w: WorkflowSpec, ps: seq<Policy>, r: EvalResult,
                      s: EvalResult)
    requires A.RulingAccounted(lib, facts, w, ps, r) && A.RulingAccounted(lib, facts, w, ps, s)
    requires SomeCase(lib, ps, r.trace.factsEffective)
    ensures r == s
  {
    hide A.FactsAccounted, A.PoliciesAccounted, A.OutcomeAccounted, A.PrecedenceAccounted, A.StrikesAccounted, SomeCase;
    var e := r.trace.factsEffective;
    FactsExact(facts, w, r.trace, s.trace);
    PoliciesExact(lib, ps, e, r.trace.policies, s.trace.policies);
    OutcomeExact(lib, ps, e, r.outcome, s.outcome);
    PrecedenceExact(lib, ps, e, r.trace.precedence, s.trace.precedence);
    StrikesExact(lib, ps, e, r.trace.precedence.eliminated, s.trace.precedence.eliminated);
    assert r.trace == s.trace;
  }

  /** Main result: where `evaluate` rules, its ruling is the one and only result accounted for. */
  lemma RulingIsTheAccount(lib: Lib, facts: map<string, Json>, b: Bundle, workflow: string, w: WorkflowSpec,
                           r: EvalResult)
    returns (ps: seq<Policy>)
    requires ValidBundle(b) && w in b.workflows && w.name == workflow
    requires Evaluate(lib, facts, b, workflow).Ruling?
    ensures A.SelectsInOrder(b.policies, workflow, ps)
    ensures r == Evaluate(lib, facts, b, workflow) <==> A.RulingAccounted(lib, facts, w, ps, r)
  {
    hide A.FactsAccounted, A.PoliciesAccounted, A.OutcomeAccounted, A.PrecedenceAccounted, A.StrikesAccounted,
        A.SelectsInOrder, ValidBundle, Stuck, Clear, Judge, Effective, FactsTyped, SomeOverflow, Ignored, Defaulted,
        Evaluations, EliminationsOf, WithStatus, SomeCase;
    var s := Evaluate(lib, facts, b, workflow);
    ps := RulingIsAccounted(lib, facts, b, workflow, w);
    NamedWorkflow(b, workflow, w);
    RuledIsClear(lib, facts, b, workflow, w);
    SomeCaseHolds(lib, PoliciesFor(b.policies, workflow), Effective(facts, w));
    if A.RulingAccounted(lib, facts, w, ps, r) { AccountedOnce(lib, facts, w, ps, s, r); }
  }

  // ------------------------------------------------------------------ requests that get no ruling

  lemma TypedExactly(facts: map<string, Json>, w: WorkflowSpec)
    requires UniqueFacts(w)
    ensures FactsTyped(facts, w) <==> !A.SomeMistyped(facts, w)
  {
    forall f | f in w.facts ensures FactNamed(w.facts, f.name) == Some(f) { SpecIsNamed(w, f); }
    if A.SomeMistyped(facts, w) {
      var f :| f in w.facts && f.name in facts && !A.OfType(facts[f.name], f.valueType);
      assert Declared(w, f.name) && Reading(facts, w, f.name) == None;
    }
    if !FactsTyped(facts, w) {
      var n :| n in facts && Declared(w, n) && Reading(facts, w, n).None?;
      var f := FactNamed(w.facts, n).value;
      assert f in w.facts && f.name == n && !A.OfType(facts[n], f.valueType);
    }
  }

  lemma SeenExactly(facts: map<string, Json>, w: WorkflowSpec, f: FactSpec, v: Scalar)
    requires UniqueFacts(w) && FactsTyped(facts, w) && f in w.facts
    ensures A.SeenFact(facts, f, v) <==> f.name in Effective(facts, w) && Effective(facts, w)[f.name] == v
  {
    SpecIsNamed(w, f);
    assert Declared(w, f.name);
    if f.name in facts {
      var read := CheckType(facts[f.name], f.valueType);
      assert Reading(facts, w, f.name) == read;
      SeenAsRead(facts[f.name], f.valueType);
      if A.SeenFact(facts, f, v) { SeenOneWay(facts[f.name], v, read.value); }
    }
  }

  lemma OverflowExactly(lib: Lib, facts: map<string, Json>, b: Bundle, w: WorkflowSpec)
    requires ValidBundle(b) && UniqueFacts(w) && FactsTyped(facts, w)
    ensures TouchesHugeNumber(lib, Effective(facts, w), b, w.name) <==> A.OverflowDue(lib, facts, w, b)
  {
    hide UniqueFacts, FactsTyped, A.SeenFact, ValidBundle, Effective;
    var e := Effective(facts, w);
    if TouchesHugeNumber(lib, e, b, w.name) {
      var p, c :| p in b.policies && p.workflow == w.name && c in p.conditions && c.valueType == NumberType
                  && c.field in e && c.value.One? && (Huge(lib, e[c.field]) || Huge(lib, c.value.v));
      var f := EffectiveSpec(facts, w, c.field);
      SeenExactly(facts, w, f, e[c.field]);
      assert A.TooLarge(lib, e[c.field]) || A.TooLarge(lib, c.value.v);
    }
    if A.OverflowDue(lib, facts, w, b) {
      var p, c, f, v :| p in b.policies && p.workflow == w.name && c in p.conditions && c.valueType == NumberType
                        && f in w.facts && f.name == c.field && A.SeenFact(facts, f, v)
                        && (A.TooLarge(lib, v) || (c.value.One? && A.TooLarge(lib, c.value.v)));
      SeenExactly(facts, w, f, v);
      NumbersAreSingle(b, p, c);
      assert c.field in e && e[c.field] == v;
      assert A.TooLarge(lib, v) || A.TooLarge(lib, c.value.v);
      if A.TooLarge(lib, v) { assert Huge(lib, v); } else { assert Huge(lib, c.value.v); }
    }
  }

  lemma EffectiveSpec(facts: map<string, Json>, w: WorkflowSpec, name: string) returns (f: FactSpec)
    requires name in Effective(facts, w)
    ensures f in w.facts && f.name == name
  {
    f :| f in w.facts && f.name == name;
  }

  lemma NumbersAreSingle(b: Bundle, p: Policy, c: Condition)
    requires ValidBundle(b) && p in b.policies && c in p.conditions && c.valueType == NumberType
    ensures c.value.One?
  {
    assert ValidPolicy(p) && ValidCondition(c);
  }

  lemma RequestIs(lib: Lib, facts: map<string, Json>, b: Bundle, workflow: string)
    ensures var r, w := Evaluate(lib, facts, b, workflow), WorkflowNamed(b.workflows, workflow);
            && (r.UnknownWorkflow? <==> w.None?)
            && (r.InvalidFacts? <==> w.Some? && !FactsTyped(facts, w.value))
  {
    hide FactsTyped, Effective, Judge, SomeOverflow, Stuck;
  }

  /** Main result: when `evaluate` refuses to rule, and how, on an accepted bundle. */
  lemma RefusalsAreExact(lib: Lib, facts: map<string, Json>, b: Bundle, w: WorkflowSpec, other: string)
    requires ValidBundle(b) && w in b.workflows
    ensures var r := Evaluate(lib, facts, b, w.name);
            && (r.InvalidFacts? <==> A.SomeMistyped(facts, w))
            && (r.Overflow? <==> !A.SomeMistyped(facts, w) && A.OverflowDue(lib, facts, w, b))
            && (r.Ruling? <==> !A.SomeMistyped(facts, w) && !A.OverflowDue(lib, facts, w, b))
    ensures Evaluate(lib, facts, b, other).UnknownWorkflow? <==> forall v :: v in b.workflows ==> v.name != other
  {
    hide Evaluate, ValidBundle, FactsTyped, Effective, A.SomeMistyped, A.OverflowDue, TouchesHugeNumber, UniqueFacts,
        WorkflowNamed;
    NamedWorkflow(b, w.name, w);
    RequestIs(lib, facts, b, w.name);
    RequestIs(lib, facts, b, other);
    TypedExactly(facts, w);
    if FactsTyped(facts, w) {
      OverflowsExactlyOnHugeNumbers(lib, facts, b, w.name, w);
      OverflowExactly(lib, facts, b, w);
    }
  }
}
