/** The smallest accepted bundle around one condition: one workflow, one fact, one policy.
    It decides exactly what the condition compares, so it separates any two readings of a
    value that a condition can tell apart. */
module Solo {
  import opened Options
  import opened Schema
  import opened Precedence
  import opened Judgement
  import opened Evaluator
  import opened Likeness

  function SoloPolicy(c: Condition): Policy {
    Policy("p", "w", Effect(Approve, "go"), 0, [c], Authority(false, None),
           [Evidence("s", "v", 0, 1, "x")], [], false, "")
  }

  function SoloWorkflow(c: Condition): WorkflowSpec {
    WorkflowSpec("w", [FactSpec(c.field, c.valueType, "", None)], "")
  }

  function SoloBundle(c: Condition): Bundle {
    Bundle("1", "acme", [SoloWorkflow(c)], [SoloPolicy(c)])
  }

  lemma SoloValid(c: Condition)
    requires ValidCondition(c)
    ensures ValidBundle(SoloBundle(c))
  {
    var b := SoloBundle(c);
    assert b.policies[0].evidence[0].excerpt[0] == 'x';
    assert Undotted("p") == "p" && Undotted("w") == "w";
    DistinctFrom(b.policies);
    assert RanksOverrides(b.policies, map["p" := 0]);
    assert FactNamed(SoloWorkflow(c).facts, c.field) == Some(SoloWorkflow(c).facts[0]);
    assert PolicyPlaced(b.policies[0], b);
  }

  lemma SoloEffective(c: Condition, facts: map<string, Json>, v: Scalar)
    requires c.field in facts && CheckType(facts[c.field], c.valueType) == Some(v)
    ensures FactsTyped(facts, SoloWorkflow(c))
    ensures Effective(facts, SoloWorkflow(c)) == map[c.field := v]
  {
    var w := SoloWorkflow(c);
    assert FactNamed(w.facts, c.field) == Some(w.facts[0]);
    forall n ensures n in FactNames(w) <==> n == c.field { assert w.facts[0] in w.facts; }
    forall n | Declared(w, n) ensures n == c.field {}
  }

  lemma SoloPolicies(c: Condition)
    ensures PoliciesFor(SoloBundle(c).policies, "w") == [SoloPolicy(c)]
  {
  }

  lemma SoloBallots(lib: Lib, c: Condition, v: Scalar)
    requires Comparable(c, v) && !Overflows(lib, c, v)
    ensures var p := SoloPolicy(c); var e := map[c.field := v];
            && PoliciesFor(SoloBundle(c).policies, "w") == [p]
            && Ballots(lib, [p], e) == {BallotOf(lib, p, e)}
            && StatusOf(lib, p, e) == (if Compare(lib, c, v) then Matched else Failed)
            && !SomeOverflow(lib, [p], e)
  {
    var p := SoloPolicy(c);
    var e := map[c.field := v];
    assert p.conditions[0] in p.conditions;
    assert forall d :: d in p.conditions ==> d == c;
    assert AnyIs(lib, p.conditions, e, Fail) <==> OutcomeOf(lib, c, e) == Fail;
    assert !AnyIs(lib, p.conditions, e, Missing);
    assert p in [p];
  }

  lemma OneBallot(b: Ballot)
    requires b.contender.id !in b.contender.overrides
    ensures b.status == Matched ==> !Stuck(MatchedField({b})) && Judge({b}).winner == Some(b.contender.id)
    ensures b.status == Failed ==> !Stuck(MatchedField({b})) && Judge({b}).winner == None
  {
    var m := MatchedField({b});
    if b.status == Matched {
      assert b.contender in m;
      assert m == {b.contender};
      assert b.contender in Standing(m);
      UniqueMaximumWins(m, b.contender);
      JudgeWinner({b}, b);
      assert Blockers({b}, b.contender) == {};
    } else {
      assert m == {};
      NoFinalists(m);
      assert |Finalists(m)| == 0;
    }
  }

  /** The bundle overflows when its one comparison does, ... */
  lemma SoloOverflows(lib: Lib, c: Condition, facts: map<string, Json>, v: Scalar)
    requires ValidCondition(c)
    requires c.field in facts && CheckType(facts[c.field], c.valueType) == Some(v) && Overflows(lib, c, v)
    ensures Evaluate(lib, facts, SoloBundle(c), "w") == Overflow
  {
    SoloEffective(c, facts, v);
    var p, e := SoloPolicy(c), map[c.field := v];
    assert p.conditions[0] in p.conditions;
    assert PolicyOverflows(lib, p, e);
    assert [p][0] in [p] && PoliciesFor(SoloBundle(c).policies, "w") == [p];
    assert WorkflowNamed(SoloBundle(c).workflows, "w") == Some(SoloWorkflow(c));
  }

  /** ... and otherwise its policy wins exactly when the comparison holds. */
  lemma SoloDecides(lib: Lib, c: Condition, facts: map<string, Json>, v: Scalar)
    requires ValidCondition(c)
    requires c.field in facts && CheckType(facts[c.field], c.valueType) == Some(v) && !Overflows(lib, c, v)
    ensures Comparable(c, v)
    ensures var view := ViewOf(Evaluate(lib, facts, SoloBundle(c), "w"));
            view.Seen? && view.verdict.winner == (if Compare(lib, c, v) then Some("p") else None)
  {
    SoloEffective(c, facts, v);
    SoloBallots(lib, c, v);
    ViewIsJudgement(lib, facts, SoloBundle(c), "w");
    assert WorkflowNamed(SoloBundle(c).workflows, "w") == Some(SoloWorkflow(c));
    OneBallot(BallotOf(lib, SoloPolicy(c), map[c.field := v]));
  }
}
