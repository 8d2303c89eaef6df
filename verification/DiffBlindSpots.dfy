/** What a structural diff does not show although decisions change: values that Python's `==` takes for
    equal, and the facts of a workflow. */
module DiffBlindSpots {
  import opened Options
  import opened Schema
  import opened Judgement
  import opened Evaluator
  import opened Likeness
  import opened Canonical
  import opened Solo
  import opened BundleDiffs

  /** `is_empty` */
  predicate ShowsNothing(d: BundleDiff) {
    d.added == [] && d.removed == [] && d.modified == []
  }

  lemma Nothing(changes: seq<PolicyChange>)
    ensures (forall c :: c !in changes) ==> changes == []
  {
    if changes != [] { assert changes[0] in changes; }
  }

  lemma SamePoliciesShowNothing(digest: Content -> string, b: Bundle, c: Bundle, p: Policy, q: Policy)
    requires b.policies == [p] && c.policies == [q] && SamePolicy(p, q)
    ensures ShowsNothing(DiffBundles(digest, Some(b), c))
  {
    hide ContentHash;
    assert b.policies[0] == p && c.policies[0] == q;
    forall x | x in b.policies ensures HasId(c.policies, x.id) { assert c.policies[0].id == x.id; }
    forall y | y in c.policies ensures HasId(b.policies, y.id) && !IsModified(b.policies, y) {
      assert b.policies[0].id == y.id;
    }
    Nothing(AddedIn(b.policies, c.policies));
    Nothing(RemovedIn(b.policies, c.policies));
    Nothing(ModifiedIn(b.policies, c.policies));
  }

  // ------------------------------------------------------------------ True and 1

  /** `str(True)` is "True", `str(1)` is "1"; both are lowered. */
  function FlagLib(): Lib {
    Lib(s => s, (v: Scalar) => if v.Bool? then "true" else "1", (v: Scalar) => "1", (i: int) => Some(i as real))
  }

  lemma OneSorted(p: Policy)
    ensures SortedNormal([p]) == [NormalPolicy(p)]
  {
    assert [p][1..] == [];
  }

  lemma FlagFormsDiffer(p: Policy, q: Policy)
    requires p == SoloPolicy(CodeIs(Bool(true))) && q == SoloPolicy(CodeIs(Int(1)))
    ensures NormalPolicy(p) != NormalPolicy(q)
  {
    assert NormalPolicy(p).conditions[0] == NormalCondition(p.conditions[0]);
    assert NormalPolicy(q).conditions[0] == NormalCondition(q.conditions[0]);
  }

  lemma OtherPolicyOtherHash(digest: Content -> string, b: Bundle, c: Bundle, p: Policy, q: Policy)
    requires CollisionFree(digest) && b.policies == [p] && c.policies == [q] && NormalPolicy(p) != NormalPolicy(q)
    ensures ContentHash(digest, b) != ContentHash(digest, c)
  {
    hide NormalPolicy, SortedNormal, NormalWorkflows;
    OneSorted(p);
    OneSorted(q);
    var x, y := CanonicalContent(b), CanonicalContent(c);
    assert x.policies != y.policies;
    assert ContentHash(digest, b)[7..] == digest(x) && ContentHash(digest, c)[7..] == digest(y);
  }

  lemma FlagConditions(v: Scalar)
    requires v == Bool(true) || v == Int(1)
    ensures ValidCondition(CodeIs(v))
            && CheckType(Value(Schema.Text("1")), CodeIs(v).valueType) == Some(Schema.Text("1"))
    ensures Comparable(CodeIs(v), Schema.Text("1"))
    ensures Compare(FlagLib(), CodeIs(v), Schema.Text("1")) <==> v == Int(1)
  {
  }

  /** A string condition on the value True and one on the value 1: the diff of the two accepted bundles
      shows nothing, their hashes differ, and they decide differently. */
  lemma TrueAndOneShowNothing(digest: Content -> string)
    requires CollisionFree(digest)
    ensures var b, c := SoloBundle(CodeIs(Bool(true))), SoloBundle(CodeIs(Int(1)));
            var facts := map["code" := Value(Schema.Text("1"))];
            && ValidBundle(b) && ValidBundle(c)
            && ShowsNothing(DiffBundles(digest, Some(b), c)) && ContentHash(digest, b) != ContentHash(digest, c)
            && ViewOf(Evaluate(FlagLib(), facts, b, "w")) != ViewOf(Evaluate(FlagLib(), facts, c, "w"))
  {
    var v, u := CodeIs(Bool(true)), CodeIs(Int(1));
    var facts := map["code" := Value(Schema.Text("1"))];
    FlagConditions(Bool(true));
    FlagConditions(Int(1));
    assert AlikeConditions(v, u);
    FlagFormsDiffer(SoloPolicy(v), SoloPolicy(u));
    OtherPolicyOtherHash(digest, SoloBundle(v), SoloBundle(u), SoloPolicy(v), SoloPolicy(u));
    SamePoliciesShowNothing(digest, SoloBundle(v), SoloBundle(u), SoloPolicy(v), SoloPolicy(u));
    hide ValidCondition, Comparable, Compare, CheckType, ValidBundle, Evaluate, ContentHash, SoloBundle, FlagLib,
        DiffBundles;
    SoloValid(v);
    SoloValid(u);
    SoloDecides(FlagLib(), v, facts, Schema.Text("1"));
    SoloDecides(FlagLib(), u, facts, Schema.Text("1"));
  }

  // ------------------------------------------------------------------ defaults

  const FLAGGED: Condition := Condition("flag", Eq, One(Bool(true)), BooleanType)

  function FlagWorkflow(default: bool): WorkflowSpec {
    WorkflowSpec("w", [FactSpec("flag", BooleanType, "", Some(Bool(default)))], "")
  }

  /** One policy that asks for a flag, and the flag's default. */
  function FlagBundle(default: bool): Bundle {
    Bundle("1", "acme", [FlagWorkflow(default)], [SoloPolicy(FLAGGED)])
  }

  lemma FlagBundleValid(default: bool)
    ensures ValidBundle(FlagBundle(default))
  {
    var b := FlagBundle(default);
    assert Snake("flag");
    assert b.policies[0].evidence[0].excerpt[0] == 'x';
    assert Undotted("p") == "p" && Undotted("w") == "w";
    DistinctFrom(b.policies);
    assert RanksOverrides(b.policies, map["p" := 0]);
    assert FactNamed(FlagWorkflow(default).facts, "flag") == Some(FlagWorkflow(default).facts[0]);
    assert PolicyPlaced(b.policies[0], b);
  }

  lemma FlagEffective(default: bool)
    ensures FactsTyped(map[], FlagWorkflow(default))
    ensures Effective(map[], FlagWorkflow(default)) == map["flag" := Bool(default)]
  {
    var w := FlagWorkflow(default);
    assert FactNamed(w.facts, "flag") == Some(w.facts[0]);
    forall n ensures n in FactNames(w) <==> n == "flag" { assert w.facts[0] in w.facts; }
    forall n | Declared(w, n) ensures n == "flag" {}
  }

  lemma FlagDecides(lib: Lib, default: bool)
    ensures var view := ViewOf(Evaluate(lib, map[], FlagBundle(default), "w"));
            view.Seen? && view.verdict.winner == (if default then Some("p") else None)
  {
    var b, w, e := FlagBundle(default), FlagWorkflow(default), map["flag" := Bool(default)];
    assert Snake("flag") && ValidCondition(FLAGGED) && Comparable(FLAGGED, Bool(default));
    FlagEffective(default);
    SoloBallots(lib, FLAGGED, Bool(default));
    OneBallot(BallotOf(lib, SoloPolicy(FLAGGED), e));
    assert Compare(lib, FLAGGED, Bool(default)) == default;
    assert WorkflowNamed(b.workflows, "w") == Some(w) && b.policies == SoloBundle(FLAGGED).policies;
    hide Compare, SomeOverflow, PoliciesFor, Ballots, FactsTyped, Effective, Judge, WorkflowNamed, BallotOf, StatusOf;
    ViewIsJudgement(lib, map[], b, "w");
  }

  /** A changed default never shows in a diff, and changes what an empty request gets. */
  lemma DefaultsShowNothing(digest: Content -> string, lib: Lib)
    ensures ValidBundle(FlagBundle(true)) && ValidBundle(FlagBundle(false))
    ensures ShowsNothing(DiffBundles(digest, Some(FlagBundle(true)), FlagBundle(false)))
    ensures ViewOf(Evaluate(lib, map[], FlagBundle(true), "w")) != ViewOf(Evaluate(lib, map[], FlagBundle(false), "w"))
  {
    SameAsItself(SoloPolicy(FLAGGED));
    SamePoliciesShowNothing(digest, FlagBundle(true), FlagBundle(false), SoloPolicy(FLAGGED), SoloPolicy(FLAGGED));
    hide ValidBundle, Evaluate, DiffBundles;
    FlagBundleValid(true);
    FlagBundleValid(false);
    FlagDecides(lib, true);
    FlagDecides(lib, false);
  }
}
