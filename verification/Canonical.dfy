/** Content addressing of bundles (backend/bundle/canonical.py). */
module Canonical {
  import opened Options
  import opened Text
  import opened Schema
  import opened Evaluator
  import opened Likeness
  import opened Solo

  /** `_normalize` on a scalar: integral floats become ints. */
  function Normalize(v: Scalar): Scalar {
    if v.Float? && v.r.Floor as real == v.r then Int(v.r.Floor) else v
  }

  function NormalJson(v: Json): Json {
    if v.Value? then Value(Normalize(v.v)) else v
  }

  function NormalFacts(facts: map<string, Json>): map<string, Json> {
    map n | n in facts :: NormalJson(facts[n])
  }

  function NormalizeAll(vs: seq<Scalar>): (r: seq<Scalar>)
    ensures |r| == |vs| && forall i :: 0 <= i < |vs| ==> r[i] == Normalize(vs[i])
  {
    seq(|vs|, i requires 0 <= i < |vs| => Normalize(vs[i]))
  }

  function NormalCondition(c: Condition): Condition {
    c.(value := if c.value.One? then One(Normalize(c.value.v)) else Many(NormalizeAll(c.value.vs)))
  }

  function NormalPolicy(p: Policy): Policy {
    p.(conditions := seq(|p.conditions|, i requires 0 <= i < |p.conditions| => NormalCondition(p.conditions[i])))
  }

  function NormalFact(f: FactSpec): FactSpec {
    f.(default := if f.default.Some? then Some(Normalize(f.default.value)) else None)
  }

  function NormalWorkflow(w: WorkflowSpec): WorkflowSpec {
    w.(facts := seq(|w.facts|, i requires 0 <= i < |w.facts| => NormalFact(w.facts[i])))
  }

  function NormalWorkflows(ws: seq<WorkflowSpec>): (r: seq<WorkflowSpec>)
    ensures |r| == |ws| && forall i :: 0 <= i < |ws| ==> r[i] == NormalWorkflow(ws[i])
  {
    seq(|ws|, i requires 0 <= i < |ws| => NormalWorkflow(ws[i]))
  }

  /** `sorted(..., key=lambda p: p["id"])`, by insertion. */
  function InsertById(p: Policy, ps: seq<Policy>): (r: seq<Policy>)
    ensures |r| == |ps| + 1 && forall q :: q in r <==> q == p || q in ps
  {
    if ps == [] || Less(p.id, ps[0].id) then [p] + ps
    else
      assert ps == [ps[0]] + ps[1..];
      [ps[0]] + InsertById(p, ps[1..])
  }

  function SortedNormal(ps: seq<Policy>): (r: seq<Policy>)
    ensures |r| == |ps| && forall q :: q in r <==> exists p :: p in ps && q == NormalPolicy(p)
  {
    if ps == [] then []
    else
      assert ps == [ps[0]] + ps[1..];
      InsertById(NormalPolicy(ps[0]), SortedNormal(ps[1..]))
  }

  /** The hashed content: no company, no registry metadata, policies sorted by id. */
  datatype Content = Content(schemaVersion: string, workflows: seq<WorkflowSpec>, policies: seq<Policy>)

  function CanonicalContent(b: Bundle): Content {
    Content(b.schemaVersion, NormalWorkflows(b.workflows), SortedNormal(b.policies))
  }

  /** `bundle_content_hash`, over an uninterpreted digest of the canonical JSON. */
  function ContentHash(digest: Content -> string, b: Bundle): string {
    "sha256:" + digest(CanonicalContent(b))
  }

  ghost predicate CollisionFree(digest: Content -> string) {
    forall x, y :: digest(x) == digest(y) ==> x == y
  }

  // ------------------------------------------------------------------ the hash ignores order

  /** Everything behind the head stays behind it after an insertion. */
  lemma HeadStaysFirst(p: Policy, ps: seq<Policy>, x: string)
    requires ps != [] && Ascending(PolicyIds(ps)) && Less(ps[0].id, p.id)
    requires x in PolicyIds(InsertById(p, ps[1..]))
    ensures Less(ps[0].id, x)
  {
    hide Less;
    var rest := InsertById(p, ps[1..]);
    var k :| 0 <= k < |rest| && rest[k].id == x;
    if rest[k] != p {
      assert rest[k] in ps[1..];
      var m :| 0 <= m < |ps[1..]| && ps[1..][m] == rest[k];
      assert Less(PolicyIds(ps)[0], PolicyIds(ps)[m + 1]);
    }
  }

  lemma {:induction false} InsertAscends(p: Policy, ps: seq<Policy>)
    requires Ascending(PolicyIds(ps)) && forall q :: q in ps ==> q.id != p.id
    ensures Ascending(PolicyIds(InsertById(p, ps)))
  {
    hide Less, Ascending;
    if ps != [] {
      if Less(p.id, ps[0].id) {
        AscendingCons(p.id, PolicyIds(ps));
      } else {
        LessTotal(p.id, ps[0].id);
        var rest := InsertById(p, ps[1..]);
        AscendingRest(ps);
        InsertAscends(p, ps[1..]);
        forall x | x in PolicyIds(rest) ensures Less(ps[0].id, x) { HeadStaysFirst(p, ps, x); }
        AscendingPrepend(ps[0].id, PolicyIds(rest));
      }
    } else {
      assert PolicyIds([p]) == [p.id];
      OneAscends(p.id);
    }
  }

  lemma OneAscends(x: string)
    ensures Ascending([x])
  {
  }

  lemma TailAscends(xs: seq<string>)
    requires xs != [] && Ascending(xs)
    ensures Ascending(xs[1..])
  {
    hide Less;
  }

  lemma AscendingRest(ps: seq<Policy>)
    requires ps != [] && Ascending(PolicyIds(ps))
    ensures Ascending(PolicyIds(ps[1..]))
  {
    hide Ascending;
    TailAscends(PolicyIds(ps));
    assert PolicyIds(ps[1..]) == PolicyIds(ps)[1..];
  }

  lemma AscendingPrepend(x: string, xs: seq<string>)
    requires Ascending(xs) && forall y :: y in xs ==> Less(x, y)
    ensures Ascending([x] + xs)
  {
  }

  lemma AscendingCons(x: string, xs: seq<string>)
    requires Ascending(xs) && xs != [] && Less(x, xs[0])
    ensures Ascending([x] + xs)
  {
    forall i | 0 <= i < |xs| ensures Less(x, xs[i]) {
      if i > 0 { LessTransitive(x, xs[0], xs[i]); }
    }
    AscendingPrepend(x, xs);
  }

  lemma {:induction false} SortedAscends(ps: seq<Policy>)
    requires DistinctIds(ps)
    ensures Ascending(PolicyIds(SortedNormal(ps)))
  {
    if ps != [] {
      DistinctSplit(ps);
      SortedAscends(ps[1..]);
      InsertAscends(NormalPolicy(ps[0]), SortedNormal(ps[1..]));
    }
  }

  lemma SortedSameIds(ps: seq<Policy>, qs: seq<Policy>)
    requires DistinctIds(ps) && DistinctIds(qs) && forall x :: x in SortedNormal(ps) <==> x in SortedNormal(qs)
    ensures PolicyIds(SortedNormal(ps)) == PolicyIds(SortedNormal(qs))
  {
    SortedAscends(ps);
    SortedAscends(qs);
    var a, b := SortedNormal(ps), SortedNormal(qs);
    forall x ensures x in PolicyIds(a) <==> x in PolicyIds(b) {
      if x in PolicyIds(a) {
        var k :| 0 <= k < |a| && a[k].id == x;
        assert a[k] in a && a[k] in b;
        var m :| 0 <= m < |b| && b[m] == a[k];
        assert PolicyIds(b)[m] == x;
      }
      if x in PolicyIds(b) {
        var k :| 0 <= k < |b| && b[k].id == x;
        assert b[k] in b && b[k] in a;
        var m :| 0 <= m < |a| && a[m] == b[k];
        assert PolicyIds(a)[m] == x;
      }
    }
    AscendingUnique(PolicyIds(a), PolicyIds(b));
  }

  /** The hashed list of policies depends on their contents alone. */
  lemma SortedUniquely(ps: seq<Policy>, qs: seq<Policy>)
    requires DistinctIds(ps) && DistinctIds(qs) && forall x :: x in SortedNormal(ps) <==> x in SortedNormal(qs)
    ensures SortedNormal(ps) == SortedNormal(qs)
  {
    var x, y := SortedNormal(ps), SortedNormal(qs);
    SortedSameIds(ps, qs);
    assert |x| == |PolicyIds(x)| == |y|;
    forall i | 0 <= i < |x| ensures x[i] == y[i] {
      assert x[i] in x && x[i] in y;
      assert PolicyIds(x)[i] == PolicyIds(y)[i];
      var k :| 0 <= k < |y| && y[k] == x[i];
      if k < i { AscendingDistinctIds(y, k, i, qs); }
      if i < k { AscendingDistinctIds(y, i, k, qs); }
    }
  }

  /** Policy order and company never reach the hash. */
  lemma HashIgnoresOrderAndCompany(digest: Content -> string, b: Bundle, c: Bundle)
    requires DistinctIds(b.policies) && DistinctIds(c.policies)
    requires b.schemaVersion == c.schemaVersion && b.workflows == c.workflows
    requires forall p :: p in b.policies <==> p in c.policies
    ensures ContentHash(digest, b) == ContentHash(digest, c)
  {
    SortedUniquely(b.policies, c.policies);
  }

  lemma AscendingDistinctIds(y: seq<Policy>, i: nat, j: nat, ps: seq<Policy>)
    requires DistinctIds(ps) && y == SortedNormal(ps) && i < j < |y|
    ensures y[i].id != y[j].id
  {
    SortedAscends(ps);
    AscendingDistinct(PolicyIds(y), i, j);
  }

  // ------------------------------------------------------------------ the hash fixes the decision

  lemma SameNormalSameValue(a: Scalar, b: Scalar)
    requires Normalize(a) == Normalize(b)
    ensures SameValue(a, b)
  {
  }

  lemma SameNormalCondition(c: Condition, d: Condition)
    requires NormalCondition(c) == NormalCondition(d)
    ensures AlikeConditions(c, d)
  {
    match (c.value, d.value) {
      case (Many(vs), Many(us)) =>
        assert NormalizeAll(vs) == NormalizeAll(us);
        forall i | 0 <= i < |vs| ensures SameValue(vs[i], us[i]) {
          assert NormalizeAll(vs)[i] == NormalizeAll(us)[i];
          SameNormalSameValue(vs[i], us[i]);
        }
      case _ =>
    }
  }

  lemma SameNormalPolicy(p: Policy, q: Policy)
    requires NormalPolicy(p) == NormalPolicy(q)
    ensures AlikePolicies(p, q)
  {
    var x, y := NormalPolicy(p), NormalPolicy(q);
    assert |x.conditions| == |p.conditions| && |y.conditions| == |q.conditions|;
    forall i | 0 <= i < |p.conditions| ensures AlikeConditions(p.conditions[i], q.conditions[i]) {
      assert x.conditions[i] == y.conditions[i];
      SameNormalCondition(p.conditions[i], q.conditions[i]);
    }
  }

  /** Every spelling of the value that hashes alike also prints alike. */
  ghost predicate PrintsOneWay(lib: Lib, v: Scalar) {
    forall u :: Normalize(u) == Normalize(v) && IsDouble(lib, u) ==> NormOf(lib, u) == NormOf(lib, v)
  }

  /** Only an integral number has two spellings; they must print alike. */
  lemma PrintsOneWayExactly(lib: Lib, v: Scalar)
    requires IsDouble(lib, v)
    ensures PrintsOneWay(lib, v) <==>
              (Normalize(v).Int? && IsDouble(lib, Float(Normalize(v).i as real)) ==>
                 NormOf(lib, Int(Normalize(v).i)) == NormOf(lib, Float(Normalize(v).i as real)))
  {
    if Normalize(v).Int? {
      var i := Normalize(v).i;
      assert (i as real).Floor == i;
      assert Normalize(Int(i)) == Normalize(Float(i as real)) == Int(i);
      assert forall u :: Normalize(u) == Int(i) ==> u == Int(i) || u == Float(i as real);
    } else {
      assert forall u :: Normalize(u) == Normalize(v) ==> u == v;
    }
  }

  ghost predicate ConditionPrintsOneWay(lib: Lib, c: Condition) {
    c.valueType == StringType ==>
      match c.value
      case One(v) => PrintsOneWay(lib, v)
      case Many(vs) => forall i :: 0 <= i < |vs| ==> PrintsOneWay(lib, vs[i])
  }

  /** No string condition of the bundle holds a number whose spellings print differently. */
  ghost predicate StringsPrintOneWay(lib: Lib, b: Bundle) {
    forall p, c :: p in b.policies && c in p.conditions ==> ConditionPrintsOneWay(lib, c)
  }

  lemma TypedPrintsOneWay(lib: Lib, b: Bundle)
    requires TypedStrings(b)
    ensures StringsPrintOneWay(lib, b)
  {
    forall p, c | p in b.policies && c in p.conditions ensures ConditionPrintsOneWay(lib, c) {
      if c.valueType == StringType && c.value.Many? {
        forall i | 0 <= i < |c.value.vs| ensures PrintsOneWay(lib, c.value.vs[i]) {
          assert c.value.vs[i] in c.value.vs;
        }
      }
    }
  }

  lemma SameNormalPrints(lib: Lib, c: Condition, d: Condition)
    requires NormalCondition(c) == NormalCondition(d) && ConditionPrintsOneWay(lib, c) && ConditionDoubles(lib, d)
    ensures PrintsAlike(lib, c, d)
  {
    if c.valueType == StringType && c.value.Many? {
      assert NormalizeAll(c.value.vs) == NormalizeAll(d.value.vs);
      forall i | 0 <= i < |c.value.vs| ensures NormOf(lib, c.value.vs[i]) == NormOf(lib, d.value.vs[i]) {
        assert NormalizeAll(c.value.vs)[i] == NormalizeAll(d.value.vs)[i] && d.value.vs[i] in d.value.vs;
      }
    }
  }

  lemma SameNormalTwins(lib: Lib, b: Bundle, c: Bundle, p: Policy, q: Policy)
    requires NormalPolicy(p) == NormalPolicy(q) && p in b.policies && q in c.policies
    requires StringsPrintOneWay(lib, b) && BundleDoubles(lib, c)
    ensures Twins(lib, p, q)
  {
    SameNormalPolicy(p, q);
    var x, y := NormalPolicy(p), NormalPolicy(q);
    assert |x.conditions| == |p.conditions| && |y.conditions| == |q.conditions|;
    forall i | 0 <= i < |p.conditions| ensures PrintsAlike(lib, p.conditions[i], q.conditions[i]) {
      assert x.conditions[i] == y.conditions[i];
      assert p.conditions[i] in p.conditions && q.conditions[i] in q.conditions;
      SameNormalPrints(lib, p.conditions[i], q.conditions[i]);
    }
  }

  lemma SameNormalWorkflow(w: WorkflowSpec, v: WorkflowSpec)
    requires NormalWorkflow(w) == NormalWorkflow(v)
    ensures w.name == v.name && AlikeWorkflows(w, v)
  {
    var x, y := NormalWorkflow(w), NormalWorkflow(v);
    assert x.name == y.name;
    assert |x.facts| == |w.facts| && |y.facts| == |v.facts|;
    forall i | 0 <= i < |w.facts| ensures AlikeFacts(w.facts[i], v.facts[i]) {
      assert x.facts[i] == y.facts[i];
      assert NormalFact(w.facts[i]).default == NormalFact(v.facts[i]).default;
    }
  }

  lemma {:induction false} SameNormalLookup(ws: seq<WorkflowSpec>, vs: seq<WorkflowSpec>, name: string)
    requires NormalWorkflows(ws) == NormalWorkflows(vs)
    ensures WorkflowNamed(ws, name).Some? <==> WorkflowNamed(vs, name).Some?
    ensures WorkflowNamed(ws, name).Some? ==>
              AlikeWorkflows(WorkflowNamed(ws, name).value, WorkflowNamed(vs, name).value)
  {
    assert |ws| == |NormalWorkflows(ws)| == |vs|;
    if ws != [] {
      assert NormalWorkflows(ws)[0] == NormalWorkflows(vs)[0];
      SameNormalWorkflow(ws[0], vs[0]);
      assert NormalWorkflows(ws[1..]) == NormalWorkflows(ws)[1..] == NormalWorkflows(vs)[1..]
             == NormalWorkflows(vs[1..]);
      SameNormalLookup(ws[1..], vs[1..], name);
    }
  }

  lemma SameContentTwin(ps: seq<Policy>, qs: seq<Policy>, p: Policy) returns (q: Policy)
    requires SortedNormal(ps) == SortedNormal(qs) && p in ps
    ensures q in qs && NormalPolicy(p) == NormalPolicy(q)
  {
    assert NormalPolicy(p) in SortedNormal(ps);
    assert NormalPolicy(p) in SortedNormal(qs);
    q :| q in qs && NormalPolicy(p) == NormalPolicy(q);
  }

  lemma SameContentAlike(lib: Lib, b: Bundle, c: Bundle, workflow: string)
    requires CanonicalContent(b) == CanonicalContent(c)
    requires BundleDoubles(lib, c) && StringsPrintOneWay(lib, b)
    ensures AlikeFor(lib, b, c, workflow)
  {
    SameNormalLookup(b.workflows, c.workflows, workflow);
    var ps, qs := PoliciesFor(b.policies, workflow), PoliciesFor(c.policies, workflow);
    forall p | p in ps ensures exists q :: q in qs && Twins(lib, p, q) {
      var q := SameContentTwin(b.policies, c.policies, p);
      SameNormalTwins(lib, b, c, p, q);
      assert q in qs;
    }
    forall q | q in qs ensures exists p :: p in ps && Twins(lib, p, q) {
      var p := SameContentTwin(c.policies, b.policies, q);
      SameNormalTwins(lib, b, c, p, q);
      assert p in ps;
    }
  }

  /** Main result: the content address determines the decision, whatever the policy order,
      the company, or the spelling of integral numbers. */
  lemma HashDeterminesDecision(digest: Content -> string, lib: Lib, b: Bundle, c: Bundle,
                               facts: map<string, Json>, workflow: string)
    requires CollisionFree(digest) && ContentHash(digest, b) == ContentHash(digest, c)
    requires Settled(lib, b) && Settled(lib, c) && StringsPrintOneWay(lib, b)
    ensures ViewOf(Evaluate(lib, facts, b, workflow)) == ViewOf(Evaluate(lib, facts, c, workflow))
  {
    var x, y := digest(CanonicalContent(b)), digest(CanonicalContent(c));
    assert ContentHash(digest, b)[7..] == x && ContentHash(digest, c)[7..] == y;
    SameContentAlike(lib, b, c, workflow);
    AlikeBundlesAgree(lib, facts, b, c, workflow);
  }

  // ------------------------------------------------------------------ why values must be typed

  /** Python prints the float 2.0 as "2.0" and the int 2 as "2". */
  function PrintingLib(): Lib {
    Lib(s => s, (v: Scalar) => if v.Float? then "2.0" else "2", (v: Scalar) => "2", (i: int) => Some(i as real))
  }

  function CodeIs(v: Scalar): Condition {
    Condition("code", Eq, One(v), StringType)
  }

  lemma SameAddress(digest: Content -> string)
    ensures ContentHash(digest, SoloBundle(CodeIs(Int(2)))) == ContentHash(digest, SoloBundle(CodeIs(Float(2.0))))
  {
    var p, q := SoloPolicy(CodeIs(Int(2))), SoloPolicy(CodeIs(Float(2.0)));
    assert Normalize(Float(2.0)) == Int(2);
    assert NormalCondition(p.conditions[0]) == NormalCondition(q.conditions[0]);
    assert NormalPolicy(p) == NormalPolicy(q);
    assert SortedNormal([p]) == SortedNormal([q]) by {
      assert SortedNormal([p][1..]) == [] == SortedNormal([q][1..]);
    }
  }

  lemma CodeConditions(v: Scalar)
    requires v == Int(2) || v == Float(2.0)
    ensures ValidCondition(CodeIs(v))
            && CheckType(Value(Schema.Text("2")), CodeIs(v).valueType) == Some(Schema.Text("2"))
    ensures Comparable(CodeIs(v), Schema.Text("2"))
    ensures Compare(PrintingLib(), CodeIs(v), Schema.Text("2")) <==> v == Int(2)
  {
  }

  /** A text condition on one field, for the bundle of one policy. */
  function SpellsAs(n: string, v: Scalar): Condition {
    Condition(n, Eq, One(v), StringType)
  }

  ghost predicate DecideAlike(lib: Lib, facts: map<string, Json>, b: Bundle, c: Bundle) {
    ViewOf(Evaluate(lib, facts, b, "w")) == ViewOf(Evaluate(lib, facts, c, "w"))
  }

  /** Respelling the value changes no decision of its one-policy bundle. */
  ghost predicate RespellingIsSafe(lib: Lib, n: string, v: Scalar) {
    forall u, facts :: Normalize(u) == Normalize(v) && IsDouble(lib, u) ==>
      DecideAlike(lib, facts, SoloBundle(SpellsAs(n, v)), SoloBundle(SpellsAs(n, u)))
  }

  lemma SoloSettled(lib: Lib, n: string, v: Scalar)
    requires SnakeCase(n) && IsDouble(lib, v)
    ensures Settled(lib, SoloBundle(SpellsAs(n, v)))
  {
    SoloValid(SpellsAs(n, v));
  }

  lemma RespelledPolicies(lib: Lib, n: string, v: Scalar, u: Scalar)
    requires IsDouble(lib, v) && IsDouble(lib, u)
    requires Normalize(u) == Normalize(v) && NormOf(lib, u) == NormOf(lib, v)
    ensures AlikePolicySets(lib, [SoloPolicy(SpellsAs(n, v))], [SoloPolicy(SpellsAs(n, u))])
  {
    hide Normalize, IsDouble;
    var p, q := SoloPolicy(SpellsAs(n, v)), SoloPolicy(SpellsAs(n, u));
    SameNormalSameValue(v, u);
    assert AlikeConditions(p.conditions[0], q.conditions[0]);
    assert Twins(lib, p, q);
    assert p in [p] && q in [q];
  }

  lemma RespellingKeepsDecision(lib: Lib, n: string, v: Scalar, u: Scalar, facts: map<string, Json>)
    requires SnakeCase(n) && IsDouble(lib, v) && IsDouble(lib, u)
    requires Normalize(u) == Normalize(v) && NormOf(lib, u) == NormOf(lib, v)
    ensures DecideAlike(lib, facts, SoloBundle(SpellsAs(n, v)), SoloBundle(SpellsAs(n, u)))
  {
    hide Settled, Evaluate, Normalize, SnakeCase, IsDouble, PoliciesFor, NormOf, AlikePolicySets, SoloPolicy;
    SoloSettled(lib, n, v);
    SoloSettled(lib, n, u);
    RespelledPolicies(lib, n, v, u);
    SoloPolicies(SpellsAs(n, v));
    SoloPolicies(SpellsAs(n, u));
    AlikeBundlesAgree(lib, facts, SoloBundle(SpellsAs(n, v)), SoloBundle(SpellsAs(n, u)), "w");
  }

  /** A text that prints like the one spelling tells it from the other. */
  lemma RespellingChangesDecision(lib: Lib, n: string, v: Scalar, u: Scalar)
    requires SnakeCase(n) && NormOf(lib, u) != NormOf(lib, v)
    ensures var text := Schema.Text(if v.Text? then v.s else lib.show(v));
            !DecideAlike(lib, map[n := Value(text)], SoloBundle(SpellsAs(n, v)), SoloBundle(SpellsAs(n, u)))
  {
    var text := Schema.Text(if v.Text? then v.s else lib.show(v));
    SoloDecides(lib, SpellsAs(n, v), map[n := Value(text)], text);
    SoloDecides(lib, SpellsAs(n, u), map[n := Value(text)], text);
  }

  /** Main result: a string condition may be respelt within its content address, on all facts,
      if and only if its value prints one way: it is no integral number whose two spellings
      print differently. */
  lemma RespellingIsSafeExactly(lib: Lib, n: string, v: Scalar)
    requires SnakeCase(n) && IsDouble(lib, v)
    ensures RespellingIsSafe(lib, n, v) <==> PrintsOneWay(lib, v)
  {
    if PrintsOneWay(lib, v) {
      forall u, facts | Normalize(u) == Normalize(v) && IsDouble(lib, u)
        ensures DecideAlike(lib, facts, SoloBundle(SpellsAs(n, v)), SoloBundle(SpellsAs(n, u)))
      {
        RespellingKeepsDecision(lib, n, v, u, facts);
      }
    } else {
      var u :| Normalize(u) == Normalize(v) && IsDouble(lib, u) && NormOf(lib, u) != NormOf(lib, v);
      RespellingChangesDecision(lib, n, v, u);
    }
  }

  /** The schema accepts a number in a string condition, and then two bundles with one
      address decide differently: the hypothesis on printing cannot be dropped. */
  lemma UntypedStringBreaksAddressing(digest: Content -> string)
    ensures var b, c := SoloBundle(CodeIs(Int(2))), SoloBundle(CodeIs(Float(2.0)));
            var facts := map["code" := Value(Schema.Text("2"))];
            && ValidBundle(b) && ValidBundle(c)
            && ContentHash(digest, b) == ContentHash(digest, c)
            && ViewOf(Evaluate(PrintingLib(), facts, b, "w")) != ViewOf(Evaluate(PrintingLib(), facts, c, "w"))
  {
    var p, q := CodeIs(Int(2)), CodeIs(Float(2.0));
    var facts := map["code" := Value(Schema.Text("2"))];
    CodeConditions(Int(2));
    CodeConditions(Float(2.0));
    hide ValidCondition, Comparable, Compare, CheckType, ValidBundle, Evaluate, ContentHash, SoloBundle, PrintingLib;
    SameAddress(digest);
    SoloValid(p);
    SoloValid(q);
    SoloDecides(PrintingLib(), p, facts, Schema.Text("2"));
    SoloDecides(PrintingLib(), q, facts, Schema.Text("2"));
  }
}
