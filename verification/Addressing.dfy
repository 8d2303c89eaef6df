/** What a content address keeps of a bundle, field by field: everything but the order of the policies,
    the company, and the spelling of integral numbers. */
module Addressing {
  import opened Options
  import opened Schema
  import opened Canonical

  // ------------------------------------------------------------------ equality up to spelling

  /** One value, or the two spellings of one integral number. */
  predicate Respelt(v: Scalar, u: Scalar) {
    v == u || (v.Int? && u.Float? && u.r == v.i as real) || (v.Float? && u.Int? && v.r == u.i as real)
  }

  predicate RespeltValue(v: CondValue, u: CondValue) {
    match (v, u)
    case (One(x), One(y)) => Respelt(x, y)
    case (Many(xs), Many(ys)) => |xs| == |ys| && forall i :: 0 <= i < |xs| ==> Respelt(xs[i], ys[i])
    case _ => false
  }

  predicate RespeltDefault(v: Option<Scalar>, u: Option<Scalar>) {
    (v.None? && u.None?) || (v.Some? && u.Some? && Respelt(v.value, u.value))
  }

  predicate RespeltJson(v: Json, u: Json) {
    match (v, u)
    case (Value(x), Value(y)) => Respelt(x, y)
    case (NonScalar(x), NonScalar(y)) => x == y
    case _ => false
  }

  predicate SameFacts(f: map<string, Json>, g: map<string, Json>) {
    f.Keys == g.Keys && forall n :: n in f ==> RespeltJson(f[n], g[n])
  }

  predicate SameCondition(c: Condition, d: Condition) {
    c.field == d.field && c.op == d.op && c.valueType == d.valueType && RespeltValue(c.value, d.value)
  }

  predicate SameFact(f: FactSpec, g: FactSpec) {
    && f.name == g.name && f.valueType == g.valueType && f.description == g.description
    && RespeltDefault(f.default, g.default)
  }

  predicate SameWorkflow(w: WorkflowSpec, v: WorkflowSpec) {
    && w.name == v.name && w.description == v.description && |w.facts| == |v.facts|
    && forall i :: 0 <= i < |w.facts| ==> SameFact(w.facts[i], v.facts[i])
  }

  predicate SamePolicyContent(p: Policy, q: Policy) {
    && p.id == q.id && p.workflow == q.workflow && p.priority == q.priority
    && p.effect.kind == q.effect.kind && p.effect.action == q.effect.action
    && p.authority.approvalRequired == q.authority.approvalRequired
    && p.authority.approverRole == q.authority.approverRole
    && p.evidence == q.evidence && p.overrides == q.overrides
    && p.unconditionalAck == q.unconditionalAck && p.rationale == q.rationale
    && |p.conditions| == |q.conditions|
    && forall i :: 0 <= i < |p.conditions| ==> SameCondition(p.conditions[i], q.conditions[i])
  }

  predicate Counterparts(ps: seq<Policy>, qs: seq<Policy>) {
    forall p :: p in ps ==> exists q :: q in qs && SamePolicyContent(p, q)
  }

  /** Everything the address is to keep. */
  predicate SameBundleContent(b: Bundle, c: Bundle) {
    && b.schemaVersion == c.schemaVersion && |b.workflows| == |c.workflows|
    && (forall i :: 0 <= i < |b.workflows| ==> SameWorkflow(b.workflows[i], c.workflows[i]))
    && Counterparts(b.policies, c.policies) && Counterparts(c.policies, b.policies)
  }

  // ------------------------------------------------------------------ what normalization identifies

  lemma NormalizeExactly(v: Scalar, u: Scalar)
    ensures Normalize(v) == Normalize(u) <==> Respelt(v, u)
  {
    assert v.Int? ==> (v.i as real).Floor == v.i;
    assert u.Int? ==> (u.i as real).Floor == u.i;
  }

  lemma NormalJsonExactly(v: Json, u: Json)
    ensures NormalJson(v) == NormalJson(u) <==> RespeltJson(v, u)
  {
    if v.Value? && u.Value? { NormalizeExactly(v.v, u.v); }
  }

  lemma NormalFactsExactly(f: map<string, Json>, g: map<string, Json>)
    ensures NormalFacts(f) == NormalFacts(g) <==> SameFacts(f, g)
  {
    hide NormalJson, RespeltJson;
    var x, y := NormalFacts(f), NormalFacts(g);
    assert x.Keys == f.Keys && y.Keys == g.Keys;
    forall n | n in f && n in g ensures x[n] == y[n] <==> RespeltJson(f[n], g[n]) { NormalJsonExactly(f[n], g[n]); }
  }

  lemma NormalValueExactly(c: Condition, d: Condition)
    ensures NormalCondition(c).value == NormalCondition(d).value <==> RespeltValue(c.value, d.value)
  {
    hide Normalize, Respelt;
    match (c.value, d.value) {
      case (One(x), One(y)) => NormalizeExactly(x, y);
      case (Many(xs), Many(ys)) =>
        forall i | 0 <= i < |xs| && i < |ys|
          ensures NormalizeAll(xs)[i] == NormalizeAll(ys)[i] <==> Respelt(xs[i], ys[i])
        {
          NormalizeExactly(xs[i], ys[i]);
        }
        if NormalizeAll(xs) == NormalizeAll(ys) { assert |xs| == |NormalizeAll(xs)| == |ys|; }
      case _ =>
    }
  }

  lemma NormalConditionExactly(c: Condition, d: Condition)
    ensures NormalCondition(c) == NormalCondition(d) <==> SameCondition(c, d)
  {
    NormalValueExactly(c, d);
    hide RespeltValue;
    var x, y := NormalCondition(c), NormalCondition(d);
    assert x.field == c.field && x.op == c.op && x.valueType == c.valueType;
    assert y.field == d.field && y.op == d.op && y.valueType == d.valueType;
  }

  lemma NormalFactExactly(f: FactSpec, g: FactSpec)
    ensures NormalFact(f) == NormalFact(g) <==> SameFact(f, g)
  {
    hide Normalize, Respelt;
    if f.default.Some? && g.default.Some? { NormalizeExactly(f.default.value, g.default.value); }
    var x, y := NormalFact(f), NormalFact(g);
    assert x.name == f.name && x.valueType == f.valueType && x.description == f.description;
    assert y.name == g.name && y.valueType == g.valueType && y.description == g.description;
  }

  lemma NormalWorkflowExactly(w: WorkflowSpec, v: WorkflowSpec)
    ensures NormalWorkflow(w) == NormalWorkflow(v) <==> SameWorkflow(w, v)
  {
    hide NormalFact, SameFact;
    var x, y := NormalWorkflow(w), NormalWorkflow(v);
    assert x.name == w.name && x.description == w.description && |x.facts| == |w.facts|;
    assert y.name == v.name && y.description == v.description && |y.facts| == |v.facts|;
    forall i | 0 <= i < |w.facts| && i < |v.facts|
      ensures x.facts[i] == y.facts[i] <==> SameFact(w.facts[i], v.facts[i])
    {
      NormalFactExactly(w.facts[i], v.facts[i]);
    }
    if SameWorkflow(w, v) { assert x.facts == y.facts; }
  }

  lemma NormalPolicyExactly(p: Policy, q: Policy)
    ensures NormalPolicy(p) == NormalPolicy(q) <==> SamePolicyContent(p, q)
  {
    hide NormalCondition, SameCondition;
    var x, y := NormalPolicy(p), NormalPolicy(q);
    assert |x.conditions| == |p.conditions| && |y.conditions| == |q.conditions|;
    forall i | 0 <= i < |p.conditions| && i < |q.conditions|
      ensures x.conditions[i] == y.conditions[i] <==> SameCondition(p.conditions[i], q.conditions[i])
    {
      NormalConditionExactly(p.conditions[i], q.conditions[i]);
    }
    assert x == p.(conditions := x.conditions) && y == q.(conditions := y.conditions);
    if SamePolicyContent(p, q) { assert x.conditions == y.conditions; }
  }

  lemma NormalWorkflowsExactly(ws: seq<WorkflowSpec>, vs: seq<WorkflowSpec>)
    ensures NormalWorkflows(ws) == NormalWorkflows(vs)
            <==> |ws| == |vs| && forall i :: 0 <= i < |ws| ==> SameWorkflow(ws[i], vs[i])
  {
    hide NormalWorkflow, SameWorkflow;
    forall i | 0 <= i < |ws| && i < |vs|
      ensures NormalWorkflows(ws)[i] == NormalWorkflows(vs)[i] <==> SameWorkflow(ws[i], vs[i])
    {
      NormalWorkflowExactly(ws[i], vs[i]);
    }
    if NormalWorkflows(ws) == NormalWorkflows(vs) { assert |ws| == |NormalWorkflows(ws)| == |vs|; }
  }

  lemma CounterpartsSort(ps: seq<Policy>, qs: seq<Policy>)
    requires Counterparts(ps, qs)
    ensures forall x :: x in SortedNormal(ps) ==> x in SortedNormal(qs)
  {
    hide NormalPolicy, SamePolicyContent;
    forall x | x in SortedNormal(ps) ensures x in SortedNormal(qs) {
      var p :| p in ps && x == NormalPolicy(p);
      var q :| q in qs && SamePolicyContent(p, q);
      NormalPolicyExactly(p, q);
    }
  }

  lemma SortedCounterparts(ps: seq<Policy>, qs: seq<Policy>)
    requires SortedNormal(ps) == SortedNormal(qs)
    ensures Counterparts(ps, qs)
  {
    hide NormalPolicy, SamePolicyContent;
    forall p | p in ps ensures exists q :: q in qs && SamePolicyContent(p, q) {
      var q := SameContentTwin(ps, qs, p);
      NormalPolicyExactly(p, q);
    }
  }

  /** Main result: under a collision-free digest two bundles share their address if and only if they
      agree in everything but policy order, company and the spelling of integral numbers. */
  lemma SameAddressExactly(digest: Content -> string, b: Bundle, c: Bundle)
    requires CollisionFree(digest) && DistinctIds(b.policies) && DistinctIds(c.policies)
    ensures ContentHash(digest, b) == ContentHash(digest, c) <==> SameBundleContent(b, c)
    ensures |ContentHash(digest, b)| >= 7 && ContentHash(digest, b)[..7] == "sha256:"
  {
    hide NormalWorkflow, SameWorkflow, NormalPolicy, SamePolicyContent, DistinctIds, NormalWorkflows, SortedNormal;
    NormalWorkflowsExactly(b.workflows, c.workflows);
    if ContentHash(digest, b) == ContentHash(digest, c) {
      var x, y := digest(CanonicalContent(b)), digest(CanonicalContent(c));
      assert ContentHash(digest, b)[7..] == x && ContentHash(digest, c)[7..] == y;
      SortedCounterparts(b.policies, c.policies);
      SortedCounterparts(c.policies, b.policies);
    }
    if SameBundleContent(b, c) {
      CounterpartsSort(b.policies, c.policies);
      CounterpartsSort(c.policies, b.policies);
      SortedUniquely(b.policies, c.policies);
    }
  }
}
