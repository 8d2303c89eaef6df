/** What the hash chain protects, field by field: two verified streams with one head record the same
    history, up to the spelling of integral numbers in facts and traces. */
module ChainLaws {
  import opened Options
  import opened Schema
  import opened Evaluator
  import opened Canonical
  import opened Addressing
  import opened LedgerEvents

  predicate SameValues(f: map<string, Scalar>, g: map<string, Scalar>) {
    f.Keys == g.Keys && forall n :: n in f ==> Respelt(f[n], g[n])
  }

  predicate SameResult(r: ConditionResult, s: ConditionResult) {
    && r.field == s.field && r.op == s.op && r.result == s.result
    && RespeltValue(r.expected, s.expected) && RespeltDefault(r.actual, s.actual)
  }

  predicate SameEvaluation(e: PolicyEvaluation, f: PolicyEvaluation) {
    && e.policyId == f.policyId && e.priority == f.priority && e.specificity == f.specificity
    && e.status == f.status && e.missingFields == f.missingFields && |e.conditions| == |f.conditions|
    && forall i :: 0 <= i < |e.conditions| ==> SameResult(e.conditions[i], f.conditions[i])
  }

  predicate SameDerivation(s: Trace, t: Trace) {
    && s.workflow == t.workflow && SameFacts(s.factsSupplied, t.factsSupplied)
    && SameValues(s.factsEffective, t.factsEffective) && s.factsIgnored == t.factsIgnored
    && s.defaultsApplied == t.defaultsApplied && s.precedence == t.precedence && s.outcome == t.outcome
    && |s.policies| == |t.policies|
    && forall i :: 0 <= i < |s.policies| ==> SameEvaluation(s.policies[i], t.policies[i])
  }

  predicate SameTrace(s: EventTrace, t: EventTrace) {
    match (s, t)
    case (Derivation(x), Derivation(y)) => SameDerivation(x, y)
    case (Adjudicated(i, o), Adjudicated(j, p)) => i == j && o == p
    case _ => false
  }

  /** What an event says, all of it. */
  predicate SameRecord(a: Body, b: Body) {
    && a.id == b.id && a.createdAt == b.createdAt && a.prev == b.prev
    && a.entry.eventType == b.entry.eventType && a.entry.companyId == b.entry.companyId
    && a.entry.workflow == b.entry.workflow && a.entry.actor == b.entry.actor && a.entry.key == b.entry.key
    && a.entry.outcome == b.entry.outcome && a.entry.bundleHash == b.entry.bundleHash
    && a.entry.linked == b.entry.linked
    && SameFacts(a.entry.facts, b.entry.facts) && SameTrace(a.entry.trace, b.entry.trace)
  }

  // ------------------------------------------------------------------ what the canonical form identifies

  lemma NormalValuesExactly(f: map<string, Scalar>, g: map<string, Scalar>)
    ensures NormalValues(f) == NormalValues(g) <==> SameValues(f, g)
  {
    hide Normalize, Respelt;
    var x, y := NormalValues(f), NormalValues(g);
    assert x.Keys == f.Keys && y.Keys == g.Keys;
    forall n | n in f && n in g ensures x[n] == y[n] <==> Respelt(f[n], g[n]) { NormalizeExactly(f[n], g[n]); }
  }

  lemma NormalResultExactly(r: ConditionResult, s: ConditionResult)
    ensures NormalResult(r) == NormalResult(s) <==> SameResult(r, s)
  {
    hide Normalize, Respelt, RespeltValue, NormalizeAll;
    var c := Condition(r.field, r.op, r.expected, NumberType);
    var d := Condition(s.field, s.op, s.expected, NumberType);
    NormalValueExactly(c, d);
    if r.actual.Some? && s.actual.Some? { NormalizeExactly(r.actual.value, s.actual.value); }
    var x, y := NormalResult(r), NormalResult(s);
    assert x.expected == NormalCondition(c).value && y.expected == NormalCondition(d).value;
    assert x == ConditionResult(r.field, r.op, x.expected, x.actual, r.result);
    assert y == ConditionResult(s.field, s.op, y.expected, y.actual, s.result);
  }

  lemma NormalEvaluationExactly(e: PolicyEvaluation, f: PolicyEvaluation)
    ensures NormalEvaluation(e) == NormalEvaluation(f) <==> SameEvaluation(e, f)
  {
    hide NormalResult, SameResult;
    var x, y := NormalEvaluation(e), NormalEvaluation(f);
    assert |x.conditions| == |e.conditions| && |y.conditions| == |f.conditions|;
    forall i | 0 <= i < |e.conditions| && i < |f.conditions|
      ensures x.conditions[i] == y.conditions[i] <==> SameResult(e.conditions[i], f.conditions[i])
    {
      NormalResultExactly(e.conditions[i], f.conditions[i]);
    }
    assert x == e.(conditions := x.conditions) && y == f.(conditions := y.conditions);
    if SameEvaluation(e, f) { assert x.conditions == y.conditions; }
  }

  lemma NormalEvaluationsExactly(es: seq<PolicyEvaluation>, fs: seq<PolicyEvaluation>)
    ensures NormalEvaluations(es) == NormalEvaluations(fs)
            <==> |es| == |fs| && forall i :: 0 <= i < |es| ==> SameEvaluation(es[i], fs[i])
  {
    hide NormalEvaluation, SameEvaluation;
    forall i | 0 <= i < |es| && i < |fs|
      ensures NormalEvaluations(es)[i] == NormalEvaluations(fs)[i] <==> SameEvaluation(es[i], fs[i])
    {
      NormalEvaluationExactly(es[i], fs[i]);
    }
    if NormalEvaluations(es) == NormalEvaluations(fs) { assert |es| == |NormalEvaluations(es)| == |fs|; }
  }

  lemma NormalTraceExactly(s: EventTrace, t: EventTrace)
    ensures NormalTrace(s) == NormalTrace(t) <==> SameTrace(s, t)
  {
    hide NormalFacts, NormalValues, NormalEvaluations, SameFacts, SameValues, SameEvaluation;
    if s.Derivation? && t.Derivation? {
      NormalFactsExactly(s.trace.factsSupplied, t.trace.factsSupplied);
      NormalValuesExactly(s.trace.factsEffective, t.trace.factsEffective);
      NormalEvaluationsExactly(s.trace.policies, t.trace.policies);
    }
  }

  lemma CanonicalExactly(a: Body, b: Body)
    ensures CanonicalBody(a) == CanonicalBody(b) <==> SameRecord(a, b)
  {
    hide NormalFacts, NormalTrace, SameFacts, SameTrace;
    NormalFactsExactly(a.entry.facts, b.entry.facts);
    NormalTraceExactly(a.entry.trace, b.entry.trace);
  }

  // ------------------------------------------------------------------ one event

  lemma SameHashExactly(digest: Digest, a: Body, b: Body)
    requires Injective(digest)
    ensures HashOf(digest, a) == HashOf(digest, b) <==> SameRecord(a, b)
    ensures |HashOf(digest, a)| >= 7 && HashOf(digest, a)[..7] == "sha256:"
  {
    hide SameRecord, CanonicalBody;
    CanonicalExactly(a, b);
    var x, y := digest(CanonicalBody(a)), digest(CanonicalBody(b));
    assert HashOf(digest, a)[7..] == x && HashOf(digest, b)[7..] == y;
  }

  /** A sealed event says what was sealed, and its hash verifies for nothing that says anything else. */
  lemma RewrittenExactlyFails(digest: Digest, b: Body, e: Event)
    requires Injective(digest) && e.hash == Seal(digest, b).hash
    ensures Seal(digest, b).body == b && Verifies(digest, Seal(digest, b))
    ensures Verifies(digest, e) <==> SameRecord(b, e.body)
  {
    hide SameRecord, HashOf;
    SameHashExactly(digest, b, e.body);
  }

  // ------------------------------------------------------------------ the chain

  ghost predicate SameHistory(s: seq<Event>, t: seq<Event>) {
    |s| == |t| && forall i :: 0 <= i < |s| ==> SameRecord(s[i].body, t[i].body)
  }

  lemma {:induction false} SameHistorySameHead(digest: Digest, s: seq<Event>, t: seq<Event>)
    requires Injective(digest) && ChainOk(digest, s) && ChainOk(digest, t) && SameHistory(s, t)
    ensures HeadOf(s) == HeadOf(t)
  {
    hide SameRecord, HashOf, Injective;
    if s != [] {
      var a, b := s[|s| - 1], t[|t| - 1];
      SameHashExactly(digest, a.body, b.body);
    }
  }

  /** Main result: two verified streams have one head if and only if they record the same history: an edit
      of any field of any event, a deletion, an insertion or a reordering moves the head. */
  lemma HeadIsHistory(digest: Digest, s: seq<Event>, t: seq<Event>)
    requires Injective(digest) && ChainOk(digest, s) && ChainOk(digest, t)
    ensures HeadOf(s) == HeadOf(t) <==> SameHistory(s, t)
  {
    hide SameRecord, CanonicalBody, ChainOk, Injective;
    if HeadOf(s) == HeadOf(t) {
      HeadFixesHistory(digest, s, t);
      forall i | 0 <= i < |s| ensures SameRecord(s[i].body, t[i].body) {
        assert SameContent(s[i], t[i]);
        CanonicalExactly(s[i].body, t[i].body);
      }
    }
    if SameHistory(s, t) { SameHistorySameHead(digest, s, t); }
  }

  /** A chain is accepted when every event's hash is that of its own body and every event but the first
      names the hash before it. */
  lemma {:induction false} ChainIsLinked(digest: Digest, s: seq<Event>)
    ensures ChainOk(digest, s) <==> forall i :: 0 <= i < |s| ==> LinkedAt(digest, s, i)
  {
    hide HashOf;
    if s != [] {
      var front := s[..|s| - 1];
      ChainIsLinked(digest, front);
      HashNonempty(digest, s[|s| - 1].body);
      forall i | 0 <= i < |front| ensures LinkedAt(digest, front, i) <==> LinkedAt(digest, s, i) { }
      assert HeadOf(front) == if |s| == 1 then None else Some(s[|s| - 2].hash);
      assert LinkedAt(digest, s, |s| - 1) <==> Verifies(digest, s[|s| - 1]) && s[|s| - 1].body.prev == HeadOf(front);
    }
  }

  predicate LinkedAt(digest: Digest, s: seq<Event>, i: nat)
    requires i < |s|
  {
    && s[i].hash == HashOf(digest, s[i].body)
    && s[i].body.prev == (if i == 0 then None else Some(s[i - 1].hash))
  }

  lemma HashNonempty(digest: Digest, b: Body)
    ensures HashOf(digest, b) != ""
  {
  }

  /** In particular no event of a stream can be rewritten, in any field, and the head kept. */
  lemma TamperingMovesTheHead(digest: Digest, s: seq<Event>, t: seq<Event>, i: nat)
    requires Injective(digest) && ChainOk(digest, s) && ChainOk(digest, t)
    requires i < |s| && i < |t| && !SameRecord(s[i].body, t[i].body)
    ensures HeadOf(s) != HeadOf(t)
  {
    hide SameRecord, ChainOk, Injective;
    HeadIsHistory(digest, s, t);
  }
}
