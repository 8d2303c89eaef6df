/** What a ruling and its trace must say, field by field, in terms of the request, the workflow's fact
    specs and its policies alone. Nothing here is shared with the evaluator's own specification: it
    is the reference that specification is measured against. */
module Account {
  import opened Options
  import opened Text
  import opened Schema
  import opened Precedence
  import opened Selection
  import opened Judgement
  import opened Evaluator

  // ------------------------------------------------------------------ facts

  predicate Specified(w: WorkflowSpec, name: string) {
    exists f :: f in w.facts && f.name == name
  }

  predicate HasDefault(w: WorkflowSpec, name: string) {
    exists f :: f in w.facts && f.name == name && f.default.Some?
  }

  /** A JSON value of the type: a number is no boolean and a boolean no number. */
  predicate OfType(v: Json, t: ValueType) {
    v.Value? && match v.v
      case Int(_) => t == NumberType
      case Float(_) => t == NumberType
      case Text(_) => t == StringType
      case Bool(_) => t == BooleanType
  }

  /** What a condition sees of a supplied value: the value itself, but an integral float as the integer. */
  predicate SeenAs(v: Json, seen: Scalar) {
    && v.Value? && (seen == v.v || (v.v.Float? && seen.Int? && seen.i as real == v.v.r))
    && (seen.Float? ==> seen.r.Floor as real != seen.r)
  }

  /** Some supplied fact has not the type its spec declares. */
  ghost predicate SomeMistyped(facts: map<string, Json>, w: WorkflowSpec) {
    exists f :: f in w.facts && f.name in facts && !OfType(facts[f.name], f.valueType)
  }

  /** What conditions see of a fact: the supplied value, else the default. */
  predicate SeenFact(facts: map<string, Json>, f: FactSpec, seen: Scalar) {
    if f.name in facts then SeenAs(facts[f.name], seen) else f.default == Some(seen)
  }

  ghost predicate FactsAccounted(facts: map<string, Json>, w: WorkflowSpec, t: Trace) {
    && t.factsSupplied == facts
    && Ascending(t.factsIgnored) && Ascending(t.defaultsApplied)
    && (forall n :: n in t.factsIgnored <==> n in facts && !Specified(w, n))
    && (forall n :: n in t.defaultsApplied <==> n !in facts && HasDefault(w, n))
    && (forall n :: n in t.factsEffective <==> (n in facts && Specified(w, n)) || (n !in facts && HasDefault(w, n)))
    && (forall f :: f in w.facts && f.name in facts ==>
          f.name in t.factsEffective && SeenAs(facts[f.name], t.factsEffective[f.name]))
    && (forall f :: f in w.facts && f.name !in facts && f.default.Some? ==>
          f.name in t.factsEffective && t.factsEffective[f.name] == f.default.value)
  }

  // ------------------------------------------------------------------ conditions and policies

  /** The value as a double, where there is one. */
  function AsReal(lib: Lib, v: Scalar): real {
    match v
    case Int(i) => if lib.toDouble(i).Some? then lib.toDouble(i).value else 0.0
    case Float(r) => r
    case _ => 0.0
  }

  predicate TooLarge(lib: Lib, v: Scalar) {
    v.Int? && lib.toDouble(v.i).None?
  }

  /** A number condition of the policies compares an integer beyond the doubles. */
  ghost predicate OverflowDue(lib: Lib, facts: map<string, Json>, w: WorkflowSpec, b: Bundle) {
    exists p, c, f, seen :: p in b.policies && p.workflow == w.name && c in p.conditions && c.valueType == NumberType
                            && f in w.facts && f.name == c.field && SeenFact(facts, f, seen)
                            && (TooLarge(lib, seen) || (c.value.One? && TooLarge(lib, c.value.v)))
  }

  function AsText(lib: Lib, v: Scalar): string {
    lib.norm(if v.Text? then v.s else lib.show(v))
  }

  predicate IsTrue(v: Scalar) {
    v != Bool(false) && v != Int(0) && v != Float(0.0) && v != Text("")
  }

  /** The condition holds of the value. */
  predicate Holds(lib: Lib, c: Condition, v: Scalar) {
    match (c.valueType, c.value)
    case (NumberType, One(u)) =>
      var less, more := AsReal(lib, v) < AsReal(lib, u), AsReal(lib, u) < AsReal(lib, v);
      && (c.op == Gt ==> more) && (c.op == Gte ==> !less) && (c.op == Lt ==> less) && (c.op == Lte ==> !more)
      && (c.op == Eq ==> !less && !more) && (c.op == Neq ==> less || more)
    case (StringType, One(u)) => (c.op == Eq) == (AsText(lib, v) == AsText(lib, u))
    case (StringType, Many(us)) =>
      (c.op == In) == exists i :: 0 <= i < |us| && AsText(lib, us[i]) == AsText(lib, v)
    case (BooleanType, One(u)) => IsTrue(v) == IsTrue(u)
    case _ => false
  }

  /** All conditions are on present facts and hold. */
  predicate Matches(lib: Lib, p: Policy, e: map<string, Scalar>) {
    forall c :: c in p.conditions ==> c.field in e && Holds(lib, c, e[c.field])
  }

  /** Some condition on a present fact does not hold. */
  predicate Fails(lib: Lib, p: Policy, e: map<string, Scalar>) {
    exists c :: c in p.conditions && c.field in e && !Holds(lib, c, e[c.field])
  }

  predicate Pends(lib: Lib, p: Policy, e: map<string, Scalar>) {
    !Matches(lib, p, e) && !Fails(lib, p, e)
  }

  predicate ResultAccounted(lib: Lib, c: Condition, e: map<string, Scalar>, r: ConditionResult) {
    && r.field == c.field && r.op == c.op && r.expected == c.value
    && (if c.field in e then
          r.actual == Some(e[c.field]) && r.result == (if Holds(lib, c, e[c.field]) then Pass else Fail)
        else r.actual == None && r.result == Missing)
  }

  predicate Lacks(p: Policy, e: map<string, Scalar>, x: string) {
    x !in e && exists c :: c in p.conditions && c.field == x
  }

  ghost predicate PolicyAccounted(lib: Lib, p: Policy, e: map<string, Scalar>, r: PolicyEvaluation) {
    && r.policyId == p.id && r.priority == p.priority && r.specificity == |p.conditions|
    && (r.status == Matched <==> Matches(lib, p, e)) && (r.status == Failed <==> Fails(lib, p, e))
    && |r.conditions| == |p.conditions|
    && (forall i :: 0 <= i < |p.conditions| ==> ResultAccounted(lib, p.conditions[i], e, r.conditions[i]))
    && Ascending(r.missingFields) && forall x :: x in r.missingFields <==> Lacks(p, e, x)
  }

  ghost predicate PoliciesAccounted(lib: Lib, ps: seq<Policy>, e: map<string, Scalar>, rs: seq<PolicyEvaluation>) {
    |rs| == |ps| && forall i :: 0 <= i < |ps| ==> PolicyAccounted(lib, ps[i], e, rs[i])
  }

  // ------------------------------------------------------------------ precedence

  /** A matched policy overrides it. */
  predicate Overruled(lib: Lib, ps: seq<Policy>, e: map<string, Scalar>, p: Policy) {
    exists q :: q in ps && Matches(lib, q, e) && p.id in q.overrides
  }

  predicate Stands(lib: Lib, ps: seq<Policy>, e: map<string, Scalar>, p: Policy) {
    p in ps && Matches(lib, p, e) && !Overruled(lib, ps, e, p)
  }

  /** No standing policy has more conditions. */
  predicate Narrowest(lib: Lib, ps: seq<Policy>, e: map<string, Scalar>, p: Policy) {
    Stands(lib, ps, e, p) && forall q :: q in ps && Stands(lib, ps, e, q) ==> |q.conditions| <= |p.conditions|
  }

  /** Of those, none has a higher priority. */
  predicate Leads(lib: Lib, ps: seq<Policy>, e: map<string, Scalar>, p: Policy) {
    Narrowest(lib, ps, e, p) && forall q :: q in ps && Narrowest(lib, ps, e, q) ==> q.priority <= p.priority
  }

  predicate LeadsAlone(lib: Lib, ps: seq<Policy>, e: map<string, Scalar>, p: Policy) {
    Leads(lib, ps, e, p) && forall q :: q in ps && Leads(lib, ps, e, q) ==> q == p
  }

  predicate Tied(lib: Lib, ps: seq<Policy>, e: map<string, Scalar>) {
    exists p, q :: p in ps && q in ps && Leads(lib, ps, e, p) && Leads(lib, ps, e, q) && p != q
  }

  /** An unproven policy that could still outrank the leader. */
  predicate Blocks(lib: Lib, ps: seq<Policy>, e: map<string, Scalar>, leader: Policy, u: Policy) {
    u in ps && Pends(lib, u, e) && u.priority > leader.priority
  }

  ghost predicate Blocked(lib: Lib, ps: seq<Policy>, e: map<string, Scalar>, leader: Policy) {
    exists u :: Blocks(lib, ps, e, leader, u)
  }

  // ------------------------------------------------------------------ outcome

  predicate Escalates(o: Outcome, reason: EscalationReason) {
    && o.kind == Escalate && o.action == None && o.policyId == None
    && !o.approvalRequired && o.approverRole == None && o.reason == Some(reason)
  }

  /** Nobody matched: the missing facts of all unproven policies, or no match at all. */
  ghost predicate UnmatchedOutcome(lib: Lib, ps: seq<Policy>, e: map<string, Scalar>, o: Outcome) {
    if exists u :: u in ps && Pends(lib, u, e) then
      && Escalates(o, MissingFacts) && o.conflictBetween == [] && Ascending(o.missingFacts)
      && forall x :: x in o.missingFacts <==> exists u :: u in ps && Pends(lib, u, e) && Lacks(u, e, x)
    else Escalates(o, NoMatchingPolicy) && o.missingFacts == [] && o.conflictBetween == []
  }

  /** Some policy leads alone: its effect, or the missing facts of those that could outrank it. */
  ghost predicate LedOutcome(lib: Lib, ps: seq<Policy>, e: map<string, Scalar>, p: Policy, o: Outcome) {
    if Blocked(lib, ps, e, p) then
      && Escalates(o, MissingFacts) && o.conflictBetween == [] && Ascending(o.missingFacts)
      && forall x :: x in o.missingFacts <==> exists u :: Blocks(lib, ps, e, p, u) && Lacks(u, e, x)
    else
      && o.kind == p.effect.kind && o.action == Some(p.effect.action) && o.policyId == Some(p.id)
      && o.approvalRequired == p.authority.approvalRequired && o.approverRole == p.authority.approverRole
      && o.reason == None && o.missingFacts == [] && o.conflictBetween == []
  }

  ghost predicate TiedOutcome(lib: Lib, ps: seq<Policy>, e: map<string, Scalar>, o: Outcome) {
    && Escalates(o, Conflict) && o.missingFacts == [] && Ascending(o.conflictBetween)
    && forall x :: x in o.conflictBetween <==> exists p :: p in ps && Leads(lib, ps, e, p) && p.id == x
  }

  ghost predicate OutcomeAccounted(lib: Lib, ps: seq<Policy>, e: map<string, Scalar>, o: Outcome) {
    && (Tied(lib, ps, e) ==> TiedOutcome(lib, ps, e, o))
    && (forall p :: p in ps && LeadsAlone(lib, ps, e, p) ==> LedOutcome(lib, ps, e, p, o))
    && ((forall p :: p in ps ==> !Matches(lib, p, e)) ==> UnmatchedOutcome(lib, ps, e, o))
  }

  // ------------------------------------------------------------------ the precedence trace

  function RuleWhen(applied: bool, rule: Rule): seq<Rule> {
    if applied then [rule] else []
  }

  ghost predicate RulesAccounted(lib: Lib, ps: seq<Policy>, e: map<string, Scalar>, rules: seq<Rule>) {
    var overrode := exists p :: p in ps && Matches(lib, p, e) && Overruled(lib, ps, e, p);
    var narrowed := exists p :: p in ps && Stands(lib, ps, e, p) && !Narrowest(lib, ps, e, p);
    var ranked := exists p :: p in ps && Narrowest(lib, ps, e, p) && !Leads(lib, ps, e, p);
    var alone := exists p :: p in ps && LeadsAlone(lib, ps, e, p);
    var blocked := exists p :: p in ps && LeadsAlone(lib, ps, e, p) && Blocked(lib, ps, e, p);
    rules == RuleWhen(overrode, OverridesRule) + RuleWhen(narrowed, SpecificityRule) + RuleWhen(ranked, PriorityRule)
             + RuleWhen(alone && !overrode && !narrowed && !ranked, SingleMatchRule) + RuleWhen(blocked, DominanceRule)
  }

  ghost predicate PrecedenceAccounted(lib: Lib, ps: seq<Policy>, e: map<string, Scalar>, t: PrecedenceTrace) {
    && RulesAccounted(lib, ps, e, t.appliedRules)
    && (forall p :: p in ps ==>
          (t.winner == Some(p.id) <==> LeadsAlone(lib, ps, e, p) && !Blocked(lib, ps, e, p)))
    && (t.winner.Some? ==> exists p :: p in ps && t.winner == Some(p.id))
    && Ascending(t.tieBetween) && Ascending(t.dominanceBlockedBy)
    && (forall x :: x in t.tieBetween <==>
          Tied(lib, ps, e) && exists p :: p in ps && Leads(lib, ps, e, p) && p.id == x)
    && (forall x :: x in t.dominanceBlockedBy <==>
          exists p, u :: p in ps && LeadsAlone(lib, ps, e, p) && Blocks(lib, ps, e, p, u) && u.id == x)
  }

  // ------------------------------------------------------------------ who struck whom

  /** `p` stands before `q` in the list. */
  predicate Before(ps: seq<Policy>, p: Policy, q: Policy) {
    exists i, j :: 0 <= i < j < |ps| && ps[i] == p && ps[j] == q
  }

  /** The last matched policy of the list that overrides `x`. */
  predicate LastToOverride(lib: Lib, ps: seq<Policy>, e: map<string, Scalar>, q: Policy, x: string) {
    && q in ps && Matches(lib, q, e) && x in q.overrides
    && forall r :: r in ps && Matches(lib, r, e) && x in r.overrides && r != q ==> Before(ps, r, q)
  }

  predicate FirstNarrowest(lib: Lib, ps: seq<Policy>, e: map<string, Scalar>, k: Policy) {
    k in ps && Narrowest(lib, ps, e, k)
    && forall r :: r in ps && Narrowest(lib, ps, e, r) && r != k ==> Before(ps, k, r)
  }

  predicate FirstLeader(lib: Lib, ps: seq<Policy>, e: map<string, Scalar>, k: Policy) {
    k in ps && Leads(lib, ps, e, k) && forall r :: r in ps && Leads(lib, ps, e, r) && r != k ==> Before(ps, k, r)
  }

  /** The policies struck by a rule, each by whom. */
  predicate StruckBy(lib: Lib, ps: seq<Policy>, e: map<string, Scalar>, rule: Rule, p: Policy, by_: Policy) {
    match rule
    case OverridesRule => Matches(lib, p, e) && LastToOverride(lib, ps, e, by_, p.id)
    case SpecificityRule => Stands(lib, ps, e, p) && !Narrowest(lib, ps, e, p) && FirstNarrowest(lib, ps, e, by_)
    case PriorityRule => Narrowest(lib, ps, e, p) && !Leads(lib, ps, e, p) && FirstLeader(lib, ps, e, by_)
    case _ => false
  }

  /** One block of strikes: one rule, in ascending order of the struck. */
  ghost predicate BlockAccounted(lib: Lib, ps: seq<Policy>, e: map<string, Scalar>, rule: Rule,
                                 block: seq<Elimination>) {
    && (forall i :: 0 <= i < |block| ==> block[i].rule == rule)
    && (forall i, j :: 0 <= i < j < |block| ==> Less(block[i].policyId, block[j].policyId))
    && (forall x, y :: Elimination(x, y, rule) in block <==>
          exists p, q :: p in ps && q in ps && StruckBy(lib, ps, e, rule, p, q) && p.id == x && q.id == y)
  }

  ghost predicate StrikesAccounted(lib: Lib, ps: seq<Policy>, e: map<string, Scalar>, elims: seq<Elimination>) {
    exists a, b, c :: elims == a + b + c && BlockAccounted(lib, ps, e, OverridesRule, a)
                      && BlockAccounted(lib, ps, e, SpecificityRule, b) && BlockAccounted(lib, ps, e, PriorityRule, c)
  }

  // ------------------------------------------------------------------ the whole ruling

  ghost predicate RulingAccounted(lib: Lib, facts: map<string, Json>, w: WorkflowSpec, ps: seq<Policy>,
                                  r: EvalResult) {
    r.Ruling? && var t := r.trace; var e := t.factsEffective;
    && t.workflow == w.name && t.outcome == r.outcome
    && FactsAccounted(facts, w, t) && PoliciesAccounted(lib, ps, e, t.policies)
    && OutcomeAccounted(lib, ps, e, r.outcome) && PrecedenceAccounted(lib, ps, e, t.precedence)
    && StrikesAccounted(lib, ps, e, t.precedence.eliminated)
  }

  /** The workflow's policies in bundle order: one per position of the bundle's list that names it. */
  ghost predicate SelectsInOrder(all: seq<Policy>, workflow: string, ps: seq<Policy>) {
    exists at: seq<nat> :: PicksAt(all, workflow, ps, at)
  }

  ghost predicate PicksAt(all: seq<Policy>, workflow: string, ps: seq<Policy>, at: seq<nat>) {
    && |at| == |ps|
    && (forall i, j :: 0 <= i < j < |at| ==> at[i] < at[j])
    && (forall i :: 0 <= i < |at| ==> at[i] < |all| && all[at[i]] == ps[i] && ps[i].workflow == workflow)
    && (forall k :: 0 <= k < |all| && all[k].workflow == workflow ==> k in at)
  }
}
