/** The deterministic evaluator (backend/runtime/evaluator.py): `evaluate` and its parts as
    the source's loops, each proved against a specification over sets and maps. */
module Evaluator {
  import opened Options
  import opened Text
  import opened Schema
  import opened Precedence
  import opened Selection
  import opened Judgement
  import opened Tally

  datatype ConditionOutcome = Pass | Fail | Missing

  datatype ConditionResult = ConditionResult(field: string, op: Operator, expected: CondValue,
                                             actual: Option<Scalar>, result: ConditionOutcome)
  datatype PolicyEvaluation = PolicyEvaluation(policyId: string, priority: int, specificity: nat,
                                               status: PolicyStatus, conditions: seq<ConditionResult>,
                                               missingFields: seq<string>)
  datatype PrecedenceTrace = PrecedenceTrace(appliedRules: seq<Rule>, winner: Option<string>,
                                             eliminated: seq<Elimination>, tieBetween: seq<string>,
                                             dominanceBlockedBy: seq<string>)
  datatype Trace = Trace(workflow: string, factsSupplied: map<string, Json>,
                         factsEffective: map<string, Scalar>, factsIgnored: seq<string>,
                         defaultsApplied: seq<string>, policies: seq<PolicyEvaluation>,
                         precedence: PrecedenceTrace, outcome: Outcome)

  /** `KeyError` and `InvalidFactsError` are the two documented request errors; `Overflow` is
      the OverflowError of `float(...)`, and `Crash` the IndexError of an all-overridden field. */
  datatype EvalResult = Ruling(outcome: Outcome, trace: Trace) | UnknownWorkflow | InvalidFacts | Overflow | Crash

  // ------------------------------------------------------------------ facts

  /** `_check_type`: None is InvalidFactsError. Integral floats become ints. */
  function CheckType(v: Json, t: ValueType): (r: Option<Scalar>)
    ensures r.Some? ==> HasType(r.value, t)
  {
    match v
    case NonScalar(_) => None
    case Value(s) =>
      if !HasType(s, t) then None
      else if s.Float? && s.r.Floor as real == s.r then Some(Int(s.r.Floor))
      else Some(s)
  }

  predicate Declared(w: WorkflowSpec, name: string) {
    FactNamed(w.facts, name).Some?
  }

  /** The value conditions see for a declared fact: the supplied one, else the default. */
  function Reading(facts: map<string, Json>, w: WorkflowSpec, name: string): Option<Scalar> {
    var spec := FactNamed(w.facts, name);
    if spec.None? then None
    else if name in facts then CheckType(facts[name], spec.value.valueType)
    else spec.value.default
  }

  ghost predicate FactsTyped(facts: map<string, Json>, w: WorkflowSpec) {
    forall name :: name in facts && Declared(w, name) ==> Reading(facts, w, name).Some?
  }

  ghost function Effective(facts: map<string, Json>, w: WorkflowSpec): map<string, Scalar> {
    map name | name in FactNames(w) && Reading(facts, w, name).Some? :: Reading(facts, w, name).value
  }

  ghost function Ignored(facts: map<string, Json>, w: WorkflowSpec): set<string> {
    facts.Keys - FactNames(w)
  }

  ghost function Defaulted(facts: map<string, Json>, w: WorkflowSpec): set<string> {
    set name | name in FactNames(w) && name !in facts && Reading(facts, w, name).Some?
  }

  lemma DeclaredIsNamed(w: WorkflowSpec, name: string)
    ensures Declared(w, name) <==> name in FactNames(w)
  {
  }

  /** The first loop of `_validate_facts`, in any dictionary order. */
  method CheckSupplied(facts: map<string, Json>, w: WorkflowSpec)
    returns (ok: bool, effective: map<string, Scalar>, ignored: seq<string>)
    ensures ok <==> FactsTyped(facts, w)
    ensures ok ==>
              effective == map name | name in facts && Declared(w, name) && Reading(facts, w, name).Some? ::
                             Reading(facts, w, name).value
    ensures ok ==> forall x :: x in ignored <==> x in Ignored(facts, w)
  {
    effective, ignored := map[], [];
    var todo := facts.Keys;
    while todo != {}
      invariant todo <= facts.Keys
      invariant forall name :: name in facts && name !in todo && Declared(w, name) ==> Reading(facts, w, name).Some?
      invariant forall name :: name in effective <==> name in facts && name !in todo && Declared(w, name)
      invariant forall name :: name in effective ==> Some(effective[name]) == Reading(facts, w, name)
      invariant forall x :: x in ignored <==> x in facts && x !in todo && !Declared(w, x)
      decreases todo
    {
      var name :| name in todo;
      todo := todo - {name};
      var spec := FactNamed(w.facts, name);
      if spec.None? {
        ignored := ignored + [name];
      } else {
        var checked := CheckType(facts[name], spec.value.valueType);
        if checked.None? { return false, map[], []; }
        effective := effective[name := checked.value];
      }
    }
    ok := true;
  }

  /** The second loop: defaults for declared facts that were not supplied. */
  method ApplyDefaults(facts: map<string, Json>, w: WorkflowSpec, supplied: map<string, Scalar>)
    returns (effective: map<string, Scalar>, defaults: seq<string>)
    requires UniqueFacts(w) && FactsTyped(facts, w)
    requires supplied == map name | name in facts && Declared(w, name) && Reading(facts, w, name).Some? ::
                           Reading(facts, w, name).value
    ensures effective == Effective(facts, w)
    ensures forall x :: x in defaults <==> x in Defaulted(facts, w)
  {
    hide UniqueFacts, FactNamed;
    effective, defaults := supplied, [];
    for i := 0 to |w.facts|
      invariant forall n :: n in effective
                            <==> n in supplied || (n in NamesUpTo(w, i) && n !in facts && Reading(facts, w, n).Some?)
      invariant forall n :: n in effective ==> Some(effective[n]) == Reading(facts, w, n)
      invariant forall x :: x in defaults <==> x in NamesUpTo(w, i) && x !in facts && Reading(facts, w, x).Some?
    {
      var spec := w.facts[i];
      NamedUniquely(w, i);
      NamesStep(w, i);
      if spec.name !in effective && spec.default.Some? {
        effective := effective[spec.name := spec.default.value];
        defaults := defaults + [spec.name];
      }
    }
    NamesAll(w);
  }

  ghost function NamesUpTo(w: WorkflowSpec, i: nat): set<string>
    requires i <= |w.facts|
  {
    set k | 0 <= k < i :: w.facts[k].name
  }

  lemma NamesStep(w: WorkflowSpec, i: nat)
    requires i < |w.facts| && UniqueFacts(w)
    ensures NamesUpTo(w, i + 1) == NamesUpTo(w, i) + {w.facts[i].name} && w.facts[i].name !in NamesUpTo(w, i)
  {
  }

  lemma NamesAll(w: WorkflowSpec)
    ensures NamesUpTo(w, |w.facts|) == FactNames(w)
  {
    forall x | x in FactNames(w) ensures x in NamesUpTo(w, |w.facts|) {
      var f :| f in w.facts && f.name == x;
      var k :| 0 <= k < |w.facts| && w.facts[k] == f;
      assert w.facts[k].name == x;
    }
    forall x | x in NamesUpTo(w, |w.facts|) ensures x in FactNames(w) {
      var k :| 0 <= k < |w.facts| && w.facts[k].name == x;
      assert w.facts[k] in w.facts;
    }
  }

  lemma NamedUniquely(w: WorkflowSpec, i: nat)
    requires UniqueFacts(w) && i < |w.facts|
    ensures FactNamed(w.facts, w.facts[i].name) == Some(w.facts[i])
  {
    var spec := FactNamed(w.facts, w.facts[i].name);
    assert w.facts[i] in w.facts;
    var k :| 0 <= k < |w.facts| && w.facts[k] == spec.value;
    assert k == i;
  }

  /** `_validate_facts`. */
  method ValidateFacts(facts: map<string, Json>, w: WorkflowSpec)
    returns (ok: bool, effective: map<string, Scalar>, ignored: seq<string>, defaults: seq<string>)
    requires UniqueFacts(w)
    ensures ok <==> FactsTyped(facts, w)
    ensures ok ==> effective == Effective(facts, w)
    ensures ok ==> ignored == SortedSet(Ignored(facts, w)) && defaults == SortedSet(Defaulted(facts, w))
  {
    ok, effective, ignored := CheckSupplied(facts, w);
    defaults := [];
    if ok {
      SortedUniqueIsSortedSet(ignored, Ignored(facts, w));
      effective, defaults := ApplyDefaults(facts, w, effective);
      SortedUniqueIsSortedSet(defaults, Defaulted(facts, w));
      ignored, defaults := SortedUnique(ignored), SortedUnique(defaults);
    }
  }

  // ------------------------------------------------------------------ conditions

  /** `float(v)` does not raise OverflowError. */
  predicate Fits(lib: Lib, v: Scalar) {
    v.Int? ==> lib.toDouble(v.i).Some?
  }

  /** `float(v)` */
  function NumberOf(lib: Lib, v: Scalar): real
    requires Fits(lib, v)
  {
    match v
    case Int(i) => lib.toDouble(i).value
    case Float(r) => r
    case Bool(b) => if b then 1.0 else 0.0
    case Text(_) => 0.0
  }

  /** `_norm_str` */
  function NormOf(lib: Lib, v: Scalar): string {
    if v.Text? then lib.norm(v.s) else lib.norm(lib.show(v))
  }

  /** Python's `bool(v)` */
  predicate Truth(v: Scalar) {
    match v
    case Int(i) => i != 0
    case Float(r) => r != 0.0
    case Bool(b) => b
    case Text(s) => s != ""
  }

  /** `_compare` raises neither AssertionError nor ValueError on this pair. */
  predicate Comparable(c: Condition, actual: Scalar) {
    ValidCondition(c) && HasType(actual, c.valueType)
  }

  /** `_compare` raises OverflowError: a number condition converts both of its sides. */
  predicate Overflows(lib: Lib, c: Condition, actual: Scalar) {
    c.valueType == NumberType && (!Fits(lib, actual) || (c.value.One? && !Fits(lib, c.value.v)))
  }

  /** `_compare`: an operator per branch, as in the source. */
  predicate Compare(lib: Lib, c: Condition, actual: Scalar)
    requires Comparable(c, actual) && !Overflows(lib, c, actual)
  {
    match c.valueType
    case NumberType =>
      var a, e := NumberOf(lib, actual), NumberOf(lib, c.value.v);
      (match c.op
       case Gt => a > e
       case Gte => a >= e
       case Lt => a < e
       case Lte => a <= e
       case Eq => a == e
       case _ => a != e)
    case StringType =>
      var a := NormOf(lib, actual);
      (match c.op
       case Eq => a == NormOf(lib, c.value.v)
       case Neq => a != NormOf(lib, c.value.v)
       case In => exists v :: v in c.value.vs && a == NormOf(lib, v)
       case _ => !exists v :: v in c.value.vs && a == NormOf(lib, v))
    case BooleanType => Truth(actual) == Truth(c.value.v)
  }

  /** Strictness: a condition on an absent fact is `Missing`, never passed or failed. */
  function OutcomeOf(lib: Lib, c: Condition, facts: map<string, Scalar>): ConditionOutcome {
    if c.field !in facts then Missing
    else
      var actual := facts[c.field];
      if Comparable(c, actual) && !Overflows(lib, c, actual) && Compare(lib, c, actual) then Pass else Fail
  }

  predicate OverflowsOn(lib: Lib, c: Condition, facts: map<string, Scalar>) {
    c.field in facts && Overflows(lib, c, facts[c.field])
  }

  /** Some condition on a present fact overflows. */
  ghost predicate PolicyOverflows(lib: Lib, p: Policy, facts: map<string, Scalar>) {
    exists c :: c in p.conditions && OverflowsOn(lib, c, facts)
  }

  ghost predicate SomeOverflow(lib: Lib, ps: seq<Policy>, facts: map<string, Scalar>) {
    exists p :: p in ps && PolicyOverflows(lib, p, facts)
  }

  ghost predicate AnyIs(lib: Lib, cs: seq<Condition>, facts: map<string, Scalar>, o: ConditionOutcome) {
    exists c :: c in cs && OutcomeOf(lib, c, facts) == o
  }

  ghost function StatusOf(lib: Lib, p: Policy, facts: map<string, Scalar>): PolicyStatus {
    if AnyIs(lib, p.conditions, facts, Fail) then Failed
    else if AnyIs(lib, p.conditions, facts, Missing) then Undeterminable
    else Matched
  }

  ghost function MissingFields(p: Policy, facts: map<string, Scalar>): set<string> {
    set c | c in p.conditions && c.field !in facts :: c.field
  }

  function ResultOf(lib: Lib, c: Condition, facts: map<string, Scalar>): ConditionResult {
    ConditionResult(c.field, c.op, c.value,
                    if c.field in facts then Some(facts[c.field]) else None,
                    OutcomeOf(lib, c, facts))
  }

  ghost function EvaluationOf(lib: Lib, p: Policy, facts: map<string, Scalar>): PolicyEvaluation {
    PolicyEvaluation(p.id, p.priority, p.Specificity(), StatusOf(lib, p, facts),
                     ResultsOf(lib, p.conditions, facts),
                     SortedSet(MissingFields(p, facts)))
  }

  /** Every comparison the policy asks for is between values of the declared type. */
  ghost predicate Ready(p: Policy, facts: map<string, Scalar>) {
    forall c :: c in p.conditions && c.field in facts ==> Comparable(c, facts[c.field])
  }

  ghost predicate Has(results: seq<ConditionResult>, o: ConditionOutcome) {
    exists r :: r in results && r.result == o
  }

  ghost predicate IsMissingName(results: seq<ConditionResult>, x: string) {
    exists r :: r in results && r.result == Missing && r.field == x
  }

  function ResultsOf(lib: Lib, cs: seq<Condition>, facts: map<string, Scalar>): seq<ConditionResult> {
    seq(|cs|, i requires 0 <= i < |cs| => ResultOf(lib, cs[i], facts))
  }

  /** `_evaluate_policy`; None is OverflowError. It stops at no earlier condition. */
  method EvaluatePolicy(lib: Lib, p: Policy, facts: map<string, Scalar>) returns (e: Option<PolicyEvaluation>)
    requires Ready(p, facts)
    ensures e.None? <==> PolicyOverflows(lib, p, facts)
    ensures e.Some? ==> e.value == EvaluationOf(lib, p, facts)
  {
    var results: seq<ConditionResult>, missing: seq<string>, anyFail := [], [], false;
    for i := 0 to |p.conditions|
      invariant |results| == i && forall k :: 0 <= k < i ==> results[k] == ResultOf(lib, p.conditions[k], facts)
      invariant anyFail <==> Has(results, Fail)
      invariant forall x :: x in missing <==> IsMissingName(results, x)
      invariant forall k :: 0 <= k < i ==> !OverflowsOn(lib, p.conditions[k], facts)
    {
      var cond := p.conditions[i];
      ghost var before := results;
      if cond.field !in facts {
        results := results + [ConditionResult(cond.field, cond.op, cond.value, None, Missing)];
        missing := missing + [cond.field];
      } else {
        var actual := facts[cond.field];
        if Overflows(lib, cond, actual) {
          assert OverflowsOn(lib, cond, facts);
          return None;
        }
        var passed := Compare(lib, cond, actual);
        anyFail := anyFail || !passed;
        results := results + [ConditionResult(cond.field, cond.op, cond.value, Some(actual),
                                              if passed then Pass else Fail)];
      }
      OneMore(before, results[i]);
    }
    assert results == ResultsOf(lib, p.conditions, facts);
    AnyIsHas(lib, p.conditions, facts, Fail);
    MissingAgree(lib, p, facts, missing);
    var status := if anyFail then Failed else if missing != [] then Undeterminable else Matched;
    e := Some(PolicyEvaluation(p.id, p.priority, p.Specificity(), status, results, SortedUnique(missing)));
  }

  lemma OneMore(results: seq<ConditionResult>, r: ConditionResult)
    ensures forall o :: Has(results + [r], o) <==> Has(results, o) || r.result == o
    ensures forall x :: IsMissingName(results + [r], x)
                        <==> IsMissingName(results, x) || (r.result == Missing && r.field == x)
  {
    assert forall q :: q in results + [r] <==> q in results || q == r;
  }

  lemma AnyIsHas(lib: Lib, cs: seq<Condition>, facts: map<string, Scalar>, o: ConditionOutcome)
    ensures AnyIs(lib, cs, facts, o) <==> Has(ResultsOf(lib, cs, facts), o)
  {
    var results := ResultsOf(lib, cs, facts);
    if AnyIs(lib, cs, facts, o) {
      var c :| c in cs && OutcomeOf(lib, c, facts) == o;
      var k :| 0 <= k < |cs| && cs[k] == c;
      assert results[k] in results;
    }
    if Has(results, o) {
      var r :| r in results && r.result == o;
      var k :| 0 <= k < |results| && results[k] == r;
      assert cs[k] in cs;
    }
  }

  lemma MissingAgree(lib: Lib, p: Policy, facts: map<string, Scalar>, missing: seq<string>)
    requires forall x :: x in missing <==> IsMissingName(ResultsOf(lib, p.conditions, facts), x)
    ensures missing != [] <==> AnyIs(lib, p.conditions, facts, Missing)
    ensures SortedUnique(missing) == SortedSet(MissingFields(p, facts))
  {
    var results := ResultsOf(lib, p.conditions, facts);
    forall x ensures x in MissingFields(p, facts) <==> x in missing {
      if x in MissingFields(p, facts) {
        var c :| c in p.conditions && c.field !in facts && c.field == x;
        var k :| 0 <= k < |p.conditions| && p.conditions[k] == c;
        assert results[k] in results;
      }
      if x in missing {
        var r :| r in results && r.result == Missing && r.field == x;
        var k :| 0 <= k < |results| && results[k] == r;
        assert p.conditions[k] in p.conditions;
      }
    }
    AnyIsHas(lib, p.conditions, facts, Missing);
    if Has(results, Missing) {
      var r :| r in results && r.result == Missing;
      assert IsMissingName(results, r.field);
    }
    if missing != [] { assert missing[0] in missing; }
    SortedUniqueIsSortedSet(missing, MissingFields(p, facts));
  }

  // ------------------------------------------------------------------ the decision

  ghost function BallotOf(lib: Lib, p: Policy, facts: map<string, Scalar>): Ballot {
    Ballot(AsContender(p), StatusOf(lib, p, facts), MissingFields(p, facts), p.effect, p.authority)
  }

  ghost function Votes(lib: Lib, facts: map<string, Scalar>): (vote: Voter)
    ensures Honest(vote)
  {
    (p: Policy) => BallotOf(lib, p, facts)
  }

  ghost function Ballots(lib: Lib, ps: seq<Policy>, facts: map<string, Scalar>): set<Ballot> {
    Cast(Votes(lib, facts), ps)
  }

  ghost function Evaluations(lib: Lib, ps: seq<Policy>, facts: map<string, Scalar>): (r: seq<PolicyEvaluation>)
    ensures |r| == |ps| && forall i :: 0 <= i < |ps| ==> r[i] == EvaluationOf(lib, ps[i], facts)
  {
    if ps == [] then [] else Evaluations(lib, ps[..|ps| - 1], facts) + [EvaluationOf(lib, ps[|ps| - 1], facts)]
  }

  ghost function WithStatus(lib: Lib, ps: seq<Policy>, facts: map<string, Scalar>, st: PolicyStatus): seq<Policy> {
    Having(Votes(lib, facts), ps, st)
  }

  /** `evaluate(facts, bundle, workflow)` as a specification. */
  ghost function Evaluate(lib: Lib, facts: map<string, Json>, b: Bundle, workflow: string): EvalResult {
    var w := WorkflowNamed(b.workflows, workflow);
    if w.None? then UnknownWorkflow
    else if !FactsTyped(facts, w.value) then InvalidFacts
    else
      var effective := Effective(facts, w.value);
      var ps := PoliciesFor(b.policies, workflow);
      var ballots := Ballots(lib, ps, effective);
      if SomeOverflow(lib, ps, effective) then Overflow
      else if Stuck(MatchedField(ballots)) then Crash
      else
        var v := Judge(ballots);
        Ruling(v.outcome,
               Trace(workflow, facts, effective, SortedSet(Ignored(facts, w.value)),
                     SortedSet(Defaulted(facts, w.value)), Evaluations(lib, ps, effective),
                     PrecedenceTrace(v.rules, v.winner,
                                     EliminationsOf(WithStatus(lib, ps, effective, Matched)),
                                     v.tie, v.blockedBy),
                     v.outcome))
  }

  lemma BallotMember(lib: Lib, ps: seq<Policy>, facts: map<string, Scalar>, p: Policy)
    requires p in ps
    ensures BallotOf(lib, p, facts) in Ballots(lib, ps, facts)
  {
    CastMember(Votes(lib, facts), ps, p);
  }

  // ------------------------------------------------------------------ evaluate

  /** `{f for e in es for f in e.missing_fields}` as a list. */
  function AllMissing(es: seq<PolicyEvaluation>): (r: seq<string>)
    ensures forall x :: x in r <==> exists e :: e in es && x in e.missingFields
  {
    if es == [] then []
    else
      assert es == [es[0]] + es[1..];
      es[0].missingFields + AllMissing(es[1..])
  }

  function EvaluationIds(es: seq<PolicyEvaluation>): (r: seq<string>)
    ensures forall x :: x in r <==> exists e :: e in es && x == e.policyId
  {
    if es == [] then []
    else
      assert es == [es[0]] + es[1..];
      [es[0].policyId] + EvaluationIds(es[1..])
  }

  /** `[e for e in es if e.priority > floor]` */
  function Outranking(es: seq<PolicyEvaluation>, floor: int): (r: seq<PolicyEvaluation>)
    ensures forall e :: e in r <==> e in es && e.priority > floor
  {
    if es == [] then []
    else
      var front, last := es[..|es| - 1], es[|es| - 1];
      assert es == front + [last];
      Outranking(front, floor) + (if last.priority > floor then [last] else [])
  }

  lemma EvaluationsAppend(lib: Lib, ps: seq<Policy>, facts: map<string, Scalar>, p: Policy)
    ensures Evaluations(lib, ps + [p], facts) == Evaluations(lib, ps, facts) + [EvaluationOf(lib, p, facts)]
  {
    assert (ps + [p])[..|ps|] == ps;
  }

  lemma OutrankingAppend(es: seq<PolicyEvaluation>, e: PolicyEvaluation, floor: int)
    ensures Outranking(es + [e], floor) == Outranking(es, floor) + (if e.priority > floor then [e] else [])
  {
    assert (es + [e])[..|es|] == es;
  }

  lemma {:induction false} OutrankingEvaluations(lib: Lib, ps: seq<Policy>, facts: map<string, Scalar>, floor: int)
    ensures Outranking(Evaluations(lib, ps, facts), floor) == Evaluations(lib, Above(ps, floor), facts)
  {
    if ps == [] {
      assert Evaluations(lib, ps, facts) == [] == Evaluations(lib, Above(ps, floor), facts);
    } else {
      var front, last := ps[..|ps| - 1], ps[|ps| - 1];
      OutrankingEvaluations(lib, front, facts, floor);
      var e := EvaluationOf(lib, last, facts);
      assert e.priority == last.priority;
      hide EvaluationOf;
      assert Evaluations(lib, ps, facts) == Evaluations(lib, front, facts) + [e];
      OutrankingAppend(Evaluations(lib, front, facts), e, floor);
      EvaluationsAppend(lib, Above(front, floor), facts, last);
      assert Above(ps, floor) == if last.priority > floor then Above(front, floor) + [last] else Above(front, floor);
    }
  }

  lemma MissingInEvaluations(lib: Lib, ps: seq<Policy>, facts: map<string, Scalar>, x: string)
    ensures x in AllMissing(Evaluations(lib, ps, facts)) <==> exists p :: p in ps && x in Votes(lib, facts)(p).missing
  {
    hide StatusOf, AllMissing, ResultsOf, MissingFields;
    var es, vote := Evaluations(lib, ps, facts), Votes(lib, facts);
    if x in AllMissing(es) {
      var e :| e in es && x in e.missingFields;
      var k :| 0 <= k < |es| && es[k] == e;
      assert ps[k] in ps && x in vote(ps[k]).missing;
    }
    if exists p :: p in ps && x in vote(p).missing {
      var p :| p in ps && x in vote(p).missing;
      var k :| 0 <= k < |ps| && ps[k] == p;
      assert es[k] in es && x in es[k].missingFields;
    }
  }

  lemma IdInEvaluations(lib: Lib, ps: seq<Policy>, facts: map<string, Scalar>, x: string)
    ensures x in EvaluationIds(Evaluations(lib, ps, facts)) <==> exists p :: p in ps && x == p.id
  {
    var es := Evaluations(lib, ps, facts);
    if x in EvaluationIds(es) {
      var e :| e in es && x == e.policyId;
      var k :| 0 <= k < |es| && es[k] == e;
      assert ps[k] in ps;
    }
    if exists p :: p in ps && x == p.id {
      var p :| p in ps && x == p.id;
      var k :| 0 <= k < |ps| && ps[k] == p;
      assert es[k] in es;
    }
  }

  /** What an evaluation list asks for and whom it names, as the ballots of its policies. */
  lemma EvaluationNames(lib: Lib, ps: seq<Policy>, facts: map<string, Scalar>)
    ensures SortedUnique(AllMissing(Evaluations(lib, ps, facts))) == SortedSet(MissingOf(Ballots(lib, ps, facts)))
    ensures SortedUnique(EvaluationIds(Evaluations(lib, ps, facts))) == SortedSet(IdsOfBallots(Ballots(lib, ps, facts)))
    ensures Evaluations(lib, ps, facts) == [] <==> Ballots(lib, ps, facts) == {}
  {
    var es, vote := Evaluations(lib, ps, facts), Votes(lib, facts);
    forall x ensures x in AllMissing(es) <==> exists p :: p in ps && x in vote(p).missing {
      MissingInEvaluations(lib, ps, facts, x);
    }
    NamesAsked(vote, ps, AllMissing(es));
    forall x ensures x in EvaluationIds(es) <==> exists p :: p in ps && x == p.id {
      IdInEvaluations(lib, ps, facts, x);
    }
    IdsNamed(vote, ps, EvaluationIds(es));
    CastNonempty(vote, ps);
  }

  /** The branches of `evaluate` without a winner. */
  method RuleWithoutWinner(lib: Lib, ghost ps: seq<Policy>, ghost facts: map<string, Scalar>,
                           undeterminable: seq<PolicyEvaluation>, rules: seq<Rule>) returns (verdict: Verdict)
    requires undeterminable == Evaluations(lib, WithStatus(lib, ps, facts, Undeterminable), facts)
    ensures verdict == NoWinner(Ballots(lib, ps, facts), rules)
  {
    UnprovenAre(Votes(lib, facts), ps);
    EvaluationNames(lib, WithStatus(lib, ps, facts, Undeterminable), facts);
    var outcome := if undeterminable != []
                   then Escalation(MissingFacts, SortedUnique(AllMissing(undeterminable)), [])
                   else Escalation(NoMatchingPolicy, [], []);
    verdict := Verdict(outcome, rules, None, [], []);
  }

  /** The dominance rule and the decisive ruling. */
  method RuleWithWinner(lib: Lib, ghost ps: seq<Policy>, ghost facts: map<string, Scalar>,
                        w: Policy, undeterminable: seq<PolicyEvaluation>, rules: seq<Rule>) returns (verdict: Verdict)
    requires undeterminable == Evaluations(lib, WithStatus(lib, ps, facts, Undeterminable), facts)
    ensures verdict == WithWinner(Ballots(lib, ps, facts), BallotOf(lib, w, facts), rules)
  {
    ghost var us := WithStatus(lib, ps, facts, Undeterminable);
    var blockers := Outranking(undeterminable, w.priority);
    OutrankingEvaluations(lib, us, facts, w.priority);
    UnprovenAre(Votes(lib, facts), ps);
    BlockersAre(Votes(lib, facts), ps, us, w);
    EvaluationNames(lib, Above(us, w.priority), facts);
    if blockers != [] {
      verdict := Verdict(Escalation(MissingFacts, SortedUnique(AllMissing(blockers)), []),
                         rules + [DominanceRule], None, [], SortedUnique(EvaluationIds(blockers)));
    } else {
      verdict := Verdict(Decisive(w.id, w.effect, w.authority), rules, Some(w.id), [], []);
    }
  }

  /** The part of `evaluate` after the policies are evaluated. */
  method Decide(lib: Lib, ghost ps: seq<Policy>, ghost facts: map<string, Scalar>,
                matched: seq<Policy>, undeterminable: seq<PolicyEvaluation>)
    returns (verdict: Option<Verdict>, elims: seq<Elimination>)
    requires DistinctIds(ps) && matched == WithStatus(lib, ps, facts, Matched)
    requires undeterminable == Evaluations(lib, WithStatus(lib, ps, facts, Undeterminable), facts)
    ensures verdict.None? <==> Stuck(MatchedField(Ballots(lib, ps, facts)))
    ensures verdict.Some? ==> verdict.value == Judge(Ballots(lib, ps, facts))
    ensures elims == EliminationsOf(matched)
  {
    HavingDistinct(Votes(lib, facts), ps, Matched);
    MatchedAre(Votes(lib, facts), ps);
    var sel, rules;
    sel, rules, elims := SelectWinner(matched);
    SelectedJudgement(Votes(lib, facts), ps, sel);
    match sel {
      case IndexError =>
        verdict := None;
      case Tie(ids) =>
        verdict := Some(Verdict(Escalation(Conflict, [], ids), rules, None, ids, []));
      case Nobody =>
        var v := RuleWithoutWinner(lib, ps, facts, undeterminable, rules);
        verdict := Some(v);
      case Winner(w) =>
        var v := RuleWithWinner(lib, ps, facts, w, undeterminable, rules);
        verdict := Some(v);
    }
  }

  lemma OnePolicyMore(lib: Lib, ps: seq<Policy>, facts: map<string, Scalar>, i: nat, st: PolicyStatus)
    requires i < |ps|
    ensures Evaluations(lib, ps[..i + 1], facts) == Evaluations(lib, ps[..i], facts) + [EvaluationOf(lib, ps[i], facts)]
    ensures WithStatus(lib, ps[..i + 1], facts, st) ==
            WithStatus(lib, ps[..i], facts, st) + (if StatusOf(lib, ps[i], facts) == st then [ps[i]] else [])
  {
    assert ps[..i + 1][..i] == ps[..i];
    HavingStep(Votes(lib, facts), ps, i, st);
  }

  /** `tuple(_evaluate_policy(p, effective) for p in policies)`; None is OverflowError. */
  method EvaluateAll(lib: Lib, ps: seq<Policy>, facts: map<string, Scalar>)
    returns (evaluations: Option<seq<PolicyEvaluation>>)
    requires forall p :: p in ps ==> Ready(p, facts)
    ensures evaluations.None? <==> SomeOverflow(lib, ps, facts)
    ensures evaluations.Some? ==> evaluations.value == Evaluations(lib, ps, facts)
  {
    var done: seq<PolicyEvaluation> := [];
    for i := 0 to |ps|
      invariant done == Evaluations(lib, ps[..i], facts)
      invariant forall k :: 0 <= k < i ==> !PolicyOverflows(lib, ps[k], facts)
    {
      var e := EvaluatePolicy(lib, ps[i], facts);
      if e.None? {
        assert ps[i] in ps;
        return None;
      }
      done := done + [e.value];
      OnePolicyMore(lib, ps, facts, i, Matched);
    }
    assert ps[..|ps|] == ps;
    evaluations := Some(done);
  }

  /** `[by_id[e.policy_id] for e in evaluations if e.status is MATCHED]` */
  method PickMatched(lib: Lib, ps: seq<Policy>, ghost facts: map<string, Scalar>, evaluations: seq<PolicyEvaluation>)
    returns (matched: seq<Policy>)
    requires DistinctIds(ps) && evaluations == Evaluations(lib, ps, facts)
    ensures matched == WithStatus(lib, ps, facts, Matched)
  {
    hide DistinctIds, Evaluations, StatusOf;
    matched := [];
    for i := 0 to |ps|
      invariant matched == WithStatus(lib, ps[..i], facts, Matched)
    {
      OnePolicyMore(lib, ps, facts, i, Matched);
      if evaluations[i].status == Matched {
        assert ps[i] in ps;
        var p := ById(ps, evaluations[i].policyId);
        SameIdSamePolicy(ps, p, ps[i]);
        matched := matched + [p];
      }
    }
    assert ps[..|ps|] == ps;
  }

  /** `[e for e in evaluations if e.status is UNDETERMINABLE]` */
  method PickUndeterminable(lib: Lib, ghost ps: seq<Policy>, ghost facts: map<string, Scalar>,
                            evaluations: seq<PolicyEvaluation>)
    returns (undeterminable: seq<PolicyEvaluation>)
    requires evaluations == Evaluations(lib, ps, facts)
    ensures undeterminable == Evaluations(lib, WithStatus(lib, ps, facts, Undeterminable), facts)
  {
    hide Evaluations, StatusOf;
    undeterminable := [];
    ghost var us: seq<Policy> := [];
    for i := 0 to |evaluations|
      invariant us == WithStatus(lib, ps[..i], facts, Undeterminable)
      invariant undeterminable == Evaluations(lib, us, facts)
    {
      OnePolicyMore(lib, ps, facts, i, Undeterminable);
      var e := evaluations[i];
      if e.status == Undeterminable {
        EvaluationsAppend(lib, us, facts, ps[i]);
        us := us + [ps[i]];
        undeterminable := undeterminable + [e];
      }
    }
    assert ps[..|ps|] == ps;
  }

  /** Facts that passed `_validate_facts` have the types an accepted bundle's conditions
      compare, so `_compare` never reaches its AssertionError. */
  lemma AcceptedPoliciesReady(facts: map<string, Json>, b: Bundle, w: WorkflowSpec, p: Policy)
    requires ValidBundle(b) && p in b.policies && WorkflowNamed(b.workflows, p.workflow) == Some(w)
    ensures Ready(p, Effective(facts, w))
  {
    forall c | c in p.conditions && c.field in Effective(facts, w)
      ensures Comparable(c, Effective(facts, w)[c.field])
    {
      assert ConditionDeclared(c, w);
      assert ValidPolicy(p) && ValidCondition(c);
      var spec := FactNamed(w.facts, c.field).value;
      assert ValidWorkflow(w) && ValidFact(spec);
    }
  }

  /** On an accepted bundle somebody always stands, so `survivors[0]` exists. */
  lemma AcceptedNeverStuck(lib: Lib, b: Bundle, workflow: string, facts: map<string, Scalar>)
    requires Integrity(b)
    ensures !Stuck(MatchedField(Ballots(lib, PoliciesFor(b.policies, workflow), facts)))
  {
    var m := MatchedField(Ballots(lib, PoliciesFor(b.policies, workflow), facts));
    var rank :| RanksOverrides(b.policies, rank);
    forall c | c in m ensures exists p :: p in b.policies && AsContender(p) == c {
      var x :| x in Ballots(lib, PoliciesFor(b.policies, workflow), facts) && x.contender == c;
      var p :| p in PoliciesFor(b.policies, workflow) && Votes(lib, facts)(p) == x;
    }
    assert Ranked(m, rank);
    if m != {} { AcyclicFieldStands(m, rank); }
  }

  /** `evaluate` on a constructed bundle: the specification, and never an index error. */
  method EvaluateFacts(lib: Lib, facts: map<string, Json>, b: Bundle, workflow: string) returns (r: EvalResult)
    requires ValidBundle(b)
    ensures r == Evaluate(lib, facts, b, workflow)
    ensures !r.Crash?
  {
    var wf := WorkflowNamed(b.workflows, workflow);
    if wf.None? { return UnknownWorkflow; }
    assert ValidWorkflow(wf.value);
    var ok, effective, ignored, defaults := ValidateFacts(facts, wf.value);
    if !ok { return InvalidFacts; }
    var policies := PoliciesFor(b.policies, workflow);
    PoliciesForDistinct(b.policies, workflow);
    forall p | p in policies ensures Ready(p, effective) { AcceptedPoliciesReady(facts, b, wf.value, p); }
    var evaluated := EvaluateAll(lib, policies, effective);
    if evaluated.None? { return Overflow; }
    var evaluations := evaluated.value;
    var matched := PickMatched(lib, policies, effective, evaluations);
    var undeterminable := PickUndeterminable(lib, policies, effective, evaluations);
    AcceptedNeverStuck(lib, b, workflow, effective);
    var verdict, elims := Decide(lib, policies, effective, matched, undeterminable);
    var v := verdict.value;
    r := Ruling(v.outcome,
                Trace(workflow, facts, effective, ignored, defaults, evaluations,
                      PrecedenceTrace(v.rules, v.winner, elims, v.tie, v.blockedBy), v.outcome));
  }

  // ------------------------------------------------------------------ overflow

  /** A number condition of the workflow on a valued fact whose value, or whose own value, is
      an integer outside the double range. */
  ghost predicate TouchesHugeNumber(lib: Lib, facts: map<string, Scalar>, b: Bundle, workflow: string) {
    exists p, c :: p in b.policies && p.workflow == workflow && c in p.conditions && c.valueType == NumberType
                   && c.field in facts && c.value.One? && (Huge(lib, facts[c.field]) || Huge(lib, c.value.v))
  }

  predicate Huge(lib: Lib, v: Scalar) {
    v.Int? && lib.toDouble(v.i).None?
  }

  lemma HugeNumberOverflows(lib: Lib, facts: map<string, Scalar>, b: Bundle, workflow: string)
    requires TouchesHugeNumber(lib, facts, b, workflow)
    ensures SomeOverflow(lib, PoliciesFor(b.policies, workflow), facts)
  {
    var p, c :| p in b.policies && p.workflow == workflow && c in p.conditions && c.valueType == NumberType
                && c.field in facts && c.value.One? && (Huge(lib, facts[c.field]) || Huge(lib, c.value.v));
    assert OverflowsOn(lib, c, facts);
    assert p in PoliciesFor(b.policies, workflow) && PolicyOverflows(lib, p, facts);
  }

  lemma OverflowTouches(lib: Lib, facts: map<string, Scalar>, b: Bundle, workflow: string)
    requires (forall p :: p in b.policies ==> ValidPolicy(p))
             && SomeOverflow(lib, PoliciesFor(b.policies, workflow), facts)
    ensures TouchesHugeNumber(lib, facts, b, workflow)
  {
    hide SnakeCase, Undotted, PoliciesFor, ValidEvidence, ValidWorkflow;
    var p :| p in PoliciesFor(b.policies, workflow) && PolicyOverflows(lib, p, facts);
    var c :| c in p.conditions && OverflowsOn(lib, c, facts);
    assert ValidPolicy(p) && ValidCondition(c);
  }

  lemma DecidesOrOverflows(lib: Lib, facts: map<string, Json>, b: Bundle, workflow: string, w: WorkflowSpec)
    requires Integrity(b) && WorkflowNamed(b.workflows, workflow) == Some(w) && FactsTyped(facts, w)
    ensures var r := Evaluate(lib, facts, b, workflow);
            && (r.Overflow? <==> SomeOverflow(lib, PoliciesFor(b.policies, workflow), Effective(facts, w)))
            && (r.Ruling? <==> !r.Overflow?)
  {
    AcceptedNeverStuck(lib, b, workflow, Effective(facts, w));
  }

  /** Main result: on an accepted bundle and well-typed facts, `evaluate` either decides or
      overflows, and it overflows exactly when a number condition of the workflow touches a
      number outside the double range. */
  lemma OverflowsExactlyOnHugeNumbers(lib: Lib, facts: map<string, Json>, b: Bundle, workflow: string, w: WorkflowSpec)
    requires ValidBundle(b) && WorkflowNamed(b.workflows, workflow) == Some(w) && FactsTyped(facts, w)
    ensures var r := Evaluate(lib, facts, b, workflow);
            && (r.Overflow? <==> TouchesHugeNumber(lib, Effective(facts, w), b, workflow))
            && (r.Ruling? <==> !r.Overflow?)
  {
    hide SomeOverflow, TouchesHugeNumber, Evaluate, Integrity, ValidPolicy;
    DecidesOrOverflows(lib, facts, b, workflow, w);
    if SomeOverflow(lib, PoliciesFor(b.policies, workflow), Effective(facts, w)) {
      OverflowTouches(lib, Effective(facts, w), b, workflow);
    }
    if TouchesHugeNumber(lib, Effective(facts, w), b, workflow) {
      HugeNumberOverflows(lib, Effective(facts, w), b, workflow);
    }
  }
}
