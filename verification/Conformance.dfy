/** The Rust evaluator refines the Python one: where they agree, exactly when, and what
    breaks on either side of the condition. */
module Conformance {
  import opened Options
  import opened Schema
  import opened Precedence
  import opened Judgement
  import opened Tally
  import opened Evaluator
  import opened EdgeEvaluator
  import opened Likeness
  import opened Solo

  function EdgeView(r: EdgeResult): View {
    match r
    case EdgeUnknownWorkflow => NoSuchWorkflow
    case EdgeInvalidFacts => BadFacts
    case BadRequest => Undecodable
    case Panicked => Crashed
    case Decided(v) => Seen(v)
  }

  /** What agreement of the two sides says: one outcome, reached in one way, or errors of one kind. */
  lemma SameViewExactly(r: EdgeResult, s: EvalResult)
    ensures EdgeView(r) == ViewOf(s) <==>
              || (r.EdgeUnknownWorkflow? && s.UnknownWorkflow?) || (r.EdgeInvalidFacts? && s.InvalidFacts?)
              || (r.Panicked? && s.Crash?)
              || (r.Decided? && s.Ruling? && r.verdict.outcome == s.outcome
                  && r.verdict.rules == s.trace.precedence.appliedRules
                  && r.verdict.winner == s.trace.precedence.winner && r.verdict.tie == s.trace.precedence.tieBetween
                  && r.verdict.blockedBy == s.trace.precedence.dominanceBlockedBy)
  {
  }

  // ------------------------------------------------------------------ numbers

  /** Rounding to binary64 as `as f64` and `float(...)` do it: monotone, exact at the ends of
      the i64 range, and integral and stable beyond it. */
  ghost predicate Rounds(lib: Lib) {
    && (forall i :: -TWO63 <= i <= TWO63 ==> lib.toDouble(i).Some?)
    && lib.toDouble(TWO63) == Some(TWO63 as real) && lib.toDouble(-TWO63) == Some(-TWO63 as real)
    && lib.toDouble(TWO63 - 1) == Some(TWO63 as real)
    && (forall i, j :: i <= j && lib.toDouble(i).Some? && lib.toDouble(j).Some? ==>
          lib.toDouble(i).value <= lib.toDouble(j).value)
    && (forall i :: !InI64(i) && lib.toDouble(i).Some? ==>
          var r := lib.toDouble(i).value; r.Floor as real == r && lib.toDouble(r.Floor) == Some(r))
  }

  ghost predicate FloatsAreDoubles(lib: Lib, facts: map<string, Json>) {
    forall n :: n in facts && facts[n].Value? ==> IsDouble(lib, facts[n].v)
  }

  /** A number that is no integer, or whose double lies between -2^63 and 2^63 inclusive. */
  predicate InRange(lib: Lib, v: Scalar)
    requires Fits(lib, v)
  {
    match v
    case Int(_) => -TWO63 as real <= NumberOf(lib, v) <= TWO63 as real
    case Float(r) => r.Floor as real == r ==> -TWO63 as real <= r <= TWO63 as real
    case _ => true
  }

  /** Both evaluators compare the same double for a supplied number. */
  predicate CastsExactly(lib: Lib, v: Scalar) {
    HasType(v, NumberType) ==>
      var edge, py := EdgeCheckType(lib, v, NumberType), CheckType(Value(v), NumberType);
      edge.Some? && Fits(lib, edge.value) && Fits(lib, py.value) && NumberOf(lib, edge.value) == NumberOf(lib, py.value)
  }

  lemma CastOf(lib: Lib, r: real)
    requires Rounds(lib) && r.Floor as real == r && lib.toDouble(r.Floor) == Some(r)
    ensures Fits(lib, CastFloat(r))
    ensures NumberOf(lib, CastFloat(r)) == r <==> -TWO63 as real <= r <= TWO63 as real
  {
    assert Saturate(r.Floor) == r.Floor || Saturate(r.Floor) == -TWO63 || Saturate(r.Floor) == TWO63 - 1;
  }

  /** Main result: the two casts agree exactly on the numbers in range; 2^63 itself is one. */
  lemma CastsExactlyInRange(lib: Lib, v: Scalar)
    requires Rounds(lib) && Fits(lib, v) && IsDouble(lib, v)
    ensures CastsExactly(lib, v) <==> InRange(lib, v)
  {
    match v {
      case Int(i) =>
        if !InI64(i) { CastOf(lib, lib.toDouble(i).value); }
      case Float(r) =>
        if r.Floor as real == r { CastOf(lib, r); }
      case _ =>
    }
  }

  /** In particular every integer of the i64 range casts exactly. */
  lemma InRangeCastsExactly(lib: Lib, v: Scalar)
    requires Rounds(lib) && IsDouble(lib, v)
    requires v.Int? ==> InI64(v.i)
    requires v.Float? ==> -TWO63 as real <= v.r < TWO63 as real
    ensures CastsExactly(lib, v)
  {
    CastsExactlyInRange(lib, v);
  }

  /** What the port needs of the request: it decodes, and its numbers are in range. */
  ghost predicate FactsInRange(lib: Lib, facts: map<string, Json>) {
    FactsDecode(lib, facts) && forall n :: n in facts && SnakeCase(n) ==> InRange(lib, facts[n].v)
  }

  ghost predicate FactsCast(lib: Lib, facts: map<string, Json>) {
    FactsDecode(lib, facts) && forall n :: n in facts && SnakeCase(n) ==> CastsExactly(lib, facts[n].v)
  }

  lemma FactsCastInRange(lib: Lib, facts: map<string, Json>)
    requires Rounds(lib) && FloatsAreDoubles(lib, facts)
    ensures FactsCast(lib, facts) <==> FactsInRange(lib, facts)
  {
    if FactsDecode(lib, facts) {
      forall n | n in facts ensures CastsExactly(lib, facts[n].v) <==> InRange(lib, facts[n].v) {
        CastsExactlyInRange(lib, facts[n].v);
      }
    }
  }

  // ------------------------------------------------------------------ ballots

  /** A fact value as the two evaluators hold it after validation. */
  predicate SameReading(lib: Lib, edge: Scalar, py: Scalar, t: ValueType) {
    && HasType(edge, t) && HasType(py, t)
    && (if t == NumberType then Fits(lib, edge) && Fits(lib, py) && NumberOf(lib, edge) == NumberOf(lib, py)
        else edge == py)
  }

  lemma CompareSame(lib: Lib, c: Condition, edge: Scalar, py: Scalar)
    requires ValidCondition(c) && TypedCondition(c) && CondValueDecodes(lib, c.value)
    requires SameReading(lib, edge, py, c.valueType)
    ensures Comparable(c, py) && !Overflows(lib, c, py) && EdgeCompare(lib, c, edge) == Some(Compare(lib, c, py))
  {
    if c.value.Many? {
      forall v | v in c.value.vs ensures EdgeNorm(lib, v) == NormOf(lib, v) {}
    }
  }

  lemma ReadingSame(lib: Lib, facts: map<string, Json>, w: WorkflowSpec, n: string)
    requires ValidWorkflow(w) && WorkflowDecodes(lib, w) && FactsCast(lib, facts) && Declared(w, n)
    ensures EdgeReading(lib, Decoded(facts), w, n).Some? <==> Reading(facts, w, n).Some?
    ensures Reading(facts, w, n).Some? ==>
              SameReading(lib, EdgeReading(lib, Decoded(facts), w, n).value, Reading(facts, w, n).value,
                          FactNamed(w.facts, n).value.valueType)
  {
    var spec := FactNamed(w.facts, n).value;
    assert ValidFact(spec);
    if n in facts && spec.valueType == NumberType {
      assert CastsExactly(lib, facts[n].v);
    }
  }

  lemma FactsTypedSame(lib: Lib, facts: map<string, Json>, w: WorkflowSpec)
    requires ValidWorkflow(w) && WorkflowDecodes(lib, w) && FactsCast(lib, facts)
    ensures EdgeFactsTyped(lib, Decoded(facts), w) <==> FactsTyped(facts, w)
    ensures EdgeEffective(lib, Decoded(facts), w).Keys == Effective(facts, w).Keys
  {
    forall n | Declared(w, n) ensures EdgeReading(lib, Decoded(facts), w, n).Some? <==> Reading(facts, w, n).Some? {
      ReadingSame(lib, facts, w, n);
    }
    forall n | n in FactNames(w) ensures Declared(w, n) { DeclaredIsNamed(w, n); }
  }

  lemma OutcomeSame(lib: Lib, facts: map<string, Json>, w: WorkflowSpec, c: Condition)
    requires ValidWorkflow(w) && WorkflowDecodes(lib, w) && FactsCast(lib, facts)
    requires ValidCondition(c) && TypedCondition(c) && CondValueDecodes(lib, c.value) && ConditionDeclared(c, w)
    ensures EdgeOutcomeOf(lib, c, EdgeEffective(lib, Decoded(facts), w)) == Some(OutcomeOf(lib, c, Effective(facts, w)))
    ensures !OverflowsOn(lib, c, Effective(facts, w))
  {
    FactsTypedSame(lib, facts, w);
    var e, f := EdgeEffective(lib, Decoded(facts), w), Effective(facts, w);
    if c.field in e {
      ReadingSame(lib, facts, w, c.field);
      CompareSame(lib, c, e[c.field], f[c.field]);
    }
  }

  lemma PointwiseSame(lib: Lib, cs: seq<Condition>, e: map<string, Scalar>, f: map<string, Scalar>, o: ConditionOutcome)
    requires forall c :: c in cs ==> EdgeOutcomeOf(lib, c, e) == Some(OutcomeOf(lib, c, f))
    ensures SomeIs(lib, cs, e, Some(o)) <==> AnyIs(lib, cs, f, o)
    ensures !SomeIs(lib, cs, e, None)
  {
  }

  lemma BallotSame(lib: Lib, facts: map<string, Json>, b: Bundle, w: WorkflowSpec, p: Policy)
    requires ValidBundle(b) && TypedValues(b) && BundleDecodes(lib, b) && FactsCast(lib, facts)
    requires p in b.policies && WorkflowNamed(b.workflows, p.workflow) == Some(w)
    ensures var e, f := EdgeEffective(lib, Decoded(facts), w), Effective(facts, w);
            && !PolicyPanics(lib, p, e) && !PolicyOverflows(lib, p, f)
            && EdgeBallotOf(lib, p, e) == BallotOf(lib, p, f)
  {
    var e, f := EdgeEffective(lib, Decoded(facts), w), Effective(facts, w);
    assert ValidWorkflow(w) && ValidPolicy(p) && PolicyPlaced(p, b) && PolicyDecodes(lib, p);
    forall c | c in p.conditions
      ensures EdgeOutcomeOf(lib, c, e) == Some(OutcomeOf(lib, c, f)) && !OverflowsOn(lib, c, f)
    {
      OutcomeSame(lib, facts, w, c);
    }
    PointwiseSame(lib, p.conditions, e, f, Fail);
    PointwiseSame(lib, p.conditions, e, f, Missing);
    FactsTypedSame(lib, facts, w);
  }

  lemma CastSame(vote: Voter, other: Voter, ps: seq<Policy>)
    requires forall p :: p in ps ==> vote(p) == other(p)
    ensures Cast(vote, ps) == Cast(other, ps)
  {
    forall b | b in Cast(vote, ps) ensures b in Cast(other, ps) {
      var p :| p in ps && vote(p) == b;
      CastMember(other, ps, p);
    }
    forall b | b in Cast(other, ps) ensures b in Cast(vote, ps) {
      var p :| p in ps && other(p) == b;
      CastMember(vote, ps, p);
    }
  }

  ghost predicate Agree(lib: Lib, facts: map<string, Json>, b: Bundle, workflow: string) {
    EdgeView(EdgeCall(lib, facts, b, workflow)) == ViewOf(Evaluate(lib, facts, b, workflow))
  }

  lemma BallotsSame(lib: Lib, facts: map<string, Json>, b: Bundle, workflow: string, w: WorkflowSpec)
    requires ValidBundle(b) && TypedValues(b) && BundleDecodes(lib, b) && FactsCast(lib, facts)
    requires WorkflowNamed(b.workflows, workflow) == Some(w)
    ensures var ps := PoliciesFor(b.policies, workflow); var e := EdgeEffective(lib, Decoded(facts), w);
            && !SomePanics(lib, ps, e)
            && !SomeOverflow(lib, ps, Effective(facts, w))
            && EdgeBallots(lib, ps, e) == Ballots(lib, ps, Effective(facts, w))
  {
    hide ValidBundle, TypedValues, BundleDecodes, CastsExactly, PolicyPanics, PolicyOverflows, EdgeStatusOf, StatusOf;
    var ps := PoliciesFor(b.policies, workflow);
    var e, f := EdgeEffective(lib, Decoded(facts), w), Effective(facts, w);
    forall p | p in ps
      ensures !PolicyPanics(lib, p, e) && !PolicyOverflows(lib, p, f) && EdgeVotes(lib, e)(p) == Votes(lib, f)(p)
    {
      BallotSame(lib, facts, b, w, p);
    }
    CastSame(EdgeVotes(lib, e), Votes(lib, f), ps);
  }

  lemma AcceptedNamesUnique(b: Bundle)
    requires ValidBundle(b)
    ensures UniqueNames(b)
  {
    forall w | w in b.workflows ensures UniqueFacts(w) { assert ValidWorkflow(w); }
  }

  /** The port's view past the request errors, as a function of the ballots. */
  lemma EdgeViewIsJudgement(lib: Lib, facts: map<string, Json>, b: Bundle, workflow: string)
    requires UniqueNames(b) && FactsDecode(lib, facts) && BundleDecodes(lib, b)
    ensures var w := WorkflowNamed(b.workflows, workflow); var ps := PoliciesFor(b.policies, workflow);
            var decoded := Decoded(facts);
            EdgeView(EdgeCall(lib, facts, b, workflow)) ==
            if w.None? then NoSuchWorkflow
            else if !EdgeFactsTyped(lib, decoded, w.value) then BadFacts
            else var e := EdgeEffective(lib, decoded, w.value);
              if SomePanics(lib, ps, e) then Crashed
              else Seen(EdgeJudge(EdgeBallots(lib, ps, e)))
  {
    hide UniqueNames, EdgeJudge, BundleDecodes, Judge, EdgeEffective, PoliciesFor, SomePanics, EdgeFactsTyped, EdgeRun;
    EdgeRunIsJudgement(lib, Decoded(facts), b, workflow);
  }

  /** On every accepted and typed bundle the port can decode, and facts whose numbers it casts
      exactly, the port returns the same request error, or the same outcome, winner, rules, ties
      and blockers; and neither side overflows or panics. */
  lemma PortAgrees(lib: Lib, facts: map<string, Json>, b: Bundle, workflow: string)
    requires ValidBundle(b) && TypedValues(b) && BundleDecodes(lib, b) && FactsCast(lib, facts)
    ensures Agree(lib, facts, b, workflow)
    ensures EdgeCall(lib, facts, b, workflow) != Panicked && Evaluate(lib, facts, b, workflow) != Overflow
  {
    hide TypedValues, BundleDecodes, FactsDecode, EdgeCall, Evaluate, Stuck, Ballots, EdgeBallots, UniqueNames;
    AcceptedNamesUnique(b);
    assert FactsDecode(lib, facts);
    ViewIsJudgement(lib, facts, b, workflow);
    EdgeViewIsJudgement(lib, facts, b, workflow);
    var wf := WorkflowNamed(b.workflows, workflow);
    if wf.Some? {
      DecodesWorkflow(lib, b, wf.value);
      FactsTypedSame(lib, facts, wf.value);
      BallotsSame(lib, facts, b, workflow, wf.value);
      AcceptedNeverStuck(lib, b, workflow, Effective(facts, wf.value));
    }
  }

  lemma DecodesWorkflow(lib: Lib, b: Bundle, w: WorkflowSpec)
    requires ValidBundle(b) && BundleDecodes(lib, b) && w in b.workflows
    ensures ValidWorkflow(w) && WorkflowDecodes(lib, w)
  {
  }

  /** A request the port cannot decode is refused, while Python decides it or reports another error. */
  lemma UndecodableDiverges(lib: Lib, facts: map<string, Json>, b: Bundle, workflow: string)
    requires !BundleDecodes(lib, b) || !FactsDecode(lib, facts)
    ensures !Agree(lib, facts, b, workflow)
  {
    hide Evaluate, BundleDecodes, FactsDecode, EdgeRun;
  }

  // ------------------------------------------------------------------ the condition is exact

  /** A condition that tests a number for being what Python reads it as. */
  function ReadsAs(lib: Lib, n: string, v: Scalar): Condition
    requires HasType(v, NumberType) && Fits(lib, CheckType(Value(v), NumberType).value)
  {
    Condition(n, Eq, One(Float(NumberOf(lib, CheckType(Value(v), NumberType).value))), NumberType)
  }

  lemma EdgeSoloEffective(lib: Lib, c: Condition, facts: map<string, Scalar>, v: Scalar)
    requires c.field in facts && EdgeCheckType(lib, facts[c.field], c.valueType) == Some(v)
    ensures EdgeFactsTyped(lib, facts, SoloWorkflow(c))
    ensures EdgeEffective(lib, facts, SoloWorkflow(c)) == map[c.field := v]
  {
    var w := SoloWorkflow(c);
    assert FactNamed(w.facts, c.field) == Some(w.facts[0]);
    forall n ensures n in FactNames(w) <==> n == c.field { assert w.facts[0] in w.facts; }
    forall n | Declared(w, n) ensures n == c.field {}
  }

  lemma EdgeSoloFails(lib: Lib, c: Condition, facts: map<string, Json>, v: Scalar)
    requires ValidCondition(c) && FactsDecode(lib, facts) && BundleDecodes(lib, SoloBundle(c))
    requires c.field in facts && EdgeCheckType(lib, facts[c.field].v, c.valueType) == Some(v)
    requires EdgeCompare(lib, c, v) == Some(false)
    ensures var view := EdgeView(EdgeCall(lib, facts, SoloBundle(c), "w"));
            view.Seen? && view.verdict.winner == None
  {
    hide ValidCondition, Fits, BundleDecodes, EdgeCall, EdgeFactsTyped, EdgeEffective;
    var p, e := SoloPolicy(c), map[c.field := v];
    SoloValid(c);
    AcceptedNamesUnique(SoloBundle(c));
    EdgeViewIsJudgement(lib, facts, SoloBundle(c), "w");
    EdgeSoloEffective(lib, c, Decoded(facts), v);
    assert WorkflowNamed(SoloBundle(c).workflows, "w") == Some(SoloWorkflow(c));
    assert PoliciesFor(SoloBundle(c).policies, "w") == [p];
    assert forall d :: d in p.conditions ==> d == c;
    assert p.conditions[0] in p.conditions;
    assert SomeIs(lib, p.conditions, e, Some(Fail)) && !SomeIs(lib, p.conditions, e, None);
    assert EdgeVotes(lib, e)(p) == EdgeBallotOf(lib, p, e);
    assert EdgeBallots(lib, [p], e) == {EdgeBallotOf(lib, p, e)} by { assert p in [p]; }
    OneBallot(EdgeBallotOf(lib, p, e));
  }

  lemma SoloDecodes(lib: Lib, c: Condition)
    requires CondValueDecodes(lib, c.value)
    ensures BundleDecodes(lib, SoloBundle(c))
  {
  }

  lemma SoloTyped(c: Condition)
    requires TypedCondition(c)
    ensures TypedValues(SoloBundle(c))
  {
  }

  /** Beyond the range some accepted, typed bundle tells the two evaluators apart. */
  lemma SaturationDiverges(lib: Lib, facts: map<string, Json>, n: string)
    requires Rounds(lib) && FactsDecode(lib, facts) && FloatsAreDoubles(lib, facts)
    requires n in facts && SnakeCase(n) && !InRange(lib, facts[n].v)
    ensures Fits(lib, CheckType(facts[n], NumberType).value)
    ensures var b := SoloBundle(ReadsAs(lib, n, facts[n].v));
            ValidBundle(b) && TypedValues(b) && BundleDecodes(lib, b) && !Agree(lib, facts, b, "w")
  {
    hide Evaluate, EdgeCall, Rounds, FloatsAreDoubles, ValidBundle, TypedValues, BundleDecodes;
    var v := facts[n].v;
    assert IsDouble(lib, v) by { assert FloatsAreDoubles(lib, facts); IsDoubleAt(lib, facts, n); }
    CastsExactlyInRange(lib, v);
    var py := CheckType(Value(v), NumberType).value;
    var edge := EdgeCheckType(lib, v, NumberType).value;
    CastFits(lib, v);
    var c := ReadsAs(lib, n, v);
    SoloValid(c);
    SoloTyped(c);
    SoloDecodes(lib, c);
    SoloDecides(lib, c, facts, py);
    assert Compare(lib, c, py);
    EdgeSoloFails(lib, c, facts, edge);
  }

  lemma IsDoubleAt(lib: Lib, facts: map<string, Json>, n: string)
    requires FloatsAreDoubles(lib, facts) && n in facts && facts[n].Value?
    ensures IsDouble(lib, facts[n].v)
  {
  }

  /** Validation never turns a decoded number into one that overflows. */
  lemma CastFits(lib: Lib, v: Scalar)
    requires Rounds(lib) && HasType(v, NumberType) && Fits(lib, v) && IsDouble(lib, v)
    ensures Fits(lib, CheckType(Value(v), NumberType).value)
    ensures EdgeCheckType(lib, v, NumberType).Some? && Fits(lib, EdgeCheckType(lib, v, NumberType).value)
  {
    match v {
      case Int(i) => if !InI64(i) { CastOf(lib, lib.toDouble(i).value); }
      case Float(r) => if r.Floor as real == r { CastOf(lib, r); }
    }
  }

  ghost predicate PortAgreesOnAccepted(lib: Lib, facts: map<string, Json>) {
    forall b, workflow :: ValidBundle(b) && TypedValues(b) && BundleDecodes(lib, b) ==> Agree(lib, facts, b, workflow)
  }

  const SOME_CONDITION := Condition("n", Eq, One(Bool(true)), BooleanType)

  /** Main result: for given facts the port agrees with the reference on every accepted, typed
      bundle it can decode if and only if the facts decode and every number that can be declared
      is no integer or has its double between -2^63 and 2^63, both included. */
  lemma ConformanceCondition(lib: Lib, facts: map<string, Json>)
    requires Rounds(lib) && FloatsAreDoubles(lib, facts)
    ensures PortAgreesOnAccepted(lib, facts) <==> FactsInRange(lib, facts)
  {
    hide Rounds, FloatsAreDoubles, Agree, ValidBundle, TypedValues, BundleDecodes, CastsExactly;
    FactsCastInRange(lib, facts);
    if FactsInRange(lib, facts) {
      forall b, workflow | ValidBundle(b) && TypedValues(b) && BundleDecodes(lib, b)
        ensures Agree(lib, facts, b, workflow) {
        PortAgrees(lib, facts, b, workflow);
      }
    } else if !FactsDecode(lib, facts) {
      assert Snake("n");
      SoloValid(SOME_CONDITION);
      SoloTyped(SOME_CONDITION);
      SoloDecodes(lib, SOME_CONDITION);
      UndecodableDiverges(lib, facts, SoloBundle(SOME_CONDITION), "w");
    } else {
      var n :| n in facts && SnakeCase(n) && !InRange(lib, facts[n].v);
      SaturationDiverges(lib, facts, n);
    }
  }

  /** 2^63 itself agrees although it is outside i64, ... */
  lemma TwoTo63Agrees(lib: Lib)
    requires Rounds(lib)
    ensures CastsExactly(lib, Int(TWO63)) && CastsExactly(lib, Float(TWO63 as real))
  {
    CastsExactlyInRange(lib, Int(TWO63));
    CastsExactlyInRange(lib, Float(TWO63 as real));
  }

  /** ... and 2^64 saturates: it reads as 2^64 in Python and as 2^63 - 1 in Rust. */
  lemma TwoTo64Saturates(lib: Lib)
    requires Rounds(lib) && lib.toDouble(2 * TWO63) == Some((2 * TWO63) as real)
    ensures !CastsExactly(lib, Int(2 * TWO63)) && !CastsExactly(lib, Float((2 * TWO63) as real))
  {
    CastsExactlyInRange(lib, Int(2 * TWO63));
    CastsExactlyInRange(lib, Float((2 * TWO63) as real));
  }

  // ------------------------------------------------------------------ what the hypotheses exclude

  lemma ComparePanics(lib: Lib, c: Condition, v: Scalar)
    requires ValidCondition(c) && CondValueDecodes(lib, c.value) && HasType(v, c.valueType) && Fits(lib, v)
    ensures EdgeCompare(lib, c, v).None? <==> c.valueType == BooleanType && !TypedCondition(c)
  {
  }

  lemma EdgeEffectiveTyped(lib: Lib, facts: map<string, Json>, w: WorkflowSpec, c: Condition)
    requires Rounds(lib) && FactsDecode(lib, facts) && FloatsAreDoubles(lib, facts)
    requires ValidWorkflow(w) && WorkflowDecodes(lib, w) && ConditionDeclared(c, w)
    requires c.field in EdgeEffective(lib, Decoded(facts), w)
    ensures var v := EdgeEffective(lib, Decoded(facts), w)[c.field]; HasType(v, c.valueType) && Fits(lib, v)
  {
    assert ValidFact(FactNamed(w.facts, c.field).value);
    if c.field in facts && c.valueType == NumberType && HasType(facts[c.field].v, NumberType) {
      CastFits(lib, facts[c.field].v);
    }
  }

  /** On an accepted bundle a policy makes the port panic exactly when a boolean condition
      on a present fact has a value that is not a boolean. The schema admits such values. */
  lemma PanicsExactly(lib: Lib, facts: map<string, Json>, b: Bundle, w: WorkflowSpec, p: Policy)
    requires Rounds(lib) && FactsDecode(lib, facts) && FloatsAreDoubles(lib, facts)
    requires ValidBundle(b) && BundleDecodes(lib, b) && p in b.policies
             && WorkflowNamed(b.workflows, p.workflow) == Some(w)
    ensures var e := EdgeEffective(lib, Decoded(facts), w);
            PolicyPanics(lib, p, e) <==>
            exists c :: c in p.conditions && c.field in e && c.valueType == BooleanType && !TypedCondition(c)
  {
    hide Rounds, FloatsAreDoubles, TypedCondition, EdgeEffective, EdgeCompare;
    var e := EdgeEffective(lib, Decoded(facts), w);
    assert PolicyPlaced(p, b) && ValidPolicy(p) && ValidWorkflow(w) && PolicyDecodes(lib, p) && WorkflowDecodes(lib, w);
    forall c | c in p.conditions
      ensures EdgeOutcomeOf(lib, c, e) == None <==> c.field in e && c.valueType == BooleanType && !TypedCondition(c)
    {
      if c.field in e {
        EdgeEffectiveTyped(lib, facts, w, c);
        ComparePanics(lib, c, e[c.field]);
      }
    }
  }

  const UNTYPED_FLAG: Condition := Condition("n", Eq, One(Int(1)), BooleanType)

  lemma UntypedFlagReached(lib: Lib)
    requires lib.toDouble(1).Some?
    ensures EdgeCall(lib, map["n" := Value(Bool(true))], SoloBundle(UNTYPED_FLAG), "w") == Panicked
  {
    var c, b, facts := UNTYPED_FLAG, SoloBundle(UNTYPED_FLAG), map["n" := Value(Bool(true))];
    var decoded, w, p := Decoded(facts), SoloWorkflow(c), SoloPolicy(c);
    assert decoded == map["n" := Bool(true)];
    assert WorkflowNamed(b.workflows, "w") == Some(w) && FactNamed(w.facts, "n") == Some(w.facts[0]);
    forall n | Declared(w, n) ensures n == "n" {}
    assert EdgeSupplied(lib, decoded, w) == map["n" := Bool(true)];
    assert p.conditions[0] in p.conditions && [p][0] in [p];
    SoloPolicies(c);
    assert PolicyPanics(lib, p, map["n" := Bool(true)]);
  }

  /** A concrete request: an accepted policy compares a flag with the number 1. The port panics on a
      flag that is true; Python decides. */
  lemma UntypedFlagPanics(lib: Lib)
    requires lib.toDouble(1).Some?
    ensures ValidBundle(SoloBundle(UNTYPED_FLAG))
    ensures var facts := map["n" := Value(Bool(true))];
            && EdgeCall(lib, facts, SoloBundle(UNTYPED_FLAG), "w") == Panicked
            && Evaluate(lib, facts, SoloBundle(UNTYPED_FLAG), "w").Ruling?
  {
    hide EdgeCall, ValidBundle, SnakeCase, Evaluate, ValidCondition;
    var b, facts := SoloBundle(UNTYPED_FLAG), map["n" := Value(Bool(true))];
    assert Snake("n");
    SoloValid(UNTYPED_FLAG);
    SoloDecides(lib, UNTYPED_FLAG, facts, Bool(true));
    UntypedFlagReached(lib);
  }

  /** Where every matched policy is overridden, Python stops with an IndexError and Rust
      escalates: only the acyclicity check keeps the two together. */
  lemma StuckFieldsDiverge(lib: Lib, facts: map<string, Json>, b: Bundle, workflow: string, w: WorkflowSpec)
    requires UniqueNames(b) && FactsDecode(lib, facts) && BundleDecodes(lib, b)
    requires WorkflowNamed(b.workflows, workflow) == Some(w)
    requires EdgeFactsTyped(lib, Decoded(facts), w) && FactsTyped(facts, w)
    requires var ps := PoliciesFor(b.policies, workflow); var e := EdgeEffective(lib, Decoded(facts), w);
             && !SomePanics(lib, ps, e)
             && !SomeOverflow(lib, ps, Effective(facts, w))
             && EdgeBallots(lib, ps, e) == Ballots(lib, ps, Effective(facts, w))
    ensures var ballots := Ballots(lib, PoliciesFor(b.policies, workflow), Effective(facts, w));
            Agree(lib, facts, b, workflow) <==> !Stuck(MatchedField(ballots))
  {
    ViewIsJudgement(lib, facts, b, workflow);
    EdgeViewIsJudgement(lib, facts, b, workflow);
  }
}
