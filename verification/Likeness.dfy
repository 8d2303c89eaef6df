/** When two bundles must decide alike. Policies may be reordered, their evidence, rationale
    and sign-off may differ, and numbers may be written as ints or integral floats. */
module Likeness {
  import opened Options
  import opened Schema
  import opened Precedence
  import opened Judgement
  import opened Evaluator

  /** The part of an evaluation result no list order can reach. */
  datatype View = Seen(verdict: Verdict) | NoSuchWorkflow | BadFacts | Undecodable | TooLarge | Crashed

  function ViewOf(r: EvalResult): View {
    match r
    case UnknownWorkflow => NoSuchWorkflow
    case InvalidFacts => BadFacts
    case Overflow => TooLarge
    case Crash => Crashed
    case Ruling(o, t) =>
      Seen(Verdict(o, t.precedence.appliedRules, t.precedence.winner, t.precedence.tieBetween,
                   t.precedence.dominanceBlockedBy))
  }

  /** What agreement of two results says. */
  lemma ViewsAgreeExactly(r: EvalResult, s: EvalResult)
    ensures ViewOf(r) == ViewOf(s) <==>
              || (r.UnknownWorkflow? && s.UnknownWorkflow?) || (r.InvalidFacts? && s.InvalidFacts?)
              || (r.Overflow? && s.Overflow?) || (r.Crash? && s.Crash?)
              || (r.Ruling? && s.Ruling? && r.outcome == s.outcome
                  && r.trace.precedence.appliedRules == s.trace.precedence.appliedRules
                  && r.trace.precedence.winner == s.trace.precedence.winner
                  && r.trace.precedence.tieBetween == s.trace.precedence.tieBetween
                  && r.trace.precedence.dominanceBlockedBy == s.trace.precedence.dominanceBlockedBy)
  {
  }

  /** Python's `==` on scalars: `1 == 1.0 == True`, strings by content. */
  predicate SameValue(a: Scalar, b: Scalar) {
    if a.Text? || b.Text? then a == b else Numeric(a) == Numeric(b)
  }

  function Numeric(v: Scalar): real {
    match v
    case Int(i) => i as real
    case Float(r) => r
    case Bool(b) => if b then 1.0 else 0.0
    case Text(_) => 0.0
  }

  predicate SameValues(xs: seq<Scalar>, ys: seq<Scalar>) {
    |xs| == |ys| && forall i :: 0 <= i < |xs| ==> SameValue(xs[i], ys[i])
  }

  predicate SameCondValue(a: CondValue, b: CondValue) {
    match (a, b)
    case (One(v), One(u)) => SameValue(v, u)
    case (Many(vs), Many(us)) => SameValues(vs, us)
    case _ => false
  }

  predicate AlikeConditions(c: Condition, d: Condition) {
    c.field == d.field && c.op == d.op && c.valueType == d.valueType && SameCondValue(c.value, d.value)
  }

  predicate AlikeConditionLists(cs: seq<Condition>, ds: seq<Condition>) {
    |cs| == |ds| && forall i :: 0 <= i < |cs| ==> AlikeConditions(cs[i], ds[i])
  }

  /** Values of string conditions also print alike: `_norm_str` reads them as text. */
  predicate PrintsAlike(lib: Lib, c: Condition, d: Condition) {
    c.valueType == StringType ==>
      match (c.value, d.value)
      case (One(v), One(u)) => NormOf(lib, v) == NormOf(lib, u)
      case (Many(vs), Many(us)) =>
        |vs| == |us| && forall i :: 0 <= i < |vs| ==> NormOf(lib, vs[i]) == NormOf(lib, us[i])
      case _ => false
  }

  predicate PrintListsAlike(lib: Lib, cs: seq<Condition>, ds: seq<Condition>) {
    |cs| == |ds| && forall i :: 0 <= i < |cs| ==> PrintsAlike(lib, cs[i], ds[i])
  }

  /** Equal in everything the evaluator reads, as Python compares it. */
  predicate AlikePolicies(p: Policy, q: Policy) {
    && p.id == q.id && p.workflow == q.workflow && p.effect == q.effect && p.priority == q.priority
    && p.authority == q.authority && p.overrides == q.overrides
    && AlikeConditionLists(p.conditions, q.conditions)
  }

  predicate AlikeDefaults(a: Option<Scalar>, b: Option<Scalar>) {
    match (a, b)
    case (None, None) => true
    case (Some(v), Some(u)) => SameValue(v, u)
    case _ => false
  }

  predicate AlikeFacts(f: FactSpec, g: FactSpec) {
    f.name == g.name && f.valueType == g.valueType && AlikeDefaults(f.default, g.default)
  }

  predicate AlikeWorkflows(w: WorkflowSpec, v: WorkflowSpec) {
    |w.facts| == |v.facts| && forall i :: 0 <= i < |w.facts| ==> AlikeFacts(w.facts[i], v.facts[i])
  }

  /** No condition of the one policy compares differently from its counterpart. */
  predicate Twins(lib: Lib, p: Policy, q: Policy) {
    AlikePolicies(p, q) && PrintListsAlike(lib, p.conditions, q.conditions)
  }

  ghost predicate EachHasTwin(lib: Lib, ps: seq<Policy>, qs: seq<Policy>) {
    forall p :: p in ps ==> exists q :: q in qs && Twins(lib, p, q)
  }

  ghost predicate EachIsTwin(lib: Lib, ps: seq<Policy>, qs: seq<Policy>) {
    forall q :: q in qs ==> exists p :: p in ps && Twins(lib, p, q)
  }

  ghost predicate AlikePolicySets(lib: Lib, ps: seq<Policy>, qs: seq<Policy>) {
    EachHasTwin(lib, ps, qs) && EachIsTwin(lib, ps, qs)
  }

  /** An integral float converts to the int it equals and back: it is a double. */
  ghost predicate IsDouble(lib: Lib, v: Scalar) {
    v.Float? && v.r.Floor as real == v.r ==> lib.toDouble(v.r.Floor) == Some(v.r)
  }

  ghost predicate ConditionDoubles(lib: Lib, c: Condition) {
    match c.value
    case One(v) => IsDouble(lib, v)
    case Many(vs) => forall v :: v in vs ==> IsDouble(lib, v)
  }

  /** Every float a bundle carries is a double. */
  ghost predicate BundleDoubles(lib: Lib, b: Bundle) {
    && (forall p, c :: p in b.policies && c in p.conditions ==> ConditionDoubles(lib, c))
    && (forall w :: w in b.workflows ==> DefaultDoubles(lib, w))
  }

  lemma SameNumber(lib: Lib, a: Scalar, b: Scalar)
    requires SameValue(a, b) && IsDouble(lib, a) && IsDouble(lib, b)
    requires HasType(a, NumberType) && HasType(b, NumberType)
    ensures Fits(lib, a) <==> Fits(lib, b)
    ensures Fits(lib, a) ==> NumberOf(lib, a) == NumberOf(lib, b)
  {
  }

  lemma OverflowsAlike(lib: Lib, c: Condition, d: Condition, a: Scalar, b: Scalar)
    requires AlikeConditions(c, d) && SameValue(a, b) && Comparable(c, a) && Comparable(d, b)
    requires ConditionDoubles(lib, c) && ConditionDoubles(lib, d) && IsDouble(lib, a) && IsDouble(lib, b)
    ensures Overflows(lib, c, a) <==> Overflows(lib, d, b)
  {
    if c.valueType == NumberType {
      SameNumber(lib, a, b);
      SameNumber(lib, c.value.v, d.value.v);
    }
  }

  lemma ListsPrintAlike(lib: Lib, vs: seq<Scalar>, us: seq<Scalar>, text: string)
    requires |vs| == |us| && forall i :: 0 <= i < |vs| ==> NormOf(lib, vs[i]) == NormOf(lib, us[i])
    ensures (exists v :: v in vs && text == NormOf(lib, v)) <==> (exists u :: u in us && text == NormOf(lib, u))
  {
    if exists v :: v in vs && text == NormOf(lib, v) {
      var v :| v in vs && text == NormOf(lib, v);
      var i :| 0 <= i < |vs| && vs[i] == v;
      assert us[i] in us;
    }
    if exists u :: u in us && text == NormOf(lib, u) {
      var u :| u in us && text == NormOf(lib, u);
      var i :| 0 <= i < |us| && us[i] == u;
      assert vs[i] in vs;
    }
  }

  /** A condition and a fact value may be respelt without changing the comparison, as long as
      the values of string conditions keep their printed form. */
  lemma CompareAlike(lib: Lib, c: Condition, d: Condition, a: Scalar, b: Scalar)
    requires AlikeConditions(c, d) && SameValue(a, b) && Comparable(c, a) && Comparable(d, b)
    requires PrintsAlike(lib, c, d)
    requires ConditionDoubles(lib, c) && ConditionDoubles(lib, d) && IsDouble(lib, a) && IsDouble(lib, b)
    ensures Overflows(lib, c, a) <==> Overflows(lib, d, b)
    ensures !Overflows(lib, c, a) ==> Compare(lib, c, a) == Compare(lib, d, b)
  {
    OverflowsAlike(lib, c, d, a, b);
    match c.valueType {
      case NumberType =>
        SameNumber(lib, a, b);
        SameNumber(lib, c.value.v, d.value.v);
      case BooleanType =>
      case StringType =>
        if c.value.Many? { ListsPrintAlike(lib, c.value.vs, d.value.vs, NormOf(lib, a)); }
    }
  }

  ghost predicate AlikeEffective(lib: Lib, e: map<string, Scalar>, f: map<string, Scalar>) {
    && e.Keys == f.Keys
    && (forall n :: n in e ==> SameValue(e[n], f[n]) && IsDouble(lib, e[n]) && IsDouble(lib, f[n]))
  }

  lemma {:induction false} FactNamedAlike(fs: seq<FactSpec>, gs: seq<FactSpec>, name: string)
    requires |fs| == |gs| && forall i :: 0 <= i < |fs| ==> AlikeFacts(fs[i], gs[i])
    ensures FactNamed(fs, name).Some? <==> FactNamed(gs, name).Some?
    ensures FactNamed(fs, name).Some? ==> AlikeFacts(FactNamed(fs, name).value, FactNamed(gs, name).value)
  {
    if fs != [] && fs[|fs| - 1].name != name {
      FactNamedAlike(fs[..|fs| - 1], gs[..|gs| - 1], name);
    }
  }

  lemma ReadingAlike(lib: Lib, facts: map<string, Json>, w: WorkflowSpec, v: WorkflowSpec, n: string)
    requires AlikeWorkflows(w, v) && DefaultDoubles(lib, w) && DefaultDoubles(lib, v)
    ensures Declared(w, n) <==> Declared(v, n)
    ensures Reading(facts, w, n).Some? <==> Reading(facts, v, n).Some?
    ensures Reading(facts, w, n).Some? ==>
              && SameValue(Reading(facts, w, n).value, Reading(facts, v, n).value)
              && IsDouble(lib, Reading(facts, w, n).value) && IsDouble(lib, Reading(facts, v, n).value)
  {
    FactNamedAlike(w.facts, v.facts, n);
  }

  ghost predicate DefaultDoubles(lib: Lib, w: WorkflowSpec) {
    forall f :: f in w.facts && f.default.Some? ==> IsDouble(lib, f.default.value)
  }

  lemma EffectiveAlike(lib: Lib, facts: map<string, Json>, w: WorkflowSpec, v: WorkflowSpec)
    requires AlikeWorkflows(w, v) && DefaultDoubles(lib, w) && DefaultDoubles(lib, v)
    ensures FactsTyped(facts, w) <==> FactsTyped(facts, v)
    ensures AlikeEffective(lib, Effective(facts, w), Effective(facts, v))
  {
    forall n ensures Declared(w, n) <==> Declared(v, n)
             ensures Reading(facts, w, n).Some? <==> Reading(facts, v, n).Some? { ReadingAlike(lib, facts, w, v, n); }
    var e, f := Effective(facts, w), Effective(facts, v);
    forall n ensures n in e <==> n in f {
      DeclaredIsNamed(w, n);
      DeclaredIsNamed(v, n);
    }
    forall n | n in e ensures SameValue(e[n], f[n]) && IsDouble(lib, e[n]) && IsDouble(lib, f[n]) {
      ReadingAlike(lib, facts, w, v, n);
    }
  }

  lemma OutcomeAlike(lib: Lib, c: Condition, d: Condition, e: map<string, Scalar>, f: map<string, Scalar>)
    requires AlikeConditions(c, d) && AlikeEffective(lib, e, f)
    requires c.field in e ==> Comparable(c, e[c.field])
    requires d.field in f ==> Comparable(d, f[d.field])
    requires PrintsAlike(lib, c, d) && ConditionDoubles(lib, c) && ConditionDoubles(lib, d)
    ensures OutcomeOf(lib, c, e) == OutcomeOf(lib, d, f)
    ensures OverflowsOn(lib, c, e) <==> OverflowsOn(lib, d, f)
  {
    if c.field in e { CompareAlike(lib, c, d, e[c.field], f[d.field]); }
  }

  ghost predicate Clean(lib: Lib, p: Policy, e: map<string, Scalar>) {
    && Ready(p, e)
    && forall c :: c in p.conditions ==> ConditionDoubles(lib, c)
  }

  lemma AnyPointwise(lib: Lib, cs: seq<Condition>, ds: seq<Condition>, e: map<string, Scalar>, f: map<string, Scalar>,
                     o: ConditionOutcome)
    requires |cs| == |ds| && forall i :: 0 <= i < |cs| ==> OutcomeOf(lib, cs[i], e) == OutcomeOf(lib, ds[i], f)
    ensures AnyIs(lib, cs, e, o) <==> AnyIs(lib, ds, f, o)
  {
    if AnyIs(lib, cs, e, o) {
      var c :| c in cs && OutcomeOf(lib, c, e) == o;
      var i :| 0 <= i < |cs| && cs[i] == c;
      assert ds[i] in ds && OutcomeOf(lib, ds[i], f) == o;
    }
    if AnyIs(lib, ds, f, o) {
      var d :| d in ds && OutcomeOf(lib, d, f) == o;
      var i :| 0 <= i < |ds| && ds[i] == d;
      assert cs[i] in cs && OutcomeOf(lib, cs[i], e) == o;
    }
  }

  lemma AnyAlike(lib: Lib, p: Policy, q: Policy, e: map<string, Scalar>, f: map<string, Scalar>, o: ConditionOutcome)
    requires Twins(lib, p, q) && AlikeEffective(lib, e, f) && Clean(lib, p, e) && Clean(lib, q, f)
    ensures AnyIs(lib, p.conditions, e, o) <==> AnyIs(lib, q.conditions, f, o)
  {
    forall i | 0 <= i < |p.conditions|
      ensures OutcomeOf(lib, p.conditions[i], e) == OutcomeOf(lib, q.conditions[i], f)
    {
      assert p.conditions[i] in p.conditions && q.conditions[i] in q.conditions;
      OutcomeAlike(lib, p.conditions[i], q.conditions[i], e, f);
    }
    AnyPointwise(lib, p.conditions, q.conditions, e, f, o);
  }

  lemma OverflowPointwise(lib: Lib, cs: seq<Condition>, ds: seq<Condition>, e: map<string, Scalar>,
                          f: map<string, Scalar>)
    requires |cs| == |ds| && forall i :: 0 <= i < |cs| ==> (OverflowsOn(lib, cs[i], e) <==> OverflowsOn(lib, ds[i], f))
    ensures (exists c :: c in cs && OverflowsOn(lib, c, e)) <==> (exists d :: d in ds && OverflowsOn(lib, d, f))
  {
    hide OverflowsOn;
    if exists c :: c in cs && OverflowsOn(lib, c, e) {
      var c :| c in cs && OverflowsOn(lib, c, e);
      var i :| 0 <= i < |cs| && cs[i] == c;
      assert ds[i] in ds;
    }
    if exists d :: d in ds && OverflowsOn(lib, d, f) {
      var d :| d in ds && OverflowsOn(lib, d, f);
      var i :| 0 <= i < |ds| && ds[i] == d;
      assert cs[i] in cs;
    }
  }

  lemma OverflowTwin(lib: Lib, p: Policy, q: Policy, e: map<string, Scalar>, f: map<string, Scalar>)
    requires Twins(lib, p, q) && AlikeEffective(lib, e, f) && Clean(lib, p, e) && Clean(lib, q, f)
    ensures PolicyOverflows(lib, p, e) <==> PolicyOverflows(lib, q, f)
  {
    hide OverflowsOn, OutcomeOf, AlikeEffective, AlikeConditions, PrintsAlike, ConditionDoubles;
    forall i | 0 <= i < |p.conditions|
      ensures OverflowsOn(lib, p.conditions[i], e) <==> OverflowsOn(lib, q.conditions[i], f)
    {
      assert p.conditions[i] in p.conditions && q.conditions[i] in q.conditions;
      OutcomeAlike(lib, p.conditions[i], q.conditions[i], e, f);
    }
    OverflowPointwise(lib, p.conditions, q.conditions, e, f);
  }

  lemma MissingAlike(lib: Lib, p: Policy, q: Policy, e: map<string, Scalar>, f: map<string, Scalar>)
    requires AlikePolicies(p, q) && e.Keys == f.Keys
    ensures MissingFields(p, e) == MissingFields(q, f)
  {
    forall x | x in MissingFields(p, e) ensures x in MissingFields(q, f) {
      var c :| c in p.conditions && c.field !in e && c.field == x;
      var i :| 0 <= i < |p.conditions| && p.conditions[i] == c;
      assert q.conditions[i] in q.conditions;
    }
    forall x | x in MissingFields(q, f) ensures x in MissingFields(p, e) {
      var c :| c in q.conditions && c.field !in f && c.field == x;
      var i :| 0 <= i < |q.conditions| && q.conditions[i] == c;
      assert p.conditions[i] in p.conditions;
    }
  }

  lemma BallotAlike(lib: Lib, p: Policy, q: Policy, e: map<string, Scalar>, f: map<string, Scalar>)
    requires Twins(lib, p, q) && AlikeEffective(lib, e, f) && Clean(lib, p, e) && Clean(lib, q, f)
    ensures BallotOf(lib, p, e) == BallotOf(lib, q, f)
  {
    AnyAlike(lib, p, q, e, f, Fail);
    AnyAlike(lib, p, q, e, f, Missing);
    MissingAlike(lib, p, q, e, f);
  }

  lemma BallotsHaveTwins(lib: Lib, ps: seq<Policy>, qs: seq<Policy>, e: map<string, Scalar>, f: map<string, Scalar>)
    requires EachHasTwin(lib, ps, qs) && AlikeEffective(lib, e, f)
    requires (forall p :: p in ps ==> Clean(lib, p, e)) && (forall q :: q in qs ==> Clean(lib, q, f))
    ensures Ballots(lib, ps, e) <= Ballots(lib, qs, f)
    ensures SomeOverflow(lib, ps, e) ==> SomeOverflow(lib, qs, f)
  {
    if SomeOverflow(lib, ps, e) {
      var p :| p in ps && PolicyOverflows(lib, p, e);
      var q :| q in qs && Twins(lib, p, q);
      OverflowTwin(lib, p, q, e, f);
    }
    forall b | b in Ballots(lib, ps, e) ensures b in Ballots(lib, qs, f) {
      var p :| p in ps && BallotOf(lib, p, e) == b;
      var q :| q in qs && Twins(lib, p, q);
      BallotAlike(lib, p, q, e, f);
      BallotMember(lib, qs, f, q);
    }
  }

  lemma BallotsAreTwins(lib: Lib, ps: seq<Policy>, qs: seq<Policy>, e: map<string, Scalar>, f: map<string, Scalar>)
    requires EachIsTwin(lib, ps, qs) && AlikeEffective(lib, e, f)
    requires (forall p :: p in ps ==> Clean(lib, p, e)) && (forall q :: q in qs ==> Clean(lib, q, f))
    ensures Ballots(lib, qs, f) <= Ballots(lib, ps, e)
    ensures SomeOverflow(lib, qs, f) ==> SomeOverflow(lib, ps, e)
  {
    if SomeOverflow(lib, qs, f) {
      var q :| q in qs && PolicyOverflows(lib, q, f);
      var p :| p in ps && Twins(lib, p, q);
      OverflowTwin(lib, p, q, e, f);
    }
    forall b | b in Ballots(lib, qs, f) ensures b in Ballots(lib, ps, e) {
      var q :| q in qs && BallotOf(lib, q, f) == b;
      var p :| p in ps && Twins(lib, p, q);
      BallotAlike(lib, p, q, e, f);
      BallotMember(lib, ps, e, p);
    }
  }

  /** An accepted bundle whose floats are doubles. */
  ghost predicate Settled(lib: Lib, b: Bundle) {
    ValidBundle(b) && BundleDoubles(lib, b)
  }

  ghost predicate AlikeFor(lib: Lib, b: Bundle, c: Bundle, workflow: string) {
    var w, v := WorkflowNamed(b.workflows, workflow), WorkflowNamed(c.workflows, workflow);
    && (w.Some? <==> v.Some?) && (w.Some? ==> AlikeWorkflows(w.value, v.value))
    && AlikePolicySets(lib, PoliciesFor(b.policies, workflow), PoliciesFor(c.policies, workflow))
  }

  lemma SettledClean(lib: Lib, facts: map<string, Json>, b: Bundle, workflow: string, p: Policy)
    requires Settled(lib, b) && WorkflowNamed(b.workflows, workflow).Some?
    requires p in PoliciesFor(b.policies, workflow)
    ensures Clean(lib, p, Effective(facts, WorkflowNamed(b.workflows, workflow).value))
  {
    AcceptedPoliciesReady(facts, b, WorkflowNamed(b.workflows, workflow).value, p);
  }

  ghost function Verdicts(ballots: set<Ballot>): View {
    if Stuck(MatchedField(ballots)) then Crashed else Seen(Judge(ballots))
  }

  /** Past the request errors and overflow, the view is a function of the ballots alone. */
  lemma ViewIsJudgement(lib: Lib, facts: map<string, Json>, b: Bundle, workflow: string)
    ensures var w := WorkflowNamed(b.workflows, workflow);
            ViewOf(Evaluate(lib, facts, b, workflow)) ==
            if w.None? then NoSuchWorkflow
            else if !FactsTyped(facts, w.value) then BadFacts
            else if SomeOverflow(lib, PoliciesFor(b.policies, workflow), Effective(facts, w.value)) then TooLarge
            else Verdicts(Ballots(lib, PoliciesFor(b.policies, workflow), Effective(facts, w.value)))
  {
    hide SomeOverflow, PoliciesFor, Ballots, MatchedField, Stuck, Effective, Judge, Evaluations, FactsTyped;
  }

  lemma AlikeBallots(lib: Lib, facts: map<string, Json>, b: Bundle, c: Bundle, workflow: string)
    requires Settled(lib, b) && Settled(lib, c) && AlikeFor(lib, b, c, workflow)
    requires WorkflowNamed(b.workflows, workflow).Some?
    ensures var w, v := WorkflowNamed(b.workflows, workflow).value, WorkflowNamed(c.workflows, workflow).value;
            && (FactsTyped(facts, w) <==> FactsTyped(facts, v))
            && (SomeOverflow(lib, PoliciesFor(b.policies, workflow), Effective(facts, w)) <==>
                SomeOverflow(lib, PoliciesFor(c.policies, workflow), Effective(facts, v)))
            && Ballots(lib, PoliciesFor(b.policies, workflow), Effective(facts, w))
               == Ballots(lib, PoliciesFor(c.policies, workflow), Effective(facts, v))
  {
    hide ValidBundle, FactsTyped, PoliciesFor, Ballots, Effective;
    var w, v := WorkflowNamed(b.workflows, workflow).value, WorkflowNamed(c.workflows, workflow).value;
    EffectiveAlike(lib, facts, w, v);
    var e, f := Effective(facts, w), Effective(facts, v);
    var ps, qs := PoliciesFor(b.policies, workflow), PoliciesFor(c.policies, workflow);
    forall p | p in ps ensures Clean(lib, p, e) { SettledClean(lib, facts, b, workflow, p); }
    forall q | q in qs ensures Clean(lib, q, f) { SettledClean(lib, facts, c, workflow, q); }
    BallotsHaveTwins(lib, ps, qs, e, f);
    BallotsAreTwins(lib, ps, qs, e, f);
  }

  /** Main result: alike bundles give the same verdict or the same error. */
  lemma AlikeBundlesAgree(lib: Lib, facts: map<string, Json>, b: Bundle, c: Bundle, workflow: string)
    requires Settled(lib, b) && Settled(lib, c) && AlikeFor(lib, b, c, workflow)
    ensures ViewOf(Evaluate(lib, facts, b, workflow)) == ViewOf(Evaluate(lib, facts, c, workflow))
  {
    ViewIsJudgement(lib, facts, b, workflow);
    ViewIsJudgement(lib, facts, c, workflow);
    if WorkflowNamed(b.workflows, workflow).Some? {
      AlikeBallots(lib, facts, b, c, workflow);
    }
  }

  // ------------------------------------------------------------------ typed strings

  /** What the schema leaves unchecked and Python's `==` cannot see: values of string
      conditions are strings. */
  predicate TypedStrings(b: Bundle) {
    forall p, c :: p in b.policies && c in p.conditions && c.valueType == StringType ==> TypedCondition(c)
  }

  lemma TypedPrintAlike(lib: Lib, c: Condition, d: Condition)
    requires AlikeConditions(c, d) && (c.valueType == StringType ==> TypedCondition(c))
    ensures PrintsAlike(lib, c, d)
  {
    if c.valueType == StringType && c.value.Many? {
      forall i | 0 <= i < |c.value.vs| ensures NormOf(lib, c.value.vs[i]) == NormOf(lib, d.value.vs[i]) {
        assert c.value.vs[i] in c.value.vs && SameValue(c.value.vs[i], d.value.vs[i]);
      }
    }
  }

  lemma TypedTwins(lib: Lib, b: Bundle, p: Policy, q: Policy)
    requires TypedStrings(b) && p in b.policies && AlikePolicies(p, q)
    ensures Twins(lib, p, q) && Twins(lib, q, p)
  {
    forall i | 0 <= i < |p.conditions|
      ensures PrintsAlike(lib, p.conditions[i], q.conditions[i]) && PrintsAlike(lib, q.conditions[i], p.conditions[i])
    {
      assert p.conditions[i] in p.conditions;
      TypedPrintAlike(lib, p.conditions[i], q.conditions[i]);
    }
  }
}
