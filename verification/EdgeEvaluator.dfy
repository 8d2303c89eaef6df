/** The Rust edge evaluator (edge-evaluator/src/eval.rs). It takes any deserialised bundle,
    so its panics and its fall-through on an all-overridden field are part of the model. */
module EdgeEvaluator {
  import opened Options
  import opened Text
  import opened Schema
  import opened Precedence
  import opened Selection
  import opened Judgement
  import opened Tally
  import opened Evaluator

  datatype EdgeResult = Decided(verdict: Verdict) | EdgeUnknownWorkflow | EdgeInvalidFacts | BadRequest | Panicked

  const TWO63: int := 0x8000_0000_0000_0000

  predicate InI64(i: int) {
    -TWO63 <= i < TWO63
  }

  /** `f as i64`: saturating. */
  function Saturate(n: int): int {
    if n < -TWO63 then -TWO63 else if n >= TWO63 then TWO63 - 1 else n
  }

  /** `as_number` on the decoded scalar: an integer is read as a double whether it fits
      i64 or was decoded as f64. */
  function EdgeNumber(lib: Lib, v: Scalar): Option<real> {
    match v
    case Int(i) => lib.toDouble(i)
    case Float(r) => Some(r)
    case _ => None
  }

  function EdgeBool(v: Scalar): Option<bool> {
    if v.Bool? then Some(v.b) else None
  }

  function EdgeNorm(lib: Lib, v: Scalar): string {
    if v.Text? then lib.norm(v.s) else lib.edgeShow(v)
  }

  /** `check_type` on a decoded fact; a JSON integer outside i64 arrives as the f64 nearest
      to it. None is InvalidFacts. */
  function EdgeCheckType(lib: Lib, v: Scalar, t: ValueType): Option<Scalar> {
    match t
    case NumberType =>
      (match v
       case Int(i) =>
         if InI64(i) then Some(v)
         else if lib.toDouble(i).Some? then Some(CastFloat(lib.toDouble(i).value))
         else None
       case Float(r) => Some(CastFloat(r))
       case _ => None)
    case _ => if HasType(v, t) then Some(v) else None
  }

  function CastFloat(r: real): Scalar {
    if r.Floor as real == r then Int(Saturate(r.Floor)) else Float(r)
  }

  /** `compare`; None is a panic (`expect` or `unreachable!`). */
  function EdgeCompare(lib: Lib, c: Condition, actual: Scalar): Option<bool> {
    match c.valueType
    case NumberType =>
      var a := EdgeNumber(lib, actual);
      var e := if c.value.One? then EdgeNumber(lib, c.value.v) else None;
      if a.None? || e.None? then None else
      (match c.op
       case Gt => Some(a.value > e.value)
       case Gte => Some(a.value >= e.value)
       case Lt => Some(a.value < e.value)
       case Lte => Some(a.value <= e.value)
       case Eq => Some(a.value == e.value)
       case Neq => Some(a.value != e.value)
       case _ => None)
    case StringType =>
      var a := EdgeNorm(lib, actual);
      (match (c.op, c.value)
       case (Eq, One(s)) => Some(a == EdgeNorm(lib, s))
       case (Neq, One(s)) => Some(a != EdgeNorm(lib, s))
       case (In, Many(vs)) => Some(exists v :: v in vs && EdgeNorm(lib, v) == a)
       case (NotIn, Many(vs)) => Some(!exists v :: v in vs && EdgeNorm(lib, v) == a)
       case _ => None)
    case BooleanType =>
      var a := EdgeBool(actual);
      var e := if c.value.One? then EdgeBool(c.value.v) else None;
      if a.None? || e.None? then None else Some(a.value == e.value)
  }

  predicate ReadsAsNumber(lib: Lib, v: Scalar) {
    v.Float? || (v.Int? && lib.toDouble(v.i).Some?)
  }

  /** When a comparison panics, on any condition and value, accepted or not. */
  lemma PanicsOnExactly(lib: Lib, c: Condition, actual: Scalar)
    ensures EdgeCompare(lib, c, actual) == None <==>
              match c.valueType
              case NumberType =>
                !ReadsAsNumber(lib, actual) || c.value.Many? || !ReadsAsNumber(lib, c.value.v) || c.op in {In, NotIn}
              case StringType => (c.value.One? && c.op !in {Eq, Neq}) || (c.value.Many? && c.op !in {In, NotIn})
              case BooleanType => !actual.Bool? || c.value.Many? || !c.value.v.Bool?
  {
    match c.op {
      case Gt =>
      case Gte =>
      case Lt =>
      case Lte =>
      case Eq =>
      case Neq =>
      case In =>
      case NotIn =>
    }
  }

  /** The cast keeps every i64 and moves anything beyond to the nearer end: 2^63 - 1 or -2^63. */
  lemma SaturateExactly(n: int)
    ensures InI64(n) <==> -9223372036854775808 <= n <= 9223372036854775807
    ensures InI64(Saturate(n))
    ensures -9223372036854775808 <= n <= 9223372036854775807 <==> Saturate(n) == n
    ensures n > 9223372036854775807 ==> Saturate(n) == 9223372036854775807
    ensures n < -9223372036854775808 ==> Saturate(n) == -9223372036854775808
  {
  }

  // ------------------------------------------------------------------ decoding

  /** serde decodes every number inside the double range. */
  predicate CondValueDecodes(lib: Lib, v: CondValue) {
    match v
    case One(s) => Fits(lib, s)
    case Many(ss) => forall s :: s in ss ==> Fits(lib, s)
  }

  predicate PolicyDecodes(lib: Lib, p: Policy) {
    InI64(p.priority) && forall c :: c in p.conditions ==> CondValueDecodes(lib, c.value)
  }

  predicate WorkflowDecodes(lib: Lib, w: WorkflowSpec) {
    forall f :: f in w.facts && f.default.Some? ==> Fits(lib, f.default.value)
  }

  predicate BundleDecodes(lib: Lib, b: Bundle) {
    (forall p :: p in b.policies ==> PolicyDecodes(lib, p))
        && (forall w :: w in b.workflows ==> WorkflowDecodes(lib, w))
  }

  /** Facts must all be scalars, declared or not. */
  predicate FactsDecode(lib: Lib, facts: map<string, Json>) {
    forall n :: n in facts ==> facts[n].Value? && Fits(lib, facts[n].v)
  }

  function Decoded(facts: map<string, Json>): map<string, Scalar>
    requires forall n :: n in facts ==> facts[n].Value?
  {
    map n | n in facts :: facts[n].v
  }

  // ------------------------------------------------------------------ facts

  function EdgeReading(lib: Lib, facts: map<string, Scalar>, w: WorkflowSpec, name: string): Option<Scalar> {
    var spec := FactNamed(w.facts, name);
    if spec.None? then None
    else if name in facts then EdgeCheckType(lib, facts[name], spec.value.valueType)
    else spec.value.default
  }

  ghost predicate EdgeFactsTyped(lib: Lib, facts: map<string, Scalar>, w: WorkflowSpec) {
    forall name :: name in facts && Declared(w, name) ==> EdgeReading(lib, facts, w, name).Some?
  }

  ghost function EdgeEffective(lib: Lib, facts: map<string, Scalar>, w: WorkflowSpec): map<string, Scalar> {
    map name | name in FactNames(w) && EdgeReading(lib, facts, w, name).Some? :: EdgeReading(lib, facts, w, name).value
  }

  ghost function EdgeSupplied(lib: Lib, facts: map<string, Scalar>, w: WorkflowSpec): map<string, Scalar> {
    map name | name in facts && Declared(w, name) && EdgeReading(lib, facts, w, name).Some? ::
        EdgeReading(lib, facts, w, name).value
  }

  /** The validation loop over the supplied facts, in any HashMap order. */
  method EdgeCheckSupplied(lib: Lib, facts: map<string, Scalar>, w: WorkflowSpec)
    returns (ok: bool, effective: map<string, Scalar>)
    ensures ok <==> EdgeFactsTyped(lib, facts, w)
    ensures ok ==> effective == EdgeSupplied(lib, facts, w)
  {
    effective := map[];
    var todo := facts.Keys;
    while todo != {}
      invariant todo <= facts.Keys
      invariant forall name :: name in facts && name !in todo && Declared(w, name)
                               ==> EdgeReading(lib, facts, w, name).Some?
      invariant forall name :: name in effective <==> name in facts && name !in todo && Declared(w, name)
      invariant forall name :: name in effective ==> Some(effective[name]) == EdgeReading(lib, facts, w, name)
      decreases todo
    {
      var name :| name in todo;
      todo := todo - {name};
      var spec := FactNamed(w.facts, name);
      if spec.Some? {
        var checked := EdgeCheckType(lib, facts[name], spec.value.valueType);
        if checked.None? { return false, map[]; }
        effective := effective[name := checked.value];
      }
    }
    ok := true;
  }

  /** The facts after the defaults loop: the first default of a name that is not present. */
  function WithDefaults(supplied: map<string, Scalar>, facts: seq<FactSpec>): map<string, Scalar> {
    if facts == [] then supplied else
    var front, f := WithDefaults(supplied, facts[..|facts| - 1]), facts[|facts| - 1];
    if f.name !in front && f.default.Some? then front[f.name := f.default.value] else front
  }

  /** The loop that inserts defaults for facts not yet present. */
  method EdgeInsertDefaults(w: WorkflowSpec, supplied: map<string, Scalar>) returns (effective: map<string, Scalar>)
    ensures effective == WithDefaults(supplied, w.facts)
  {
    effective := supplied;
    for i := 0 to |w.facts|
      invariant effective == WithDefaults(supplied, w.facts[..i])
    {
      var f := w.facts[i];
      assert w.facts[..i + 1][..i] == w.facts[..i];
      if f.name !in effective && f.default.Some? {
        effective := effective[f.name := f.default.value];
      }
    }
    assert w.facts[..|w.facts|] == w.facts;
  }

  lemma {:induction false} DefaultsUpTo(lib: Lib, facts: map<string, Scalar>, w: WorkflowSpec, i: nat)
    requires UniqueFacts(w) && EdgeFactsTyped(lib, facts, w) && i <= |w.facts|
    ensures var supplied := EdgeSupplied(lib, facts, w); var e := WithDefaults(supplied, w.facts[..i]);
            && (forall n :: n in e <==> n in supplied ||
                                        (n in NamesUpTo(w, i) && n !in facts && EdgeReading(lib, facts, w, n).Some?))
            && (forall n :: n in e ==> Some(e[n]) == EdgeReading(lib, facts, w, n))
  {
    hide UniqueFacts, FactNamed;
    if i > 0 {
      DefaultsUpTo(lib, facts, w, i - 1);
      NamedUniquely(w, i - 1);
      NamesStep(w, i - 1);
      assert w.facts[..i][..i - 1] == w.facts[..i - 1];
    }
  }

  /** When fact names are unique, every declared fact reads as the supplied value or else its default. */
  lemma DefaultsAreEffective(lib: Lib, facts: map<string, Scalar>, w: WorkflowSpec)
    requires UniqueFacts(w) && EdgeFactsTyped(lib, facts, w)
    ensures WithDefaults(EdgeSupplied(lib, facts, w), w.facts) == EdgeEffective(lib, facts, w)
  {
    DefaultsUpTo(lib, facts, w, |w.facts|);
    assert w.facts[..|w.facts|] == w.facts;
    NamesAll(w);
  }

  /** Some fact before position `n` has the name and a default. */
  predicate DefaultedBy(facts: seq<FactSpec>, n: nat, name: string)
    requires n <= |facts|
  {
    exists k :: 0 <= k < n && facts[k].name == name && facts[k].default.Some?
  }

  /** Where names repeat, supplied values stand and the first default of a name wins. */
  lemma {:induction false} FirstDefaultWins(supplied: map<string, Scalar>, facts: seq<FactSpec>, i: nat)
    requires i < |facts| && facts[i].default.Some?
    ensures var e := WithDefaults(supplied, facts);
            && (forall n :: n in supplied ==> n in e && e[n] == supplied[n])
            && (facts[i].name !in supplied && !DefaultedBy(facts, i, facts[i].name) ==>
                  facts[i].name in e && e[facts[i].name] == facts[i].default.value)
            && (forall n :: n in e && n !in supplied ==> DefaultedBy(facts, |facts|, n))
  {
    WithDefaultsKeeps(supplied, facts);
    var front := facts[..|facts| - 1];
    if i < |front| {
      FirstDefaultWins(supplied, front, i);
      assert facts[i] == front[i];
      if DefaultedBy(front, i, facts[i].name) {
        var k :| 0 <= k < i && front[k].name == facts[i].name && front[k].default.Some?;
        assert facts[k] == front[k];
      }
    } else {
      WithDefaultsKeeps(supplied, front);
      if facts[i].name in WithDefaults(supplied, front) && facts[i].name !in supplied {
        var k :| 0 <= k < |front| && front[k].name == facts[i].name && front[k].default.Some?;
        assert facts[k] == front[k] && DefaultedBy(facts, i, facts[i].name);
      }
    }
  }

  lemma {:induction false} WithDefaultsKeeps(supplied: map<string, Scalar>, facts: seq<FactSpec>)
    ensures var e := WithDefaults(supplied, facts);
            && (forall n :: n in supplied ==> n in e && e[n] == supplied[n])
            && (forall n :: n in e && n !in supplied ==> DefaultedBy(facts, |facts|, n))
  {
    if facts != [] {
      var front := facts[..|facts| - 1];
      WithDefaultsKeeps(supplied, front);
      forall n | n in WithDefaults(supplied, facts) && n !in supplied ensures DefaultedBy(facts, |facts|, n) {
        if n in WithDefaults(supplied, front) {
          var k :| 0 <= k < |front| && front[k].name == n && front[k].default.Some?;
          assert facts[k] == front[k];
        } else {
          assert facts[|facts| - 1].name == n;
        }
      }
    }
  }

  // ------------------------------------------------------------------ policies

  function EdgeOutcomeOf(lib: Lib, c: Condition, facts: map<string, Scalar>): Option<ConditionOutcome> {
    if c.field !in facts then Some(Missing)
    else match EdgeCompare(lib, c, facts[c.field])
      case None => None
      case Some(passed) => Some(if passed then Pass else Fail)
  }

  ghost predicate SomeIs(lib: Lib, cs: seq<Condition>, facts: map<string, Scalar>, o: Option<ConditionOutcome>) {
    exists c :: c in cs && EdgeOutcomeOf(lib, c, facts) == o
  }

  ghost predicate PolicyPanics(lib: Lib, p: Policy, facts: map<string, Scalar>) {
    SomeIs(lib, p.conditions, facts, None)
  }

  ghost predicate SomePanics(lib: Lib, ps: seq<Policy>, facts: map<string, Scalar>) {
    exists p :: p in ps && PolicyPanics(lib, p, facts)
  }

  ghost function EdgeStatusOf(lib: Lib, p: Policy, facts: map<string, Scalar>): PolicyStatus {
    if SomeIs(lib, p.conditions, facts, Some(Fail)) then Failed
    else if SomeIs(lib, p.conditions, facts, Some(Missing)) then Undeterminable
    else Matched
  }

  ghost function EdgeBallotOf(lib: Lib, p: Policy, facts: map<string, Scalar>): Ballot {
    Ballot(AsContender(p), EdgeStatusOf(lib, p, facts), MissingFields(p, facts), p.effect, p.authority)
  }

  ghost function EdgeVotes(lib: Lib, facts: map<string, Scalar>): (vote: Voter)
    ensures Honest(vote)
  {
    (p: Policy) => EdgeBallotOf(lib, p, facts)
  }

  ghost function EdgeBallots(lib: Lib, ps: seq<Policy>, facts: map<string, Scalar>): set<Ballot> {
    Cast(EdgeVotes(lib, facts), ps)
  }

  /** `PolicyEval` */
  datatype EdgeEval = EdgeEval(policy: Policy, status: PolicyStatus, missingFields: seq<string>)

  ghost function EdgeEvalOf(lib: Lib, p: Policy, facts: map<string, Scalar>): EdgeEval {
    EdgeEval(p, EdgeStatusOf(lib, p, facts), SortedSet(MissingFields(p, facts)))
  }

  /** `evaluate_policy`; None is a panic. */
  method EdgeEvaluatePolicy(lib: Lib, p: Policy, facts: map<string, Scalar>) returns (e: Option<EdgeEval>)
    ensures e.None? <==> PolicyPanics(lib, p, facts)
    ensures e.Some? ==> e.value == EdgeEvalOf(lib, p, facts)
  {
    var missing: seq<string>, anyFail := [], false;
    for i := 0 to |p.conditions|
      invariant !SomeIs(lib, p.conditions[..i], facts, None)
      invariant anyFail <==> SomeIs(lib, p.conditions[..i], facts, Some(Fail))
      invariant missing != [] <==> SomeIs(lib, p.conditions[..i], facts, Some(Missing))
      invariant forall x :: x in missing <==> exists c :: c in p.conditions[..i] && c.field !in facts && c.field == x
    {
      var cond := p.conditions[i];
      assert p.conditions[..i + 1] == p.conditions[..i] + [cond];
      OneMoreCondition(lib, p.conditions[..i], cond, facts);
      if cond.field !in facts {
        missing := missing + [cond.field];
      } else {
        var passed := EdgeCompare(lib, cond, facts[cond.field]);
        if passed.None? {
          assert cond in p.conditions;
          return None;
        }
        if !passed.value { anyFail := true; }
      }
    }
    assert p.conditions[..|p.conditions|] == p.conditions;
    SortedUniqueIsSortedSet(missing, MissingFields(p, facts));
    var status := if anyFail then Failed else if missing != [] then Undeterminable else Matched;
    e := Some(EdgeEval(p, status, SortedUnique(missing)));
  }

  lemma OneMoreCondition(lib: Lib, cs: seq<Condition>, c: Condition, facts: map<string, Scalar>)
    ensures forall o :: SomeIs(lib, cs + [c], facts, o)
                        <==> SomeIs(lib, cs, facts, o) || EdgeOutcomeOf(lib, c, facts) == o
  {
    assert forall d :: d in cs + [c] <==> d in cs || d == c;
  }

  // ------------------------------------------------------------------ select_winner

  /** The HashSet of overridden ids. */
  method EdgeOverridden(matched: seq<Policy>, matchedIds: set<string>) returns (overridden: set<string>)
    ensures forall t :: t in overridden <==> t in matchedIds && exists q :: q in matched && t in q.overrides
  {
    overridden := {};
    for i := 0 to |matched|
      invariant forall t :: t in overridden <==> t in matchedIds && exists q :: q in matched[..i] && t in q.overrides
    {
      var p := matched[i];
      assert matched[..i + 1] == matched[..i] + [p];
      ghost var before := overridden;
      for j := 0 to |p.overrides|
        invariant forall t :: t in overridden <==> t in before || (t in matchedIds && t in p.overrides[..j])
      {
        assert p.overrides[..j + 1] == p.overrides[..j] + [p.overrides[j]];
        if p.overrides[j] in matchedIds { overridden := overridden + {p.overrides[j]}; }
      }
      assert p.overrides[..|p.overrides|] == p.overrides;
    }
    assert matched[..|matched|] == matched;
  }

  ghost function OverriddenIds(ps: seq<Policy>): set<string> {
    set p | p in ps && (exists q :: q in ps && p.id in q.overrides) :: p.id
  }

  /** `retain(|p| !overridden.contains(&p.id))` */
  ghost function Unoverridden(ps: seq<Policy>): seq<Policy> {
    Among(ps, IdsOf(ps) - OverriddenIds(ps))
  }

  function KeepAt(ps: seq<Policy>, key: Policy -> int, top: int): (r: seq<Policy>)
    ensures forall p :: p in r <==> p in ps && key(p) == top
  {
    if ps == [] then [] else
    assert forall p :: p in ps <==> p == ps[0] || p in ps[1..];
    (if key(ps[0]) == top then [ps[0]] else []) + KeepAt(ps[1..], key, top)
  }

  /** `retain(|p| key(p) == top)` */
  ghost function TopSeq(ps: seq<Policy>, key: Policy -> int): seq<Policy> {
    if |ps| <= 1 then ps else KeepAt(ps, key, Greatest(Keys(ps, key)))
  }

  ghost function Survivors(ps: seq<Policy>): seq<Policy> {
    TopSeq(TopSeq(Unoverridden(ps), SpecificityOf), PriorityOf)
  }

  ghost function RuleUnless(same: bool, rule: Rule): seq<Rule> {
    if same then [] else [rule]
  }

  ghost function StageRules(ps: seq<Policy>): seq<Rule> {
    var s1 := Unoverridden(ps);
    var s2 := TopSeq(s1, SpecificityOf);
    RuleUnless(OverriddenIds(ps) == {}, OverridesRule) + RuleUnless(s2 == s1, SpecificityRule)
    + RuleUnless(Survivors(ps) == s2, PriorityRule)
  }

  /** What `select_winner` returns: winner, applied rules, sorted tie. */
  datatype Pick = Pick(winner: Option<Policy>, rules: seq<Rule>, tie: seq<string>)

  ghost function PickOf(matched: seq<Policy>): Pick {
    if matched == [] then Pick(None, [], []) else
    var s, rules := Survivors(matched), StageRules(matched);
    if |s| > 1 then Pick(None, rules, SortAll(PolicyIds(s)))
    else if |s| == 1 then Pick(Some(s[0]), if rules == [] then [SingleMatchRule] else rules, [])
    else Pick(None, rules, [])
  }

  /** `Vec::sort` on strings: repeats stay. */
  function InsertSorted(x: string, xs: seq<string>): seq<string> {
    if xs == [] || x == xs[0] || Less(x, xs[0]) then [x] + xs else [xs[0]] + InsertSorted(x, xs[1..])
  }

  function SortAll(xs: seq<string>): seq<string> {
    if xs == [] then [] else InsertSorted(xs[0], SortAll(xs[1..]))
  }

  lemma {:induction false} InsertKeeps(x: string, xs: seq<string>)
    ensures multiset(InsertSorted(x, xs)) == multiset(xs) + multiset{x}
  {
    hide Less;
    if xs != [] {
      assert xs == [xs[0]] + xs[1..];
      if x != xs[0] && !Less(x, xs[0]) { InsertKeeps(x, xs[1..]); }
    }
  }

  lemma InsertedFrom(x: string, xs: seq<string>, y: string)
    requires y in InsertSorted(x, xs)
    ensures y == x || y in xs
  {
    InsertKeeps(x, xs);
    assert y in multiset(InsertSorted(x, xs));
  }

  predicate NoneBeforeSmaller(xs: seq<string>) {
    forall i, j :: 0 <= i < j < |xs| ==> !Less(xs[j], xs[i])
  }

  lemma ConsSorts(x: string, xs: seq<string>)
    requires NoneBeforeSmaller(xs) && forall y :: y in xs ==> !Less(y, x)
    ensures NoneBeforeSmaller([x] + xs)
  {
    hide Less;
    var r := [x] + xs;
    forall i, j | 0 <= i < j < |r| ensures !Less(r[j], r[i]) {
      if i > 0 { assert r[i] == xs[i - 1] && r[j] == xs[j - 1]; } else { assert r[j] in xs; }
    }
  }

  lemma HeadIsLeast(x: string, xs: seq<string>, y: string)
    requires NoneBeforeSmaller(xs) && xs != [] && (x == xs[0] || Less(x, xs[0])) && y in xs
    ensures !Less(y, x)
  {
    hide Less;
    var j :| 0 <= j < |xs| && xs[j] == y;
    LessIrreflexive(xs[0]);
    if Less(y, x) && Less(x, xs[0]) { LessTransitive(y, x, xs[0]); }
  }

  lemma {:induction false} InsertSorts(x: string, xs: seq<string>)
    requires NoneBeforeSmaller(xs)
    ensures NoneBeforeSmaller(InsertSorted(x, xs))
  {
    if xs != [] {
      var rest := xs[1..];
      assert xs == [xs[0]] + rest && NoneBeforeSmaller(rest);
      if x == xs[0] || Less(x, xs[0]) {
        forall y | y in xs ensures !Less(y, x) { HeadIsLeast(x, xs, y); }
        hide Less, NoneBeforeSmaller;
        ConsSorts(x, xs);
      } else {
        InsertSorts(x, rest);
        forall y | y in InsertSorted(x, rest) ensures !Less(y, xs[0]) { InsertedFrom(x, rest, y); }
        hide Less, NoneBeforeSmaller;
        ConsSorts(xs[0], InsertSorted(x, rest));
      }
    }
  }

  /** A sort: nothing is lost or added, and nothing stands before something smaller. */
  lemma {:induction false} SortAllSorts(xs: seq<string>)
    ensures multiset(SortAll(xs)) == multiset(xs)
    ensures forall i, j :: 0 <= i < j < |SortAll(xs)| ==> !Less(SortAll(xs)[j], SortAll(xs)[i])
  {
    hide Less;
    if xs != [] {
      SortAllSorts(xs[1..]);
      InsertKeeps(xs[0], SortAll(xs[1..]));
      InsertSorts(xs[0], SortAll(xs[1..]));
      assert xs == [xs[0]] + xs[1..];
    }
  }

  method RetainStanding(matched: seq<Policy>) returns (survivors: seq<Policy>, applied: seq<Rule>)
    ensures survivors == Unoverridden(matched)
    ensures applied == RuleUnless(OverriddenIds(matched) == {}, OverridesRule)
  {
    var ids := IdsOf(matched);
    var overridden := EdgeOverridden(matched, ids);
    assert overridden == OverriddenIds(matched);
    survivors := if overridden != {} then Among(matched, ids - overridden) else matched;
    assert overridden == {} ==> ids - overridden == ids;
    if overridden == {} { AmongAll(matched, ids); }
    applied := if overridden != {} then [OverridesRule] else [];
  }

  /** `survivors.retain(|p| key(p) == top)` when somebody is below the top. */
  method RetainTop(survivors: seq<Policy>, key: Policy -> int, rule: Rule)
    returns (kept: seq<Policy>, applied: seq<Rule>)
    ensures kept == TopSeq(survivors, key) && applied == RuleUnless(kept == survivors, rule)
  {
    if |survivors| > 1 {
      var top := Greatest(Keys(survivors, key));
      KeysTop(survivors, key, top);
      if exists p :: p in survivors && key(p) < top {
        ghost var p :| p in survivors && key(p) < top;
        kept := KeepAt(survivors, key, top);
        assert p !in kept;
        return kept, [rule];
      }
      KeepAll(survivors, key, top);
    }
    kept, applied := survivors, [];
  }

  lemma {:induction false} KeepAll(ps: seq<Policy>, key: Policy -> int, top: int)
    requires forall p :: p in ps ==> key(p) == top
    ensures KeepAt(ps, key, top) == ps
  {
    if ps != [] {
      assert ps[0] in ps && forall p :: p in ps[1..] ==> p in ps;
      KeepAll(ps[1..], key, top);
      assert ps == [ps[0]] + ps[1..];
    }
  }

  /** `select_winner`, for any list of matched policies. An all-overridden one yields no
      winner instead of an index error. */
  method EdgeSelectWinner(matched: seq<Policy>) returns (pick: Pick)
    ensures pick == PickOf(matched)
    ensures DistinctIds(matched) ==> PicksFinalists(matched, pick)
  {
    if DistinctIds(matched) { PickSelects(matched); }
    if matched == [] { return Pick(None, [], []); }
    var survivors, rule1, rule2, rule3;
    survivors, rule1 := RetainStanding(matched);
    survivors, rule2 := RetainTop(survivors, SpecificityOf, SpecificityRule);
    survivors, rule3 := RetainTop(survivors, PriorityOf, PriorityRule);
    var rules := rule1 + rule2 + rule3;
    if |survivors| > 1 { return Pick(None, rules, SortAll(PolicyIds(survivors))); }
    if |survivors| == 1 && rules == [] { rules := [SingleMatchRule]; }
    pick := Pick(if survivors != [] then Some(survivors[0]) else None, rules, []);
  }

  // ------------------------------------------------------------------ select_winner on sets

  /** With distinct ids, what is picked depends on the set of matched policies alone. */
  ghost predicate PicksFinalists(matched: seq<Policy>, pick: Pick) {
    && pick.rules == RulesOf(Field(matched))
    && (pick.tie != [] ==> pick.winner == None && Selects(matched, Tie(pick.tie)))
    && (pick.winner.Some? ==> pick.tie == [] && Selects(matched, Winner(pick.winner.value)))
    && (pick.winner.None? && pick.tie == [] ==> Selects(matched, Nobody) || Selects(matched, IndexError))
  }

  lemma OverriddenAreMapped(ps: seq<Policy>)
    ensures OverriddenIds(ps) == OverrideMap(ps, IdsOf(ps)).Keys
  {
    OverrideMapMeaning(ps, IdsOf(ps));
  }

  lemma UnoverriddenStand(ps: seq<Policy>)
    requires DistinctIds(ps)
    ensures Unoverridden(ps) == StandingSeq(ps) && DistinctIds(Unoverridden(ps))
    ensures Field(Unoverridden(ps)) == Standing(Field(ps))
    ensures RuleUnless(OverriddenIds(ps) == {}, OverridesRule) == RuleIf(Field(ps), Standing(Field(ps)), OverridesRule)
  {
    hide DistinctIds, Field, Standing, Ids, OverrideMap, OverriddenIds, Among;
    StandingStage(ps);
    StandingIds(ps);
    OverriddenAreMapped(ps);
    AmongSame(ps, IdsOf(ps) - OverriddenIds(ps), Ids(Standing(Field(ps))));
  }

  lemma {:induction false} KeepIsAmong(ps: seq<Policy>, key: Policy -> int, top: int, ids: set<string>)
    requires forall p :: p in ps ==> (key(p) == top <==> p.id in ids)
    ensures KeepAt(ps, key, top) == Among(ps, ids)
  {
    if ps != [] {
      assert ps[0] in ps && forall p :: p in ps[1..] ==> p in ps;
      KeepIsAmong(ps[1..], key, top, ids);
    }
  }

  lemma TopSeqIsTop(ps: seq<Policy>, key: Policy -> int)
    requires DistinctIds(ps)
    ensures TopSeq(ps, key) == Among(ps, TopIds(ps, key))
  {
    if |ps| <= 1 {
      AllTop(ps, key, SpecificityRule);
    } else {
      var top := Greatest(Keys(ps, key));
      KeysTop(ps, key, top);
      Losers(ps, key, top);
      forall p | p in ps ensures key(p) == top <==> p.id in TopIds(ps, key) {
        if p.id in TopIds(ps, key) {
          var q :| q in ps && key(q) == top && q.id == p.id;
          SameIdSamePolicy(ps, p, q);
        }
      }
      KeepIsAmong(ps, key, top, TopIds(ps, key));
    }
  }

  lemma SpecificAreTop(ps: seq<Policy>)
    requires DistinctIds(ps)
    ensures var kept := TopSeq(ps, SpecificityOf);
            && DistinctIds(kept) && Field(kept) == MostSpecific(Field(ps))
            && RuleUnless(kept == ps, SpecificityRule) == RuleIf(Field(ps), MostSpecific(Field(ps)), SpecificityRule)
  {
    TopSeqIsTop(ps, SpecificityOf);
    SpecificityKey(ps);
    RankingStages(ps);
  }

  lemma PriorsAreTop(ps: seq<Policy>)
    requires DistinctIds(ps)
    ensures var kept := TopSeq(ps, PriorityOf);
            && DistinctIds(kept) && Field(kept) == TopPriority(Field(ps))
            && RuleUnless(kept == ps, PriorityRule) == RuleIf(Field(ps), TopPriority(Field(ps)), PriorityRule)
  {
    TopSeqIsTop(ps, PriorityOf);
    PriorityKey(ps);
    RankingStages(ps);
  }

  lemma SurvivorsAreFinalists(ps: seq<Policy>)
    requires DistinctIds(ps)
    ensures DistinctIds(Survivors(ps)) && Field(Survivors(ps)) == Finalists(Field(ps))
    ensures StageRules(ps) == Removing(Field(ps))
    ensures forall p :: p in Survivors(ps) ==> p in ps
  {
    hide DistinctIds, Field, Standing, MostSpecific, TopPriority, Unoverridden, StandingSeq, OverriddenIds;
    UnoverriddenStand(ps);
    var s1 := Unoverridden(ps);
    SpecificAreTop(s1);
    PriorsAreTop(TopSeq(s1, SpecificityOf));
    SurvivorsWithin(ps);
  }

  lemma SurvivorsWithin(ps: seq<Policy>)
    ensures forall p :: p in Survivors(ps) ==> p in ps
  {
  }

  lemma {:induction false} SortAllIsSorted(xs: seq<string>)
    requires forall i, j :: 0 <= i < j < |xs| ==> xs[i] != xs[j]
    ensures SortAll(xs) == SortedUnique(xs)
  {
    if xs != [] {
      SortAllIsSorted(xs[1..]);
      assert forall x :: x in xs[1..] ==> x != xs[0];
      InsertSortedIsInsert(xs[0], SortedUnique(xs[1..]));
    }
  }

  lemma {:induction false} InsertSortedIsInsert(x: string, xs: seq<string>)
    requires Ascending(xs) && x !in xs
    ensures InsertSorted(x, xs) == Insert(x, xs)
  {
    if xs != [] && !Less(x, xs[0]) { InsertSortedIsInsert(x, xs[1..]); }
  }

  lemma TieSorts(ps: seq<Policy>)
    requires DistinctIds(ps) && ps != []
    ensures SortAll(PolicyIds(ps)) == SortedUnique(PolicyIds(ps)) && SortAll(PolicyIds(ps)) != []
  {
    forall i, j | 0 <= i < j < |ps| ensures PolicyIds(ps)[i] != PolicyIds(ps)[j] { DistinctAt(ps, i, j); }
    SortAllIsSorted(PolicyIds(ps));
    assert PolicyIds(ps)[0] in SortedUnique(PolicyIds(ps));
  }

  lemma PickSelects(matched: seq<Policy>)
    requires DistinctIds(matched)
    ensures PicksFinalists(matched, PickOf(matched))
  {
    hide DistinctIds, Survivors, StageRules, SortAll, Finalists, Removing, Field;
    NobodyMatched();
    if matched != [] {
      SurvivorsAreFinalists(matched);
      var s := Survivors(matched);
      FieldSize(s);
      if |s| > 1 {
        SortedTie(matched, s);
        TieSorts(s);
      } else if |s| == 1 {
        SoleSurvivor(matched, s);
      } else {
        NobodyLeft(matched, s);
      }
    }
  }

  // ------------------------------------------------------------------ evaluate

  /** The judgement, except that an all-overridden field simply has no winner. */
  ghost function EdgeJudge(ballots: set<Ballot>): Verdict {
    var m := MatchedField(ballots);
    if Stuck(m) then NoWinner(ballots, RulesOf(m)) else Judge(ballots)
  }

  /** `evaluate` as a specification. */
  ghost function EdgeEvaluate(lib: Lib, facts: map<string, Scalar>, b: Bundle, workflow: string): EdgeResult {
    var w := WorkflowNamed(b.workflows, workflow);
    if w.None? then EdgeUnknownWorkflow
    else if !EdgeFactsTyped(lib, facts, w.value) then EdgeInvalidFacts
    else
      var effective := EdgeEffective(lib, facts, w.value);
      var ps := PoliciesFor(b.policies, workflow);
      if SomePanics(lib, ps, effective) then Panicked
      else Decided(EdgeJudge(EdgeBallots(lib, ps, effective)))
  }

  ghost function Evals(lib: Lib, ps: seq<Policy>, facts: map<string, Scalar>): (r: seq<EdgeEval>)
    ensures |r| == |ps| && forall i :: 0 <= i < |ps| ==> r[i] == EdgeEvalOf(lib, ps[i], facts)
  {
    if ps == [] then [] else Evals(lib, ps[..|ps| - 1], facts) + [EdgeEvalOf(lib, ps[|ps| - 1], facts)]
  }

  lemma EvalsAppend(lib: Lib, ps: seq<Policy>, facts: map<string, Scalar>, p: Policy)
    ensures Evals(lib, ps + [p], facts) == Evals(lib, ps, facts) + [EdgeEvalOf(lib, p, facts)]
  {
    assert (ps + [p])[..|ps|] == ps;
  }

  lemma EvalsStep(lib: Lib, ps: seq<Policy>, facts: map<string, Scalar>, i: nat)
    requires i < |ps|
    ensures Evals(lib, ps[..i + 1], facts) == Evals(lib, ps[..i], facts) + [EdgeEvalOf(lib, ps[i], facts)]
  {
    assert ps[..i + 1] == ps[..i] + [ps[i]];
    EvalsAppend(lib, ps[..i], facts, ps[i]);
  }

  /** The `evaluate_policy` map over the workflow's policies; None is a panic. */
  method EvaluateEach(lib: Lib, ps: seq<Policy>, facts: map<string, Scalar>) returns (evals: Option<seq<EdgeEval>>)
    ensures evals.None? <==> SomePanics(lib, ps, facts)
    ensures evals.Some? ==> evals.value == Evals(lib, ps, facts)
  {
    hide EdgeEvalOf, EdgeStatusOf, PolicyPanics;
    var done: seq<EdgeEval> := [];
    for i := 0 to |ps|
      invariant done == Evals(lib, ps[..i], facts)
      invariant forall k :: 0 <= k < i ==> !PolicyPanics(lib, ps[k], facts)
    {
      var e := EdgeEvaluatePolicy(lib, ps[i], facts);
      if e.None? {
        assert ps[i] in ps;
        return None;
      }
      EvalsStep(lib, ps, facts, i);
      done := done + [e.value];
    }
    assert ps[..|ps|] == ps;
    evals := Some(done);
  }

  method SiftMatched(lib: Lib, ghost ps: seq<Policy>, ghost facts: map<string, Scalar>, evals: seq<EdgeEval>)
    returns (matched: seq<Policy>)
    requires evals == Evals(lib, ps, facts)
    ensures matched == Having(EdgeVotes(lib, facts), ps, Matched)
  {
    matched := [];
    for i := 0 to |evals|
      invariant matched == Having(EdgeVotes(lib, facts), ps[..i], Matched)
    {
      HavingStep(EdgeVotes(lib, facts), ps, i, Matched);
      var e := evals[i];
      if e.status == Matched { matched := matched + [e.policy]; }
    }
    assert ps[..|ps|] == ps;
  }

  method SiftUndeterminable(lib: Lib, ghost ps: seq<Policy>, ghost facts: map<string, Scalar>, evals: seq<EdgeEval>)
    returns (undeterminable: seq<EdgeEval>)
    requires evals == Evals(lib, ps, facts)
    ensures undeterminable == Evals(lib, Having(EdgeVotes(lib, facts), ps, Undeterminable), facts)
  {
    hide Evals;
    undeterminable := [];
    ghost var us: seq<Policy> := [];
    for i := 0 to |evals|
      invariant us == Having(EdgeVotes(lib, facts), ps[..i], Undeterminable)
      invariant undeterminable == Evals(lib, us, facts)
    {
      HavingStep(EdgeVotes(lib, facts), ps, i, Undeterminable);
      var e := evals[i];
      if e.status == Undeterminable {
        EvalsAppend(lib, us, facts, ps[i]);
        us := us + [ps[i]];
        undeterminable := undeterminable + [e];
      }
    }
    assert ps[..|ps|] == ps;
  }

  /** The BTreeSets of missing fields and of policy ids, as lists. */
  method Collect(lib: Lib, ghost ps: seq<Policy>, ghost facts: map<string, Scalar>, evals: seq<EdgeEval>)
    returns (fields: seq<string>, ids: seq<string>)
    requires evals == Evals(lib, ps, facts)
    ensures fields == SortedSet(MissingOf(EdgeBallots(lib, ps, facts)))
    ensures ids == SortedSet(IdsOfBallots(EdgeBallots(lib, ps, facts)))
  {
    hide SortedSet, EdgeStatusOf;
    ghost var vote := EdgeVotes(lib, facts);
    fields, ids := [], [];
    for i := 0 to |evals|
      invariant forall x :: x in fields <==> exists p :: p in ps[..i] && x in vote(p).missing
      invariant forall x :: x in ids <==> exists p :: p in ps[..i] && x == p.id
    {
      assert ps[..i + 1] == ps[..i] + [ps[i]];
      ghost var before := fields;
      fields := fields + evals[i].missingFields;
      assert forall x :: x in fields <==> x in before || x in vote(ps[i]).missing;
      ids := ids + [evals[i].policy.id];
    }
    assert ps[..|ps|] == ps;
    NamesAsked(vote, ps, fields);
    IdsNamed(vote, ps, ids);
    fields, ids := SortedUnique(fields), SortedUnique(ids);
  }

  function EvalsAbove(es: seq<EdgeEval>, floor: int): seq<EdgeEval> {
    if es == [] then []
    else EvalsAbove(es[..|es| - 1], floor) + (if es[|es| - 1].policy.priority > floor then [es[|es| - 1]] else [])
  }

  lemma {:induction false} EvalsAboveAre(lib: Lib, ps: seq<Policy>, facts: map<string, Scalar>, floor: int)
    ensures EvalsAbove(Evals(lib, ps, facts), floor) == Evals(lib, Above(ps, floor), facts)
  {
    if ps != [] {
      var front, last := ps[..|ps| - 1], ps[|ps| - 1];
      EvalsAboveAre(lib, front, facts, floor);
      var e := EdgeEvalOf(lib, last, facts);
      EvalsAboveAppend(Evals(lib, front, facts), e, floor);
      if last.priority > floor {
        EvalsAppend(lib, Above(front, floor), facts, last);
        assert Above(ps, floor) == Above(front, floor) + [last];
      } else {
        assert Above(ps, floor) == Above(front, floor);
      }
    }
  }

  lemma EvalsAboveAppend(es: seq<EdgeEval>, e: EdgeEval, floor: int)
    ensures EvalsAbove(es + [e], floor) == EvalsAbove(es, floor) + (if e.policy.priority > floor then [e] else [])
  {
    assert (es + [e])[..|es|] == es;
  }

  /** No tie, no winner: escalate. */
  method EdgeWithoutWinner(lib: Lib, ghost ps: seq<Policy>, ghost facts: map<string, Scalar>,
                           undeterminable: seq<EdgeEval>, rules: seq<Rule>) returns (verdict: Verdict)
    requires undeterminable == Evals(lib, Having(EdgeVotes(lib, facts), ps, Undeterminable), facts)
    ensures verdict == NoWinner(EdgeBallots(lib, ps, facts), rules)
  {
    ghost var us := Having(EdgeVotes(lib, facts), ps, Undeterminable);
    UnprovenAre(EdgeVotes(lib, facts), ps);
    CastNonempty(EdgeVotes(lib, facts), us);
    if undeterminable != [] {
      var fields, _ := Collect(lib, us, facts, undeterminable);
      verdict := Verdict(Escalation(MissingFacts, fields, []), rules, None, [], []);
    } else {
      verdict := Verdict(Escalation(NoMatchingPolicy, [], []), rules, None, [], []);
    }
  }

  /** Dominance, then the decisive ruling. */
  method EdgeWithWinner(lib: Lib, ghost ps: seq<Policy>, ghost facts: map<string, Scalar>,
                        w: Policy, undeterminable: seq<EdgeEval>, rules: seq<Rule>) returns (verdict: Verdict)
    requires undeterminable == Evals(lib, Having(EdgeVotes(lib, facts), ps, Undeterminable), facts)
    ensures verdict == WithWinner(EdgeBallots(lib, ps, facts), EdgeBallotOf(lib, w, facts), rules)
  {
    ghost var us := Having(EdgeVotes(lib, facts), ps, Undeterminable);
    var blockers := EvalsAbove(undeterminable, w.priority);
    EvalsAboveAre(lib, us, facts, w.priority);
    UnprovenAre(EdgeVotes(lib, facts), ps);
    BlockersAre(EdgeVotes(lib, facts), ps, us, w);
    CastNonempty(EdgeVotes(lib, facts), Above(us, w.priority));
    if blockers != [] {
      var fields, ids := Collect(lib, Above(us, w.priority), facts, blockers);
      verdict := Verdict(Escalation(MissingFacts, fields, []), rules + [DominanceRule], None, [], ids);
    } else {
      verdict := Verdict(Decisive(w.id, w.effect, w.authority), rules, Some(w.id), [], []);
    }
  }

  /** The ruling on a pick, over the ballots of any list of policies. */
  ghost function EdgeVerdict(lib: Lib, ps: seq<Policy>, facts: map<string, Scalar>, pick: Pick): Verdict {
    var ballots := EdgeBallots(lib, ps, facts);
    if pick.tie != [] then Verdict(Escalation(Conflict, [], pick.tie), pick.rules, None, pick.tie, [])
    else if pick.winner.None? then NoWinner(ballots, pick.rules)
    else WithWinner(ballots, EdgeBallotOf(lib, pick.winner.value, facts), pick.rules)
  }

  method EdgeDecide(lib: Lib, ghost ps: seq<Policy>, ghost facts: map<string, Scalar>,
                    matched: seq<Policy>, undeterminable: seq<EdgeEval>) returns (verdict: Verdict)
    requires matched == Having(EdgeVotes(lib, facts), ps, Matched)
    requires undeterminable == Evals(lib, Having(EdgeVotes(lib, facts), ps, Undeterminable), facts)
    ensures verdict == EdgeVerdict(lib, ps, facts, PickOf(matched))
  {
    var pick := EdgeSelectWinner(matched);
    if pick.tie != [] {
      verdict := Verdict(Escalation(Conflict, [], pick.tie), pick.rules, None, pick.tie, []);
    } else if pick.winner.None? {
      verdict := EdgeWithoutWinner(lib, ps, facts, undeterminable, pick.rules);
    } else {
      verdict := EdgeWithWinner(lib, ps, facts, pick.winner.value, undeterminable, pick.rules);
    }
  }

  lemma VerdictIsJudgement(lib: Lib, ps: seq<Policy>, facts: map<string, Scalar>)
    requires DistinctIds(ps)
    ensures EdgeVerdict(lib, ps, facts, PickOf(Having(EdgeVotes(lib, facts), ps, Matched)))
            == EdgeJudge(EdgeBallots(lib, ps, facts))
  {
    hide PickOf, EdgeStatusOf;
    var vote := EdgeVotes(lib, facts);
    var matched := Having(vote, ps, Matched);
    HavingDistinct(vote, ps, Matched);
    MatchedAre(vote, ps);
    PickSelects(matched);
    var pick := PickOf(matched);
    if pick.tie != [] {
      SelectedJudgement(vote, ps, Tie(pick.tie));
    } else if pick.winner.None? {
      SelectedJudgement(vote, ps, if Selects(matched, Nobody) then Nobody else IndexError);
    } else {
      SelectedJudgement(vote, ps, Winner(pick.winner.value));
    }
  }

  /** `evaluate` on any decoded bundle, accepted by the schema or not. */
  ghost function EdgeRun(lib: Lib, facts: map<string, Scalar>, b: Bundle, workflow: string): EdgeResult {
    var w := WorkflowNamed(b.workflows, workflow);
    if w.None? then EdgeUnknownWorkflow
    else if !EdgeFactsTyped(lib, facts, w.value) then EdgeInvalidFacts
    else
      var effective := WithDefaults(EdgeSupplied(lib, facts, w.value), w.value.facts);
      var ps := PoliciesFor(b.policies, workflow);
      if SomePanics(lib, ps, effective) then Panicked
      else Decided(EdgeVerdict(lib, ps, effective, PickOf(Having(EdgeVotes(lib, effective), ps, Matched))))
  }

  /** A request: decode it, then evaluate. */
  ghost function EdgeCall(lib: Lib, facts: map<string, Json>, b: Bundle, workflow: string): EdgeResult {
    if !FactsDecode(lib, facts) || !BundleDecodes(lib, b) then BadRequest
    else EdgeRun(lib, Decoded(facts), b, workflow)
  }

  /** The shape `Bundle.model_dump` guarantees: names are unique. */
  predicate UniqueNames(b: Bundle) {
    DistinctIds(b.policies) && forall w :: w in b.workflows ==> UniqueFacts(w)
  }

  predicate NoDouble(lib: Lib, v: Scalar) {
    v.Int? && lib.toDouble(v.i).None?
  }

  predicate HoldsValue(c: CondValue, v: Scalar) {
    match c
    case One(u) => u == v
    case Many(us) => v in us
  }

  /** Some number of the bundle has no double, or a priority no i64. */
  ghost predicate BundleRejected(lib: Lib, b: Bundle) {
    || (exists p :: p in b.policies && !(-9223372036854775808 <= p.priority <= 9223372036854775807))
    || (exists p, c, v :: p in b.policies && c in p.conditions && HoldsValue(c.value, v) && NoDouble(lib, v))
    || (exists w, f :: w in b.workflows && f in w.facts && f.default.Some? && NoDouble(lib, f.default.value))
  }

  lemma ValueDecodesExactly(lib: Lib, c: CondValue)
    ensures CondValueDecodes(lib, c) <==> forall v :: HoldsValue(c, v) ==> !NoDouble(lib, v)
  {
    if c.One? { assert HoldsValue(c, c.v); }
    if c.Many? {
      forall v | v in c.vs ensures HoldsValue(c, v) { }
    }
  }

  lemma BundleRejectedExactly(lib: Lib, b: Bundle)
    ensures BundleDecodes(lib, b) <==> !BundleRejected(lib, b)
  {
    hide HoldsValue, CondValueDecodes;
    forall c: CondValue ensures CondValueDecodes(lib, c) <==> forall v :: HoldsValue(c, v) ==> !NoDouble(lib, v) {
      ValueDecodesExactly(lib, c);
    }
    if BundleRejected(lib, b) {
      if p, c, v :| p in b.policies && c in p.conditions && HoldsValue(c.value, v) && NoDouble(lib, v) {
        assert !CondValueDecodes(lib, c.value);
      }
    } else {
      forall p, c | p in b.policies && c in p.conditions ensures CondValueDecodes(lib, c.value) {
        forall v | HoldsValue(c.value, v) ensures !NoDouble(lib, v) { }
      }
      forall p | p in b.policies ensures PolicyDecodes(lib, p) { }
      forall w | w in b.workflows ensures WorkflowDecodes(lib, w) {
        forall f | f in w.facts && f.default.Some? ensures Fits(lib, f.default.value) {
          assert !NoDouble(lib, f.default.value);
        }
      }
    }
  }

  /** A request is rejected when decoding it exactly for a fact that is no scalar, or for a number that has no
      double or, as a priority, no i64. */
  lemma RejectedExactly(lib: Lib, facts: map<string, Json>, b: Bundle, workflow: string)
    ensures EdgeCall(lib, facts, b, workflow) == BadRequest <==>
              (exists n :: n in facts && (facts[n].NonScalar? || NoDouble(lib, facts[n].v))) || BundleRejected(lib, b)
  {
    hide BundleDecodes, BundleRejected, EdgeFactsTyped, WithDefaults, EdgeVerdict, SomePanics, PickOf;
    BundleRejectedExactly(lib, b);
  }

  /** Where names are unique, the port is the judgement of a set of ballots. */
  lemma EdgeRunIsJudgement(lib: Lib, facts: map<string, Scalar>, b: Bundle, workflow: string)
    requires UniqueNames(b)
    ensures EdgeRun(lib, facts, b, workflow) == EdgeEvaluate(lib, facts, b, workflow)
  {
    hide EdgeVerdict, PickOf, EdgeJudge, WithDefaults, UniqueFacts, DistinctIds;
    var w := WorkflowNamed(b.workflows, workflow);
    if w.Some? && EdgeFactsTyped(lib, facts, w.value) {
      DefaultsAreEffective(lib, facts, w.value);
      PoliciesForDistinct(b.policies, workflow);
      VerdictIsJudgement(lib, PoliciesFor(b.policies, workflow), EdgeEffective(lib, facts, w.value));
    }
  }

  /** The request as a whole, on any bundle; where names are unique it is the judgement. */
  method EdgeEvaluateRequest(lib: Lib, facts: map<string, Json>, b: Bundle, workflow: string) returns (r: EdgeResult)
    ensures r == EdgeCall(lib, facts, b, workflow)
    ensures UniqueNames(b) && FactsDecode(lib, facts) && BundleDecodes(lib, b) ==>
              r == EdgeEvaluate(lib, Decoded(facts), b, workflow)
  {
    if !FactsDecode(lib, facts) || !BundleDecodes(lib, b) { return BadRequest; }
    var decoded := Decoded(facts);
    if UniqueNames(b) { EdgeRunIsJudgement(lib, decoded, b, workflow); }
    var wf := WorkflowNamed(b.workflows, workflow);
    if wf.None? { return EdgeUnknownWorkflow; }
    var ok, effective := EdgeCheckSupplied(lib, decoded, wf.value);
    if !ok { return EdgeInvalidFacts; }
    effective := EdgeInsertDefaults(wf.value, effective);
    var policies := PoliciesFor(b.policies, workflow);
    var evals := EvaluateEach(lib, policies, effective);
    if evals.None? { return Panicked; }
    var matched := SiftMatched(lib, policies, effective, evals.value);
    var undeterminable := SiftUndeterminable(lib, policies, effective, evals.value);
    var verdict := EdgeDecide(lib, policies, effective, matched, undeterminable);
    r := Decided(verdict);
  }
}
