/** Policy IR v1 (backend/bundle/schema.py): the typed data every published bundle is
    made of, and the checks its constructors enforce. */
module Schema {
  import opened Options

  /** A JSON scalar. Python's `int` and `float` stay apart because canonicalisation and
      the Rust port treat them differently; every `Float` is finite. */
  datatype Scalar = Int(i: int) | Float(r: real) | Text(s: string) | Bool(b: bool)

  /** A supplied fact value: any JSON value. */
  datatype Json = Value(v: Scalar) | NonScalar(text: string)

  datatype ValueType = NumberType | StringType | BooleanType
  datatype Operator = Gt | Gte | Lt | Lte | Eq | Neq | In | NotIn
  datatype CondValue = One(v: Scalar) | Many(vs: seq<Scalar>)
  datatype OutcomeKind = Approve | Deny | Route | Escalate

  datatype Condition = Condition(field: string, op: Operator, value: CondValue, valueType: ValueType)
  datatype Evidence = Evidence(sourceId: string, sourceVersion: string,
                               spanStart: int, spanEnd: int, excerpt: string)
  datatype Effect = Effect(kind: OutcomeKind, action: string)
  datatype Authority = Authority(approvalRequired: bool, approverRole: Option<string>)

  datatype Policy = Policy(id: string, workflow: string, effect: Effect, priority: int,
                           conditions: seq<Condition>, authority: Authority,
                           evidence: seq<Evidence>, overrides: seq<string>,
                           unconditionalAck: bool, rationale: string)
  {
    function Specificity(): nat { |conditions| }
  }

  datatype FactSpec = FactSpec(name: string, valueType: ValueType, description: string,
                               default: Option<Scalar>)
  datatype WorkflowSpec = WorkflowSpec(name: string, facts: seq<FactSpec>, description: string)
  datatype Bundle = Bundle(schemaVersion: string, companyId: string,
                           workflows: seq<WorkflowSpec>, policies: seq<Policy>)

  /** The library behaviour the evaluators rely on: `norm` is `strip().lower()` on text,
      `show` and `edgeShow` print a non-text scalar in Python and in Rust, and `toDouble`
      rounds an integer to the nearest double; None is Python's OverflowError. */
  datatype Lib = Lib(norm: string -> string, show: Scalar -> string, edgeShow: Scalar -> string,
                     toDouble: int -> Option<real>)

  // ------------------------------------------------------------------ value checks

  predicate HasType(v: Scalar, t: ValueType) {
    match t
    case NumberType => v.Int? || v.Float?
    case StringType => v.Text?
    case BooleanType => v.Bool?
  }

  predicate OperatorAllowed(op: Operator, t: ValueType) {
    match t
    case NumberType => op in {Gt, Gte, Lt, Lte, Eq, Neq}
    case StringType => op in {Eq, Neq, In, NotIn}
    case BooleanType => op == Eq
  }

  predicate Snake(s: string) {
    s != "" && 'a' <= s[0] <= 'z' &&
    forall i :: 0 <= i < |s| ==> 'a' <= s[i] <= 'z' || '0' <= s[i] <= '9' || s[i] == '_'
  }

  /** `SNAKE_CASE.match`; Python's `$` also accepts one trailing newline. */
  predicate SnakeCase(s: string) {
    Snake(s) || (s != "" && s[|s| - 1] == '\n' && Snake(s[..|s| - 1]))
  }

  /** `v.replace(".", "_")` */
  function Undotted(s: string): string {
    seq(|s|, i requires 0 <= i < |s| => if s[i] == '.' then '_' else s[i])
  }

  /** `Condition`: snake_case field, operator whitelist, list shape, numeric values for numbers. */
  predicate ValidCondition(c: Condition) {
    && SnakeCase(c.field)
    && OperatorAllowed(c.op, c.valueType)
    && (c.op in {In, NotIn} <==> c.value.Many?)
    && (c.valueType == NumberType ==> c.value.One? && HasType(c.value.v, NumberType))
  }

  predicate ValidFact(f: FactSpec) {
    && SnakeCase(f.name)
    && (f.default.Some? ==> HasType(f.default.value, f.valueType))
  }

  predicate UniqueFacts(w: WorkflowSpec) {
    forall i, j :: 0 <= i < j < |w.facts| ==> w.facts[i].name != w.facts[j].name
  }

  predicate ValidWorkflow(w: WorkflowSpec) {
    UniqueFacts(w) && forall f :: f in w.facts ==> ValidFact(f)
  }

  predicate ValidAuthority(a: Authority) {
    a.approvalRequired ==> a.approverRole.Some? && a.approverRole.value != ""
  }

  /** `str.isspace` on one character. */
  predicate IsSpace(c: char) {
    || '\U{09}' <= c <= '\U{0D}' || '\U{1C}' <= c <= '\U{20}' || c == '\U{85}' || c == '\U{A0}'
    || c == '\U{1680}' || '\U{2000}' <= c <= '\U{200A}' || c == '\U{2028}' || c == '\U{2029}'
    || c == '\U{202F}' || c == '\U{205F}' || c == '\U{3000}'
  }

  /** `not s.strip()` */
  predicate IsBlank(s: string) {
    forall i :: 0 <= i < |s| ==> IsSpace(s[i])
  }

  predicate ValidEvidence(e: Evidence) {
    0 <= e.spanStart <= e.spanEnd && !IsBlank(e.excerpt)
  }

  /** `Policy`: no evidence, no publish; no conditions only with sign-off; no self-override. */
  predicate ValidPolicy(p: Policy) {
    && SnakeCase(Undotted(p.id)) && SnakeCase(Undotted(p.workflow)) && SnakeCase(p.effect.action)
    && 0 <= p.priority <= 1000
    && (forall c :: c in p.conditions ==> ValidCondition(c))
    && ValidAuthority(p.authority)
    && p.evidence != [] && (forall e :: e in p.evidence ==> ValidEvidence(e))
    && (p.conditions == [] ==> p.unconditionalAck)
    && p.id !in p.overrides
  }

  // ------------------------------------------------------------------ lookups

  /** `WorkflowSpec.fact_map()[name]`; a dictionary keeps the last entry of a name. */
  function FactNamed(facts: seq<FactSpec>, name: string): (r: Option<FactSpec>)
    ensures r.Some? ==> r.value in facts && r.value.name == name
    ensures r.None? ==> forall f :: f in facts ==> f.name != name
  {
    if facts == [] then None
    else if facts[|facts| - 1].name == name then Some(facts[|facts| - 1])
    else FactNamed(facts[..|facts| - 1], name)
  }

  function FactNames(w: WorkflowSpec): set<string> {
    set f | f in w.facts :: f.name
  }

  /** `Bundle.workflow(name)`: the first workflow of that name, or KeyError. */
  function WorkflowNamed(ws: seq<WorkflowSpec>, name: string): (r: Option<WorkflowSpec>)
    ensures r.Some? ==> r.value in ws && r.value.name == name
    ensures r.None? ==> forall w :: w in ws ==> w.name != name
  {
    if ws == [] then None
    else if ws[0].name == name then Some(ws[0])
    else WorkflowNamed(ws[1..], name)
  }

  /** `Bundle.policies_for(workflow)`, in source order. */
  function PoliciesFor(ps: seq<Policy>, workflow: string): (r: seq<Policy>)
    ensures forall p :: p in r <==> p in ps && p.workflow == workflow
  {
    if ps == [] then []
    else (if ps[0].workflow == workflow then [ps[0]] else []) + PoliciesFor(ps[1..], workflow)
  }

  function PolicyIds(ps: seq<Policy>): (r: seq<string>)
    ensures |r| == |ps| && forall i :: 0 <= i < |ps| ==> r[i] == ps[i].id
  {
    if ps == [] then [] else [ps[0].id] + PolicyIds(ps[1..])
  }

  function IdsOf(ps: seq<Policy>): set<string> {
    set p | p in ps :: p.id
  }

  /** `len(pol_ids) == len(set(pol_ids))` */
  predicate DistinctIds(ps: seq<Policy>) {
    |IdsOf(ps)| == |ps|
  }

  lemma {:induction false} DistinctSplit(ps: seq<Policy>)
    ensures |IdsOf(ps)| <= |ps|
    ensures ps != [] ==>
              (DistinctIds(ps) <==> DistinctIds(ps[1..]) && ps[0].id !in IdsOf(ps[1..]))
  {
    if ps == [] {
      assert IdsOf(ps) == {};
    } else {
      DistinctSplit(ps[1..]);
      assert ps == [ps[0]] + ps[1..];
      assert IdsOf(ps) == {ps[0].id} + IdsOf(ps[1..]);
    }
  }

  lemma {:induction false} DistinctAt(ps: seq<Policy>, i: nat, j: nat)
    requires DistinctIds(ps) && i < j < |ps|
    ensures ps[i].id != ps[j].id
  {
    DistinctSplit(ps);
    if i == 0 {
      assert ps[1..][j - 1] == ps[j];
    } else {
      DistinctAt(ps[1..], i - 1, j - 1);
    }
  }

  lemma {:induction false} DistinctFrom(ps: seq<Policy>)
    requires forall i, j :: 0 <= i < j < |ps| ==> ps[i].id != ps[j].id
    ensures DistinctIds(ps)
  {
    DistinctSplit(ps);
    if ps != [] {
      forall q | q in ps[1..] ensures q.id != ps[0].id {
        var k :| 0 <= k < |ps[1..]| && ps[1..][k] == q;
        assert ps[k + 1] == q;
      }
      DistinctFrom(ps[1..]);
    }
  }

  lemma DistinctPrefix(ps: seq<Policy>, n: nat)
    requires DistinctIds(ps) && n <= |ps|
    ensures DistinctIds(ps[..n])
  {
    var front := ps[..n];
    forall i, j | 0 <= i < j < |front| ensures front[i].id != front[j].id { DistinctAt(ps, i, j); }
    DistinctFrom(front);
  }

  lemma DistinctAppend(ps: seq<Policy>, q: Policy)
    requires DistinctIds(ps) && forall p :: p in ps ==> p.id != q.id
    ensures DistinctIds(ps + [q])
  {
    assert IdsOf(ps + [q]) == IdsOf(ps) + {q.id};
  }

  lemma SameIdSamePolicy(ps: seq<Policy>, p: Policy, q: Policy)
    requires DistinctIds(ps) && p in ps && q in ps && p.id == q.id
    ensures p == q
  {
    var i :| 0 <= i < |ps| && ps[i] == p;
    var j :| 0 <= j < |ps| && ps[j] == q;
    if i < j { DistinctAt(ps, i, j); }
    if j < i { DistinctAt(ps, j, i); }
  }

  lemma {:induction false} PoliciesForDistinct(ps: seq<Policy>, workflow: string)
    requires DistinctIds(ps)
    ensures DistinctIds(PoliciesFor(ps, workflow))
  {
    if ps != [] {
      DistinctSplit(ps);
      PoliciesForDistinct(ps[1..], workflow);
      var rest := PoliciesFor(ps[1..], workflow);
      DistinctSplit(PoliciesFor(ps, workflow));
      if ps[0].workflow == workflow {
        assert ([ps[0]] + rest)[1..] == rest;
      } else {
        assert PoliciesFor(ps, workflow) == rest;
      }
    }
  }

  /** `by_id[id]` */
  function ById(ps: seq<Policy>, id: string): (p: Policy)
    requires exists q :: q in ps && q.id == id
    ensures p in ps && p.id == id
  {
    if ps[|ps| - 1].id == id then ps[|ps| - 1] else ById(ps[..|ps| - 1], id)
  }

  // ------------------------------------------------------------------ bundle integrity

  ghost predicate ConditionDeclared(c: Condition, w: WorkflowSpec) {
    var spec := FactNamed(w.facts, c.field);
    spec.Some? && spec.value.valueType == c.valueType
  }

  ghost predicate OverridesKnown(p: Policy, ps: seq<Policy>) {
    forall t :: t in p.overrides ==> exists q :: q in ps && q.id == t && q.workflow == p.workflow
  }

  ghost predicate PolicyPlaced(p: Policy, b: Bundle) {
    var w := WorkflowNamed(b.workflows, p.workflow);
    && w.Some?
    && (forall c :: c in p.conditions ==> ConditionDeclared(c, w.value))
    && OverridesKnown(p, b.policies)
  }

  predicate UniqueWorkflows(ws: seq<WorkflowSpec>) {
    forall i, j :: 0 <= i < j < |ws| ==> ws[i].name != ws[j].name
  }

  /** A rank that strictly falls along every override edge between policies of `ps`. */
  ghost predicate RanksOverrides(ps: seq<Policy>, rank: map<string, nat>) {
    && (forall p :: p in ps ==> p.id in rank)
    && (forall p, t :: p in ps && t in p.overrides && t in rank ==> rank[t] < rank[p.id])
  }

  ghost predicate AcyclicOverrides(ps: seq<Policy>) {
    exists rank :: RanksOverrides(ps, rank)
  }

  /** What `Bundle._integrity` accepts. */
  ghost predicate Integrity(b: Bundle) {
    && UniqueWorkflows(b.workflows)
    && DistinctIds(b.policies)
    && (forall p :: p in b.policies ==> PolicyPlaced(p, b))
    && AcyclicOverrides(b.policies)
  }

  /** A constructed `Bundle` object: every nested validator and `_integrity` passed. */
  ghost predicate ValidBundle(b: Bundle) {
    && (forall w :: w in b.workflows ==> ValidWorkflow(w))
    && (forall p :: p in b.policies ==> ValidPolicy(p))
    && Integrity(b)
  }

  /** What the schema leaves unchecked: string and boolean condition values really are
      strings and booleans. */
  predicate TypedCondition(c: Condition) {
    match c.value
    case One(v) => HasType(v, c.valueType)
    case Many(vs) => forall v :: v in vs ==> HasType(v, c.valueType)
  }

  predicate TypedValues(b: Bundle) {
    forall p, c :: p in b.policies && c in p.conditions ==> TypedCondition(c)
  }
}
