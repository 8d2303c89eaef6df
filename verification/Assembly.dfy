/** Inferring each workflow's fact vocabulary from the conditions that use it
    (backend/onboarding/service.py). */
module Assembly {
  import opened Options
  import opened Text
  import opened Schema
  import opened Canonical

  type Fields = map<string, ValueType>
  type Vocabulary = map<string, Fields>

  // ------------------------------------------------------------------ what the loops compute

  function FieldsAfter(fields: Fields, cs: seq<Condition>): Option<Fields> {
    if cs == [] then Some(fields) else
    var front, c := FieldsAfter(fields, cs[..|cs| - 1]), cs[|cs| - 1];
    if front.None? || (c.field in front.value && front.value[c.field] != c.valueType) then None
    else Some(front.value[c.field := c.valueType])
  }

  function FieldsOf(v: Vocabulary, workflow: string): Fields {
    if workflow in v then v[workflow] else map[]
  }

  /** None is the type conflict. */
  function VocabularyOf(ps: seq<Policy>): Option<Vocabulary> {
    if ps == [] then Some(map[]) else
    var front, p := VocabularyOf(ps[..|ps| - 1]), ps[|ps| - 1];
    if front.None? then None else
    var fields := FieldsAfter(FieldsOf(front.value, p.workflow), p.conditions);
    if fields.None? then None else Some(front.value[p.workflow := fields.value])
  }

  // ------------------------------------------------------------------ what it means

  predicate Has(fields: Fields, f: string, t: ValueType) {
    f in fields && fields[f] == t
  }

  predicate UsedIn(cs: seq<Condition>, f: string, t: ValueType) {
    exists c :: c in cs && c.field == f && c.valueType == t
  }

  /** Some policy of the workflow has a condition on the field at that type. */
  predicate Uses(ps: seq<Policy>, w: string, f: string, t: ValueType) {
    exists p :: p in ps && p.workflow == w && UsedIn(p.conditions, f, t)
  }

  ghost predicate TypeClash(ps: seq<Policy>) {
    exists w, f, t, u :: Uses(ps, w, f, t) && Uses(ps, w, f, u) && t != u
  }

  lemma UsedInAppend(cs: seq<Condition>, c: Condition, f: string, t: ValueType)
    ensures UsedIn(cs + [c], f, t) <==> UsedIn(cs, f, t) || (c.field == f && c.valueType == t)
  {
    if UsedIn(cs, f, t) {
      var d :| d in cs && d.field == f && d.valueType == t;
      assert d in cs + [c];
    }
    assert c in cs + [c];
  }

  lemma UsesAppend(ps: seq<Policy>, p: Policy, w: string, f: string, t: ValueType)
    ensures Uses(ps + [p], w, f, t) <==> Uses(ps, w, f, t) || (p.workflow == w && UsedIn(p.conditions, f, t))
  {
    if Uses(ps, w, f, t) {
      var q :| q in ps && q.workflow == w && UsedIn(q.conditions, f, t);
      assert q in ps + [p];
    }
    assert p in ps + [p];
  }

  ghost predicate FieldClash(fields: Fields, cs: seq<Condition>, f: string, t: ValueType, u: ValueType) {
    t != u && (Has(fields, f, t) || UsedIn(cs, f, t)) && UsedIn(cs, f, u)
  }

  lemma {:induction false} FieldsHave(fields: Fields, cs: seq<Condition>, f: string, t: ValueType)
    requires FieldsAfter(fields, cs).Some?
    ensures Has(FieldsAfter(fields, cs).value, f, t) <==> Has(fields, f, t) || UsedIn(cs, f, t)
  {
    if cs != [] {
      var front, c := cs[..|cs| - 1], cs[|cs| - 1];
      assert cs == front + [c];
      FieldsHave(fields, front, f, t);
      UsedInAppend(front, c, f, t);
    }
  }

  lemma {:induction false} FieldsClash(fields: Fields, cs: seq<Condition>)
    returns (f: string, t: ValueType, u: ValueType)
    requires FieldsAfter(fields, cs).None?
    ensures FieldClash(fields, cs, f, t, u)
  {
    var front, c := cs[..|cs| - 1], cs[|cs| - 1];
    assert cs == front + [c];
    if FieldsAfter(fields, front).None? {
      f, t, u := FieldsClash(fields, front);
      UsedInAppend(front, c, f, t);
    } else {
      f, t, u := c.field, FieldsAfter(fields, front).value[c.field], c.valueType;
      FieldsHave(fields, front, f, t);
      UsedInAppend(front, c, f, t);
    }
    UsedInAppend(front, c, f, u);
  }

  lemma {:induction false} VocabularyHas(ps: seq<Policy>, w: string, f: string, t: ValueType)
    requires VocabularyOf(ps).Some?
    ensures Has(FieldsOf(VocabularyOf(ps).value, w), f, t) <==> Uses(ps, w, f, t)
  {
    if ps != [] {
      var front, p := ps[..|ps| - 1], ps[|ps| - 1];
      assert ps == front + [p];
      VocabularyHas(front, w, f, t);
      UsesAppend(front, p, w, f, t);
      FieldsHave(FieldsOf(VocabularyOf(front).value, p.workflow), p.conditions, f, t);
    }
  }

  lemma {:induction false} VocabularyNames(ps: seq<Policy>, w: string)
    requires VocabularyOf(ps).Some?
    ensures w in VocabularyOf(ps).value <==> exists p :: p in ps && p.workflow == w
  {
    if ps != [] {
      var front, p := ps[..|ps| - 1], ps[|ps| - 1];
      assert ps == front + [p];
      VocabularyNames(front, w);
    }
  }

  lemma {:induction false} ClashFound(ps: seq<Policy>) returns (w: string, f: string, t: ValueType, u: ValueType)
    requires VocabularyOf(ps).None?
    ensures Uses(ps, w, f, t) && Uses(ps, w, f, u) && t != u
  {
    var front, p := ps[..|ps| - 1], ps[|ps| - 1];
    assert ps == front + [p];
    if VocabularyOf(front).None? {
      w, f, t, u := ClashFound(front);
    } else {
      w := p.workflow;
      f, t, u := FieldsClash(FieldsOf(VocabularyOf(front).value, w), p.conditions);
      VocabularyHas(front, w, f, t);
    }
    UsesAppend(front, p, w, f, t);
    UsesAppend(front, p, w, f, u);
  }

  /** Main result: inference fails exactly when one workflow uses a field at two types. */
  lemma FailsExactlyOnClash(ps: seq<Policy>)
    ensures VocabularyOf(ps).None? <==> TypeClash(ps)
  {
    if VocabularyOf(ps).None? {
      var w, f, t, u := ClashFound(ps);
    } else if TypeClash(ps) {
      var w, f, t, u :| Uses(ps, w, f, t) && Uses(ps, w, f, u) && t != u;
      VocabularyHas(ps, w, f, t);
      VocabularyHas(ps, w, f, u);
    }
  }

  // ------------------------------------------------------------------ the workflow specs

  ghost function FactSpecsOf(fields: Fields): (r: seq<FactSpec>)
    ensures |r| == |SortedSet(fields.Keys)|
    ensures forall i :: 0 <= i < |r|
                        ==> r[i] == FactSpec(SortedSet(fields.Keys)[i], fields[SortedSet(fields.Keys)[i]], "", None)
  {
    var names := SortedSet(fields.Keys);
    seq(|names|, i requires 0 <= i < |names| =>
      assert names[i] in names;
      FactSpec(names[i], fields[names[i]], "", None))
  }

  ghost function WorkflowSpecsOf(v: Vocabulary): (r: seq<WorkflowSpec>)
    ensures |r| == |SortedSet(v.Keys)|
    ensures forall i :: 0 <= i < |r|
                        ==> r[i] == WorkflowSpec(SortedSet(v.Keys)[i], FactSpecsOf(v[SortedSet(v.Keys)[i]]), "")
  {
    var names := SortedSet(v.Keys);
    seq(|names|, i requires 0 <= i < |names| =>
      assert names[i] in names;
      WorkflowSpec(names[i], FactSpecsOf(v[names[i]]), ""))
  }

  lemma InferredFact(fields: Fields, f: string)
    requires f in fields
    ensures FactNamed(FactSpecsOf(fields), f) == Some(FactSpec(f, fields[f], "", None))
  {
    var names := SortedSet(fields.Keys);
    assert f in names;
    var i :| 0 <= i < |names| && names[i] == f;
    assert FactSpecsOf(fields)[i].name == f;
  }

  lemma InferredWorkflow(v: Vocabulary, w: string)
    requires w in v
    ensures WorkflowNamed(WorkflowSpecsOf(v), w) == Some(WorkflowSpec(w, FactSpecsOf(v[w]), ""))
  {
    var names := SortedSet(v.Keys);
    assert w in names;
    var i :| 0 <= i < |names| && names[i] == w;
    assert WorkflowSpecsOf(v)[i].name == w;
  }

  lemma InferredUnique(v: Vocabulary)
    ensures UniqueWorkflows(WorkflowSpecsOf(v))
  {
    var names := SortedSet(v.Keys);
    forall i, j | 0 <= i < j < |names| ensures names[i] != names[j] { AscendingDistinct(names, i, j); }
  }

  lemma InferredFactsUnique(fields: Fields)
    ensures UniqueFacts(WorkflowSpec("", FactSpecsOf(fields), ""))
  {
    var names := SortedSet(fields.Keys);
    forall i, j | 0 <= i < j < |names| ensures names[i] != names[j] { AscendingDistinct(names, i, j); }
  }

  ghost predicate FieldsSnake(fields: Fields) {
    forall f :: f in fields ==> SnakeCase(f)
  }

  lemma {:induction false} FieldsStaySnake(fields: Fields, cs: seq<Condition>)
    requires FieldsSnake(fields) && FieldsAfter(fields, cs).Some? && forall c :: c in cs ==> SnakeCase(c.field)
    ensures FieldsSnake(FieldsAfter(fields, cs).value)
  {
    if cs != [] {
      assert cs == cs[..|cs| - 1] + [cs[|cs| - 1]];
      FieldsStaySnake(fields, cs[..|cs| - 1]);
    }
  }

  lemma {:induction false} VocabularySnake(ps: seq<Policy>, w: string)
    requires VocabularyOf(ps).Some? && forall p :: p in ps ==> ValidPolicy(p)
    ensures FieldsSnake(FieldsOf(VocabularyOf(ps).value, w))
  {
    if ps != [] {
      var front, p := ps[..|ps| - 1], ps[|ps| - 1];
      assert ps == front + [p];
      VocabularySnake(front, w);
      VocabularySnake(front, p.workflow);
      assert ValidPolicy(p);
      forall c | c in p.conditions ensures SnakeCase(c.field) { assert ValidCondition(c); }
      FieldsStaySnake(FieldsOf(VocabularyOf(front).value, p.workflow), p.conditions);
    }
  }

  lemma InferredWorkflowsValid(ps: seq<Policy>, w: WorkflowSpec)
    requires VocabularyOf(ps).Some? && (forall p :: p in ps ==> ValidPolicy(p))
             && w in WorkflowSpecsOf(VocabularyOf(ps).value)
    ensures ValidWorkflow(w)
  {
    hide ValidPolicy, SnakeCase;
    var v := VocabularyOf(ps).value;
    var names := SortedSet(v.Keys);
    var i :| 0 <= i < |names| && WorkflowSpecsOf(v)[i] == w;
    assert names[i] in names;
    var fields := v[names[i]];
    VocabularySnake(ps, names[i]);
    InferredFactsUnique(fields);
    forall f | f in w.facts ensures ValidFact(f) {
      var j :| 0 <= j < |w.facts| && w.facts[j] == f;
      assert SortedSet(fields.Keys)[j] in SortedSet(fields.Keys);
    }
  }

  /** Every condition's field is declared, at its type, by its policy's inferred workflow. */
  lemma InferredDeclares(ps: seq<Policy>, p: Policy, c: Condition)
    requires VocabularyOf(ps).Some? && p in ps && c in p.conditions
    ensures var w := WorkflowNamed(WorkflowSpecsOf(VocabularyOf(ps).value), p.workflow);
            w.Some? && ConditionDeclared(c, w.value)
  {
    var v := VocabularyOf(ps).value;
    VocabularyNames(ps, p.workflow);
    assert UsedIn(p.conditions, c.field, c.valueType) && Uses(ps, p.workflow, c.field, c.valueType);
    VocabularyHas(ps, p.workflow, c.field, c.valueType);
    InferredWorkflow(v, p.workflow);
    InferredFact(v[p.workflow], c.field);
  }

  ghost function AssembledBundle(company: string, ps: seq<Policy>): Bundle
    requires VocabularyOf(ps).Some?
  {
    Bundle("1", company, WorkflowSpecsOf(VocabularyOf(ps).value), ps)
  }

  lemma InferredPlaces(company: string, ps: seq<Policy>, p: Policy)
    requires VocabularyOf(ps).Some? && p in ps
    ensures PolicyPlaced(p, AssembledBundle(company, ps)) <==> OverridesKnown(p, ps)
  {
    hide ConditionDeclared;
    var v := VocabularyOf(ps).value;
    VocabularyNames(ps, p.workflow);
    InferredWorkflow(v, p.workflow);
    forall c | c in p.conditions ensures ConditionDeclared(c, WorkflowNamed(WorkflowSpecsOf(v), p.workflow).value) {
      InferredDeclares(ps, p, c);
    }
  }

  /** Main result: an assembled bundle can fail integrity only on its policies' own ids and overrides. */
  lemma AssemblyFailsOnlyOnIdsAndOverrides(company: string, ps: seq<Policy>)
    requires VocabularyOf(ps).Some? && forall p :: p in ps ==> ValidPolicy(p)
    ensures ValidBundle(AssembledBundle(company, ps)) <==>
              DistinctIds(ps) && (forall p :: p in ps ==> OverridesKnown(p, ps)) && AcyclicOverrides(ps)
  {
    hide ValidPolicy, ValidWorkflow, OverridesKnown, PolicyPlaced, AcyclicOverrides, DistinctIds;
    var b := AssembledBundle(company, ps);
    forall w | w in b.workflows ensures ValidWorkflow(w) { InferredWorkflowsValid(ps, w); }
    InferredUnique(VocabularyOf(ps).value);
    forall p | p in ps ensures PolicyPlaced(p, b) <==> OverridesKnown(p, ps) { InferredPlaces(company, ps, p); }
  }

  // ------------------------------------------------------------------ order does not matter

  lemma SameUses(ps: seq<Policy>, qs: seq<Policy>, w: string, f: string, t: ValueType)
    requires (forall p :: p in ps <==> p in qs) && Uses(ps, w, f, t)
    ensures Uses(qs, w, f, t)
  {
    var p :| p in ps && p.workflow == w && UsedIn(p.conditions, f, t);
    assert p in qs;
  }

  lemma ClashIgnoresOrder(ps: seq<Policy>, qs: seq<Policy>)
    requires forall p :: p in ps <==> p in qs
    ensures TypeClash(ps) ==> TypeClash(qs)
  {
    if TypeClash(ps) {
      var w, f, t, u :| Uses(ps, w, f, t) && Uses(ps, w, f, u) && t != u;
      SameUses(ps, qs, w, f, t);
      SameUses(ps, qs, w, f, u);
    }
  }

  lemma SameFields(ps: seq<Policy>, qs: seq<Policy>, w: string)
    requires (forall p :: p in ps <==> p in qs) && VocabularyOf(ps).Some? && VocabularyOf(qs).Some?
    ensures FieldsOf(VocabularyOf(ps).value, w) == FieldsOf(VocabularyOf(qs).value, w)
  {
    var a, b := FieldsOf(VocabularyOf(ps).value, w), FieldsOf(VocabularyOf(qs).value, w);
    forall f, t ensures Has(a, f, t) <==> Has(b, f, t) {
      VocabularyHas(ps, w, f, t);
      VocabularyHas(qs, w, f, t);
      if Uses(ps, w, f, t) { SameUses(ps, qs, w, f, t); }
      if Uses(qs, w, f, t) { SameUses(qs, ps, w, f, t); }
    }
    forall f ensures f in a <==> f in b {
      assert f in a ==> Has(a, f, a[f]) && Has(b, f, a[f]);
      assert f in b ==> Has(b, f, b[f]) && Has(a, f, b[f]);
    }
    forall f | f in a ensures a[f] == b[f] { assert Has(a, f, a[f]); }
  }

  lemma VocabularyIgnoresOrder(ps: seq<Policy>, qs: seq<Policy>)
    requires forall p :: p in ps <==> p in qs
    ensures VocabularyOf(ps) == VocabularyOf(qs)
  {
    FailsExactlyOnClash(ps);
    FailsExactlyOnClash(qs);
    ClashIgnoresOrder(ps, qs);
    ClashIgnoresOrder(qs, ps);
    if VocabularyOf(ps).Some? {
      var a, b := VocabularyOf(ps).value, VocabularyOf(qs).value;
      forall w ensures (w in a <==> w in b) && FieldsOf(a, w) == FieldsOf(b, w) {
        VocabularyNames(ps, w);
        VocabularyNames(qs, w);
        SameFields(ps, qs, w);
      }
      forall w | w in a ensures a[w] == b[w] { assert FieldsOf(a, w) == FieldsOf(b, w); }
      assert a == b;
    }
  }

  /** Main result: the content address of an assembled bundle does not depend on the order of the drafts. */
  lemma AssembledHashIgnoresOrder(digest: Content -> string, company: string, ps: seq<Policy>, qs: seq<Policy>)
    requires (forall p :: p in ps <==> p in qs) && DistinctIds(ps) && DistinctIds(qs) && VocabularyOf(ps).Some?
    ensures VocabularyOf(qs).Some?
    ensures ContentHash(digest, AssembledBundle(company, ps)) == ContentHash(digest, AssembledBundle(company, qs))
  {
    VocabularyIgnoresOrder(ps, qs);
    HashIgnoresOrderAndCompany(digest, AssembledBundle(company, ps), AssembledBundle(company, qs));
  }

  // ------------------------------------------------------------------ what a reader of the bundle sees

  /** The spec declares exactly the fields the policies' conditions use, each at its type, by ascending name,
      with no default and no description. */
  ghost predicate DeclaresUsed(ps: seq<Policy>, w: WorkflowSpec) {
    && w.description == ""
    && (forall i, j :: 0 <= i < j < |w.facts| ==> Less(w.facts[i].name, w.facts[j].name))
    && (forall f :: f in w.facts ==>
          f.description == "" && f.default == None && ComparedIn(ps, w.name, f.name, f.valueType))
    && forall n, t :: ComparedIn(ps, w.name, n, t) ==> FactSpec(n, t, "", None) in w.facts
  }

  /** Some policy of the workflow compares the field at that type. */
  ghost predicate ComparedIn(ps: seq<Policy>, workflow: string, field: string, t: ValueType) {
    exists p, c :: p in ps && p.workflow == workflow && c in p.conditions && c.field == field && c.valueType == t
  }

  /** One spec per workflow of the policies, by ascending name. */
  ghost predicate SpecsAccounted(ps: seq<Policy>, ws: seq<WorkflowSpec>) {
    && (forall i, j :: 0 <= i < j < |ws| ==> Less(ws[i].name, ws[j].name))
    && (forall p :: p in ps ==> exists w :: w in ws && w.name == p.workflow)
    && forall w :: w in ws ==> (exists p :: p in ps && p.workflow == w.name) && DeclaresUsed(ps, w)
  }

  lemma SpecIn(fields: Fields, f: string)
    requires f in fields
    ensures FactSpec(f, fields[f], "", None) in FactSpecsOf(fields)
  {
    var names := SortedSet(fields.Keys);
    assert f in names;
    var i :| 0 <= i < |names| && names[i] == f;
    assert FactSpecsOf(fields)[i] == FactSpec(f, fields[f], "", None);
  }

  lemma SpecFrom(fields: Fields, f: FactSpec)
    requires f in FactSpecsOf(fields)
    ensures f.name in fields && f == FactSpec(f.name, fields[f.name], "", None)
  {
    var names := SortedSet(fields.Keys);
    var i :| 0 <= i < |names| && FactSpecsOf(fields)[i] == f;
    assert names[i] in names;
  }

  lemma SpecDeclaresUsed(ps: seq<Policy>, w: string)
    requires VocabularyOf(ps).Some? && w in VocabularyOf(ps).value
    ensures DeclaresUsed(ps, WorkflowSpec(w, FactSpecsOf(VocabularyOf(ps).value[w]), ""))
  {
    hide Less;
    var fields := VocabularyOf(ps).value[w];
    var spec, names := WorkflowSpec(w, FactSpecsOf(fields), ""), SortedSet(fields.Keys);
    forall i, j | 0 <= i < j < |spec.facts| ensures Less(spec.facts[i].name, spec.facts[j].name) {
      assert Less(names[i], names[j]);
    }
    forall f | f in spec.facts
      ensures f.description == "" && f.default == None && ComparedIn(ps, w, f.name, f.valueType)
    {
      SpecFrom(fields, f);
      VocabularyHas(ps, w, f.name, f.valueType);
      var p :| p in ps && p.workflow == w && UsedIn(p.conditions, f.name, f.valueType);
      var c :| c in p.conditions && c.field == f.name && c.valueType == f.valueType;
    }
    forall n, t | ComparedIn(ps, w, n, t) ensures FactSpec(n, t, "", None) in spec.facts {
      var p, c :| p in ps && p.workflow == w && c in p.conditions && c.field == n && c.valueType == t;
      assert UsedIn(p.conditions, n, t) && Uses(ps, w, n, t);
      VocabularyHas(ps, w, n, t);
      SpecIn(fields, n);
    }
  }

  /** Main result: what inference declares, told without its loops. */
  lemma InferenceIsAccounted(ps: seq<Policy>)
    requires VocabularyOf(ps).Some?
    ensures SpecsAccounted(ps, WorkflowSpecsOf(VocabularyOf(ps).value))
  {
    hide DeclaresUsed, Less, FactSpecsOf;
    var v := VocabularyOf(ps).value;
    var names, ws := SortedSet(v.Keys), WorkflowSpecsOf(v);
    forall w | w in ws ensures (exists p :: p in ps && p.workflow == w.name) && DeclaresUsed(ps, w) {
      var i :| 0 <= i < |ws| && ws[i] == w;
      assert names[i] in names;
      VocabularyNames(ps, names[i]);
      SpecDeclaresUsed(ps, names[i]);
    }
    forall p | p in ps ensures exists w :: w in ws && w.name == p.workflow {
      VocabularyNames(ps, p.workflow);
      assert p.workflow in names;
      var i :| 0 <= i < |names| && names[i] == p.workflow;
      assert ws[i] in ws;
    }
  }

  // ------------------------------------------------------------------ the loops

  /** The inner loop of `_infer_workflows`. */
  method AddConditions(fields: Fields, cs: seq<Condition>) returns (r: Option<Fields>)
    ensures r == FieldsAfter(fields, cs)
  {
    var facts := fields;
    for j := 0 to |cs|
      invariant FieldsAfter(fields, cs[..j]) == Some(facts)
    {
      var c := cs[j];
      assert cs[..j + 1][..j] == cs[..j];
      if c.field in facts && facts[c.field] != c.valueType {
        NoneStays(fields, cs, j + 1);
        return None;
      }
      facts := facts[c.field := c.valueType];
    }
    assert cs[..|cs|] == cs;
    r := Some(facts);
  }

  lemma {:induction false} NoneStays(fields: Fields, cs: seq<Condition>, n: nat)
    requires n <= |cs| && FieldsAfter(fields, cs[..n]).None?
    ensures FieldsAfter(fields, cs).None?
  {
    if n == |cs| {
      assert cs[..n] == cs;
    } else {
      assert cs[..|cs| - 1][..n] == cs[..n];
      NoneStays(fields, cs[..|cs| - 1], n);
    }
  }

  lemma {:induction false} NoVocabularyStays(ps: seq<Policy>, n: nat)
    requires n <= |ps| && VocabularyOf(ps[..n]).None?
    ensures VocabularyOf(ps).None?
  {
    if n == |ps| {
      assert ps[..n] == ps;
    } else {
      assert ps[..|ps| - 1][..n] == ps[..n];
      NoVocabularyStays(ps[..|ps| - 1], n);
    }
  }

  /** `sorted` of a dictionary's keys. */
  method SortedKeys<V>(m: map<string, V>) returns (xs: seq<string>)
    ensures xs == SortedSet(m.Keys)
  {
    xs := [];
    var todo := m.Keys;
    while todo != {}
      invariant todo <= m.Keys && Ascending(xs)
      invariant forall x :: x in xs <==> x in m.Keys && x !in todo
      decreases todo
    {
      var k :| k in todo;
      xs := Insert(k, xs);
      todo := todo - {k};
    }
    AscendingUnique(xs, SortedSet(m.Keys));
  }

  method SpecOf(name: string, fields: Fields) returns (w: WorkflowSpec)
    ensures w == WorkflowSpec(name, FactSpecsOf(fields), "")
  {
    var names := SortedKeys(fields);
    var facts: seq<FactSpec> := [];
    ghost var all := FactSpecsOf(fields);
    for i := 0 to |names|
      invariant |all| == |names| && facts == all[..i]
    {
      assert names[i] in names && all[i] == FactSpec(names[i], fields[names[i]], "", None);
      facts := facts + [FactSpec(names[i], fields[names[i]], "", None)];
    }
    w := WorkflowSpec(name, facts, "");
  }

  lemma SpecAt(v: Vocabulary, i: nat)
    requires i < |SortedSet(v.Keys)|
    ensures var name := SortedSet(v.Keys)[i];
            name in v && WorkflowSpecsOf(v)[i] == WorkflowSpec(name, FactSpecsOf(v[name]), "")
  {
    assert SortedSet(v.Keys)[i] in SortedSet(v.Keys);
  }

  /** The list of specs `_infer_workflows` returns. */
  method SpecsOf(v: Vocabulary) returns (ws: seq<WorkflowSpec>)
    ensures ws == WorkflowSpecsOf(v)
  {
    hide FactSpecsOf, WorkflowSpecsOf, SortedSet;
    var names := SortedKeys(v);
    ws := [];
    ghost var all := WorkflowSpecsOf(v);
    for i := 0 to |names|
      invariant |all| == |names| && |ws| == i && forall k :: 0 <= k < i ==> ws[k] == all[k]
    {
      SpecAt(v, i);
      var w := SpecOf(names[i], v[names[i]]);
      ws := ws + [w];
    }
  }

  /** `_infer_workflows`: None is its AssembleError. */
  method InferWorkflows(ps: seq<Policy>) returns (r: Option<seq<WorkflowSpec>>)
    ensures r.None? <==> TypeClash(ps)
    ensures r.Some? ==> VocabularyOf(ps).Some? && r.value == WorkflowSpecsOf(VocabularyOf(ps).value)
    ensures r.Some? ==> SpecsAccounted(ps, r.value)
  {
    hide SpecsAccounted, TypeClash, FieldsAfter, WorkflowSpecsOf;
    var byWorkflow: Vocabulary := map[];
    FailsExactlyOnClash(ps);
    if VocabularyOf(ps).Some? { InferenceIsAccounted(ps); }
    for i := 0 to |ps|
      invariant VocabularyOf(ps[..i]) == Some(byWorkflow)
    {
      var p := ps[i];
      assert ps[..i + 1][..i] == ps[..i];
      var fields := AddConditions(if p.workflow in byWorkflow then byWorkflow[p.workflow] else map[], p.conditions);
      if fields.None? {
        NoVocabularyStays(ps, i + 1);
        return None;
      }
      byWorkflow := byWorkflow[p.workflow := fields.value];
    }
    assert ps[..|ps|] == ps;
    var ws := SpecsOf(byWorkflow);
    r := Some(ws);
  }
}
