/** `Bundle._integrity` (backend/bundle/schema.py): a bundle is accepted exactly when
    the `Integrity` predicate holds. */
module BundleIntegrity {
  import opened Options
  import opened Text
  import opened Schema
  import opened Overrides

  datatype IntegrityError =
    | DuplicateWorkflows
    | DuplicatePolicies
    | UnknownWorkflow(policy: string)
    | UnknownTarget(policy: string, target: string)
    | UndeclaredField(policy: string, field: string)
    | TypeMismatch(policy: string, field: string)
    | CrossWorkflow(policy: string, target: string)
    | OverrideCycle(path: seq<string>)

  predicate NoRepeats(xs: seq<string>) {
    forall i, j :: 0 <= i < j < |xs| ==> xs[i] != xs[j]
  }

  /** `len(set(xs)) == len(xs)` is the test for repeats. */
  lemma {:induction false} SetSizeDetectsRepeats(xs: seq<string>)
    ensures |Elements(xs)| <= |xs|
    ensures |Elements(xs)| == |xs| <==> NoRepeats(xs)
  {
    if xs != [] {
      var front, last := xs[..|xs| - 1], xs[|xs| - 1];
      SetSizeDetectsRepeats(front);
      assert xs == front + [last];
      assert Elements(xs) == Elements(front) + {last};
      assert NoRepeats(xs) <==> NoRepeats(front) && last !in front;
    }
  }

  function GraphOf(ps: seq<Policy>): Graph {
    if ps == [] then map[]
    else GraphOf(ps[..|ps| - 1])[ps[|ps| - 1].id := Elements(ps[|ps| - 1].overrides)]
  }

  lemma {:induction false} GraphKeys(ps: seq<Policy>)
    ensures forall n :: n in GraphOf(ps) <==> exists p :: p in ps && p.id == n
  {
    if ps != [] {
      GraphKeys(ps[..|ps| - 1]);
      assert ps == ps[..|ps| - 1] + [ps[|ps| - 1]];
    }
  }

  lemma {:induction false} GraphEdges(ps: seq<Policy>, p: Policy)
    requires DistinctIds(ps) && p in ps
    ensures p.id in GraphOf(ps) && GraphOf(ps)[p.id] == Elements(p.overrides)
  {
    var front, last := ps[..|ps| - 1], ps[|ps| - 1];
    assert ps == front + [last];
    var i :| 0 <= i < |ps| && ps[i] == p;
    if i < |ps| - 1 {
      DistinctAt(ps, i, |ps| - 1);
      DistinctPrefix(ps, |ps| - 1);
      assert front[i] == p;
      GraphEdges(front, p);
    }
  }

  /** A rank of the graph is a rank of the policies, and the other way round. */
  lemma RanksAgree(ps: seq<Policy>, rank: map<string, nat>)
    requires DistinctIds(ps)
    ensures Ranks(GraphOf(ps), rank) ==> RanksOverrides(ps, rank)
    ensures RanksOverrides(ps, rank) ==> Ranks(GraphOf(ps), map n | n in GraphOf(ps) && n in rank :: rank[n])
  {
    var g := GraphOf(ps);
    GraphKeys(ps);
    forall p | p in ps ensures p.id in g && g[p.id] == Elements(p.overrides) { GraphEdges(ps, p); }
    if RanksOverrides(ps, rank) {
      var r: map<string, nat> := map n | n in g && n in rank :: rank[n];
      assert r.Keys == g.Keys;
      forall n, t | n in g && t in g[n] && t in g ensures r[t] < r[n] {
        var p :| p in ps && p.id == n;
        assert t in p.overrides;
      }
    }
  }

  lemma AcyclicAgree(ps: seq<Policy>)
    requires DistinctIds(ps) && AcyclicOverrides(ps)
    ensures Acyclic(GraphOf(ps))
  {
    var rank :| RanksOverrides(ps, rank);
    RanksAgree(ps, rank);
    var r: map<string, nat> := map n | n in GraphOf(ps) && n in rank :: rank[n];
    forall w ensures !Cycle(GraphOf(ps), w) { RankedHasNoCycle(GraphOf(ps), r, w); }
  }

  /** `_assert_acyclic_overrides`: raises exactly on a cycle, and shows one. */
  method AssertAcyclicOverrides(policies: seq<Policy>) returns (path: Option<seq<string>>)
    requires DistinctIds(policies)
    requires forall p, t :: p in policies && t in p.overrides ==> exists q :: q in policies && q.id == t
    ensures path.None? <==> AcyclicOverrides(policies)
    ensures path.None? <==> Acyclic(GraphOf(policies))
    ensures path.Some? ==> ContainsCycle(GraphOf(policies), path.value)
  {
    var g := GraphOf(policies);
    GraphKeys(policies);
    forall n, t | n in g && t in g[n] ensures t in g {
      var p :| p in policies && p.id == n;
      GraphEdges(policies, p);
    }
    var check := new CycleCheck(g);
    path := check.Run();
    if path.None? {
      RanksAgree(policies, check.rank);
    } else if AcyclicOverrides(policies) {
      AcyclicAgree(policies);
    }
  }

  /** The fault of policy `p` that an error reports. */
  ghost predicate FaultOf(p: Policy, b: Bundle, err: IntegrityError) {
    match err
    case UnknownWorkflow(id) => p.id == id && WorkflowNamed(b.workflows, p.workflow).None?
    case UnknownTarget(id, t) => p.id == id && t in p.overrides && t !in IdsOf(b.policies)
    case UndeclaredField(id, f) => p.id == id && FieldType(b, p, f).None?
        && exists c :: c in p.conditions && c.field == f
    case TypeMismatch(id, f) =>
      && p.id == id && FieldType(b, p, f).Some?
      && exists c :: c in p.conditions && c.field == f && FieldType(b, p, f) != Some(c.valueType)
    case CrossWorkflow(id, t) => p.id == id && t in p.overrides
        && exists q :: q in b.policies && q.id == t && q.workflow != p.workflow
    case _ => false
  }

  /** The declared type of a field in the policy's workflow. */
  function FieldType(b: Bundle, p: Policy, field: string): Option<ValueType> {
    var w := WorkflowNamed(b.workflows, p.workflow);
    if w.None? then None else
    var spec := FactNamed(w.value.facts, field);
    if spec.None? then None else Some(spec.value.valueType)
  }

  /** An error always reports a real fault of the bundle. */
  ghost predicate Reports(b: Bundle, err: IntegrityError) {
    match err
    case DuplicateWorkflows => !UniqueWorkflows(b.workflows)
    case DuplicatePolicies => !DistinctIds(b.policies)
    case OverrideCycle(path) => ContainsCycle(GraphOf(b.policies), path)
    case _ => exists p :: p in b.policies && FaultOf(p, b, err)
  }

  /** The policy's faults are reported in this order: its workflow, the first unknown override target, the
      first condition whose field is undeclared or of another type. */
  ghost predicate FirstFault(p: Policy, b: Bundle, err: IntegrityError) {
    if forall w :: w in b.workflows ==> w.name != p.workflow then err == UnknownWorkflow(p.id)
    else if exists i :: FirstUnknown(p, b, i) then
      exists i :: FirstUnknown(p, b, i) && err == UnknownTarget(p.id, p.overrides[i])
    else
      exists i :: FirstMisfit(p, b, i) &&
                  var field := p.conditions[i].field;
                  err == (if FieldType(b, p, field) == None then UndeclaredField(p.id, field)
                          else TypeMismatch(p.id, field))
  }

  predicate Known(ps: seq<Policy>, id: string) {
    exists q :: q in ps && q.id == id
  }

  ghost predicate FirstUnknown(p: Policy, b: Bundle, i: int) {
    && 0 <= i < |p.overrides| && !Known(b.policies, p.overrides[i])
    && forall k :: 0 <= k < i ==> Known(b.policies, p.overrides[k])
  }

  ghost predicate FirstMisfit(p: Policy, b: Bundle, i: int) {
    && 0 <= i < |p.conditions| && FieldType(b, p, p.conditions[i].field) != Some(p.conditions[i].valueType)
    && forall k :: 0 <= k < i ==> FieldType(b, p, p.conditions[k].field) == Some(p.conditions[k].valueType)
  }

  lemma KnownExactly(ps: seq<Policy>, id: string)
    ensures Known(ps, id) <==> id in IdsOf(ps)
  {
  }

  lemma UnknownHere(p: Policy, b: Bundle, i: nat)
    requires i < |p.overrides| && p.overrides[i] !in IdsOf(b.policies)
    requires forall k :: 0 <= k < i ==> p.overrides[k] in IdsOf(b.policies)
    ensures FirstUnknown(p, b, i)
  {
    hide Known, IdsOf;
    forall k | 0 <= k <= i ensures Known(b.policies, p.overrides[k]) <==> k < i {
      KnownExactly(b.policies, p.overrides[k]);
    }
  }

  lemma NoneUnknown(p: Policy, b: Bundle)
    requires forall k :: 0 <= k < |p.overrides| ==> p.overrides[k] in IdsOf(b.policies)
    ensures forall i :: !FirstUnknown(p, b, i)
  {
    hide Known, IdsOf;
    forall i | 0 <= i < |p.overrides| ensures !FirstUnknown(p, b, i) { KnownExactly(b.policies, p.overrides[i]); }
  }

  lemma MisfitHere(p: Policy, b: Bundle, w: WorkflowSpec, i: nat)
    requires WorkflowNamed(b.workflows, p.workflow) == Some(w) && i < |p.conditions|
    requires !ConditionDeclared(p.conditions[i], w)
    requires forall k :: 0 <= k < i ==> ConditionDeclared(p.conditions[k], w)
    ensures FirstMisfit(p, b, i)
  {
    forall k | 0 <= k < i ensures FieldType(b, p, p.conditions[k].field) == Some(p.conditions[k].valueType) { }
  }

  /** One round of the policy loop: workflow, override targets, condition fields. */
  method CheckPolicy(p: Policy, b: Bundle, ids: set<string>) returns (err: Option<IntegrityError>)
    requires ids == IdsOf(b.policies)
    ensures err.Some? ==> FaultOf(p, b, err.value)
    ensures err.Some? ==> FirstFault(p, b, err.value)
    ensures err.None? <==>
            && WorkflowNamed(b.workflows, p.workflow).Some?
            && (forall t :: t in p.overrides ==> t in ids)
            && (forall c :: c in p.conditions ==>
                  ConditionDeclared(c, WorkflowNamed(b.workflows, p.workflow).value))
  {
    hide FirstUnknown, FirstMisfit;
    var wf := WorkflowNamed(b.workflows, p.workflow);
    if wf.None? { return Some(UnknownWorkflow(p.id)); }
    for i := 0 to |p.overrides|
      invariant forall k :: 0 <= k < i ==> p.overrides[k] in ids
    {
      if p.overrides[i] !in ids {
        UnknownHere(p, b, i);
        return Some(UnknownTarget(p.id, p.overrides[i]));
      }
    }
    NoneUnknown(p, b);
    for i := 0 to |p.conditions|
      invariant forall k :: 0 <= k < i ==> ConditionDeclared(p.conditions[k], wf.value)
    {
      var c := p.conditions[i];
      assert c in p.conditions;
      var spec := FactNamed(wf.value.facts, c.field);
      if !ConditionDeclared(c, wf.value) { MisfitHere(p, b, wf.value, i); }
      if spec.None? { return Some(UndeclaredField(p.id, c.field)); }
      if spec.value.valueType != c.valueType { return Some(TypeMismatch(p.id, c.field)); }
    }
    err := None;
  }

  /** The second policy loop: overrides stay within one workflow. */
  method CheckSameWorkflow(p: Policy, b: Bundle) returns (err: Option<IntegrityError>)
    requires DistinctIds(b.policies)
    requires forall t :: t in p.overrides ==> exists q :: q in b.policies && q.id == t
    ensures err.Some? ==> FaultOf(p, b, err.value) && err.value.CrossWorkflow?
    ensures err.None? <==> OverridesKnown(p, b.policies)
  {
    for i := 0 to |p.overrides|
      invariant forall k :: 0 <= k < i ==>
        exists q :: q in b.policies && q.id == p.overrides[k] && q.workflow == p.workflow
    {
      var target := p.overrides[i];
      assert target in p.overrides;
      var q := ById(b.policies, target);
      if q.workflow != p.workflow {
        forall r | r in b.policies && r.id == target ensures r == q { SameIdSamePolicy(b.policies, q, r); }
        return Some(CrossWorkflow(p.id, target));
      }
    }
    err := None;
  }

  function WorkflowNames(ws: seq<WorkflowSpec>): (r: seq<string>)
    ensures |r| == |ws| && forall i :: 0 <= i < |ws| ==> r[i] == ws[i].name
  {
    if ws == [] then [] else [ws[0].name] + WorkflowNames(ws[1..])
  }

  lemma NamesRepeat(ws: seq<WorkflowSpec>)
    ensures NoRepeats(WorkflowNames(ws)) <==> UniqueWorkflows(ws)
  {
    var names := WorkflowNames(ws);
    if NoRepeats(names) {
      forall i, j | 0 <= i < j < |ws| ensures ws[i].name != ws[j].name { assert names[i] != names[j]; }
    }
  }

  /** The loop over policies that checks workflows, targets and condition fields. */
  method CheckPolicies(b: Bundle) returns (err: Option<IntegrityError>)
    ensures err.Some? ==> Reports(b, err.value) && !Integrity(b)
    ensures err.Some? ==> exists i :: 0 <= i < |b.policies| && FirstFault(b.policies[i], b, err.value) &&
                                      forall k :: 0 <= k < i ==> WellPlaced(b.policies[k], b, IdsOf(b.policies))
    ensures err.None? ==> forall p :: p in b.policies ==> WellPlaced(p, b, IdsOf(b.policies))
  {
    for i := 0 to |b.policies|
      invariant forall k :: 0 <= k < i ==> WellPlaced(b.policies[k], b, IdsOf(b.policies))
    {
      err := CheckPolicy(b.policies[i], b, IdsOf(b.policies));
      if err.Some? {
        assert !PolicyPlaced(b.policies[i], b);
        return;
      }
    }
    err := None;
  }

  /** The loop over policies that keeps overrides inside one workflow. */
  method CheckWorkflows(b: Bundle) returns (err: Option<IntegrityError>)
    requires DistinctIds(b.policies)
    requires forall p :: p in b.policies ==> WellPlaced(p, b, IdsOf(b.policies))
    ensures err.Some? ==> Reports(b, err.value) && !Integrity(b) && err.value.CrossWorkflow?
    ensures err.None? ==> forall p :: p in b.policies ==> PolicyPlaced(p, b)
  {
    for i := 0 to |b.policies|
      invariant forall k :: 0 <= k < i ==> PolicyPlaced(b.policies[k], b)
    {
      assert WellPlaced(b.policies[i], b, IdsOf(b.policies));
      err := CheckSameWorkflow(b.policies[i], b);
      if err.Some? {
        assert !PolicyPlaced(b.policies[i], b);
        return;
      }
    }
    err := None;
  }

  /** `Bundle._integrity` in its own order: names, ids, placement, workflows, cycles. */
  method Validate(b: Bundle) returns (err: Option<IntegrityError>)
    ensures err.None? <==> Integrity(b)
    ensures err.Some? ==> Reports(b, err.value)
    ensures !UniqueWorkflows(b.workflows) <==> err == Some(DuplicateWorkflows)
    ensures UniqueWorkflows(b.workflows) && !DistinctIds(b.policies) <==> err == Some(DuplicatePolicies)
    ensures err.Some? && (err.value.CrossWorkflow? || err.value.OverrideCycle?)
            ==> forall p :: p in b.policies ==> WellPlaced(p, b, IdsOf(b.policies))
    ensures err.Some? && err.value.OverrideCycle? ==> forall p :: p in b.policies ==> PolicyPlaced(p, b)
  {
    var names := WorkflowNames(b.workflows);
    SetSizeDetectsRepeats(names);
    NamesRepeat(b.workflows);
    if |Elements(names)| != |b.workflows| { return Some(DuplicateWorkflows); }

    if |IdsOf(b.policies)| != |b.policies| { return Some(DuplicatePolicies); }

    err := CheckPolicies(b);
    if err.Some? { return; }
    err := CheckWorkflows(b);
    if err.Some? { return; }
    var path := AssertAcyclicOverrides(b.policies);
    err := if path.Some? then Some(OverrideCycle(path.value)) else None;
  }

  ghost predicate WellPlaced(p: Policy, b: Bundle, ids: set<string>) {
    && WorkflowNamed(b.workflows, p.workflow).Some?
    && (forall t :: t in p.overrides ==> t in ids)
    && (forall c :: c in p.conditions ==>
          ConditionDeclared(c, WorkflowNamed(b.workflows, p.workflow).value))
  }
}
