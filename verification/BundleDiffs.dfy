/** The structural diff of two bundles (backend/bundle/diff.py). */
module BundleDiffs {
  import opened Options
  import opened Schema
  import opened Evaluator
  import opened Likeness
  import opened Canonical

  datatype Field = EffectField | PriorityField | ConditionsField | AuthorityField | EvidenceField
                 | OverridesField | AckField | RationaleField | WorkflowField

  const COMPARE_FIELDS: seq<Field> := [EffectField, PriorityField, ConditionsField, AuthorityField, EvidenceField,
                                       OverridesField, AckField, RationaleField, WorkflowField]

  datatype PolicyChange =
    | Added(policyId: string, workflow: string, after: Policy)
    | Removed(policyId: string, workflow: string, before: Policy)
    | Modified(policyId: string, workflow: string, before: Policy, after: Policy, changedFields: seq<Field>)

  datatype BundleDiff = BundleDiff(fromHash: Option<string>, toHash: string, added: seq<PolicyChange>,
                                   removed: seq<PolicyChange>, modified: seq<PolicyChange>, unchangedCount: nat)

  /** `getattr(before, f) == getattr(after, f)`; scalars compare with Python's `==`. */
  predicate SameField(f: Field, p: Policy, q: Policy) {
    match f
    case EffectField => p.effect == q.effect
    case PriorityField => p.priority == q.priority
    case ConditionsField => AlikeConditionLists(p.conditions, q.conditions)
    case AuthorityField => p.authority == q.authority
    case EvidenceField => p.evidence == q.evidence
    case OverridesField => p.overrides == q.overrides
    case AckField => p.unconditionalAck == q.unconditionalAck
    case RationaleField => p.rationale == q.rationale
    case WorkflowField => p.workflow == q.workflow
  }

  /** Model equality of two policies. */
  predicate SamePolicy(p: Policy, q: Policy) {
    p.id == q.id && forall f :: f in COMPARE_FIELDS ==> SameField(f, p, q)
  }

  function Unequal(fields: seq<Field>, p: Policy, q: Policy): (r: seq<Field>)
    ensures forall f :: f in r <==> f in fields && !SameField(f, p, q)
  {
    if fields == [] then []
    else
      assert fields == [fields[0]] + fields[1..];
      (if SameField(fields[0], p, q) then [] else [fields[0]]) + Unequal(fields[1..], p, q)
  }

  /** `_changed_fields` */
  function ChangedFields(p: Policy, q: Policy): seq<Field> {
    Unequal(COMPARE_FIELDS, p, q)
  }

  predicate HasId(ps: seq<Policy>, id: string) {
    exists p :: p in ps && p.id == id
  }

  function AddedIn(before: seq<Policy>, after: seq<Policy>): (r: seq<PolicyChange>)
    ensures forall c :: c in r <==> exists p :: p in after && !HasId(before, p.id) && c == Added(p.id, p.workflow, p)
  {
    if after == [] then []
    else
      var p := after[0];
      assert after == [p] + after[1..];
      (if HasId(before, p.id) then [] else [Added(p.id, p.workflow, p)]) + AddedIn(before, after[1..])
  }

  function RemovedIn(before: seq<Policy>, after: seq<Policy>): (r: seq<PolicyChange>)
    ensures forall c :: c in r <==> exists p :: p in before && !HasId(after, p.id) && c == Removed(p.id, p.workflow, p)
  {
    if before == [] then []
    else
      var p := before[0];
      assert before == [p] + before[1..];
      (if HasId(after, p.id) then [] else [Removed(p.id, p.workflow, p)]) + RemovedIn(before[1..], after)
  }

  predicate IsModified(before: seq<Policy>, p: Policy) {
    HasId(before, p.id) && !SamePolicy(ById(before, p.id), p)
  }

  function ModificationOf(before: seq<Policy>, p: Policy): PolicyChange
    requires HasId(before, p.id)
  {
    var old_ := ById(before, p.id);
    Modified(p.id, p.workflow, old_, p, ChangedFields(old_, p))
  }

  function ModifiedIn(before: seq<Policy>, after: seq<Policy>): (r: seq<PolicyChange>)
    ensures forall c :: c in r <==> exists p :: p in after && IsModified(before, p) && c == ModificationOf(before, p)
  {
    if after == [] then []
    else
      var p := after[0];
      assert after == [p] + after[1..];
      (if IsModified(before, p) then [ModificationOf(before, p)] else []) + ModifiedIn(before, after[1..])
  }

  function UnchangedIn(before: seq<Policy>, after: seq<Policy>): nat {
    if after == [] then 0
    else (if HasId(before, after[0].id) && SamePolicy(ById(before, after[0].id), after[0]) then 1 else 0)
         + UnchangedIn(before, after[1..])
  }

  /** `diff_bundles` */
  function DiffBundles(digest: Content -> string, before: Option<Bundle>, after: Bundle): BundleDiff {
    var ps := if before.Some? then before.value.policies else [];
    BundleDiff(if before.Some? then Some(ContentHash(digest, before.value)) else None, ContentHash(digest, after),
               AddedIn(ps, after.policies), RemovedIn(ps, after.policies), ModifiedIn(ps, after.policies),
               UnchangedIn(ps, after.policies))
  }

  // ------------------------------------------------------------------ partition and rebuild

  /** Every policy of the after bundle is counted exactly once: added, modified or unchanged. */
  lemma {:induction false} DiffPartitions(before: seq<Policy>, after: seq<Policy>)
    ensures |AddedIn(before, after)| + |ModifiedIn(before, after)| + UnchangedIn(before, after) == |after|
  {
    if after != [] {
      DiffPartitions(before, after[1..]);
    }
  }

  lemma IdsHead(ps: seq<Policy>)
    requires ps != []
    ensures IdsOf(ps) == {ps[0].id} + IdsOf(ps[1..])
  {
    assert ps == [ps[0]] + ps[1..];
  }

  lemma HasIdIn(ps: seq<Policy>, id: string)
    ensures HasId(ps, id) <==> id in IdsOf(ps)
  {
  }

  /** Taking one new id off a set of ids. */
  lemma OneIdLess(ids: set<string>, rest: set<string>, id: string, others: set<string>)
    requires ids == {id} + rest && id !in rest
    ensures |ids - others| == |rest - others| + (if id in others then 0 else 1)
  {
    assert ids - others == if id in others then rest - others else {id} + (rest - others);
  }

  lemma {:induction false} RemovedCount(before: seq<Policy>, after: seq<Policy>)
    requires DistinctIds(before)
    ensures |RemovedIn(before, after)| == |IdsOf(before) - IdsOf(after)|
  {
    hide IdsOf, DistinctIds, HasId;
    if before == [] {
      NoIds(before, IdsOf(after));
    } else {
      DistinctSplit(before);
      RemovedCount(before[1..], after);
      IdsHead(before);
      HasIdIn(after, before[0].id);
      OneIdLess(IdsOf(before), IdsOf(before[1..]), before[0].id, IdsOf(after));
    }
  }

  lemma {:induction false} AddedCount(before: seq<Policy>, after: seq<Policy>)
    requires DistinctIds(after)
    ensures |AddedIn(before, after)| == |IdsOf(after) - IdsOf(before)|
  {
    hide IdsOf, DistinctIds, HasId;
    if after == [] {
      NoIds(after, IdsOf(before));
    } else {
      DistinctSplit(after);
      AddedCount(before, after[1..]);
      IdsHead(after);
      HasIdIn(before, after[0].id);
      OneIdLess(IdsOf(after), IdsOf(after[1..]), after[0].id, IdsOf(before));
    }
  }

  lemma NoIds(ps: seq<Policy>, others: set<string>)
    requires ps == []
    ensures |IdsOf(ps) - others| == 0
  {
    assert IdsOf(ps) - others == {};
  }

  /** Main result: the diff partitions the ids of both bundles: each before policy is removed, modified or
      unchanged, each after policy is added, modified or unchanged. */
  lemma DiffPartitionsBoth(before: seq<Policy>, after: seq<Policy>)
    requires DistinctIds(before) && DistinctIds(after)
    ensures |RemovedIn(before, after)| + |ModifiedIn(before, after)| + UnchangedIn(before, after) == |before|
    ensures |AddedIn(before, after)| + |ModifiedIn(before, after)| + UnchangedIn(before, after) == |after|
  {
    DiffPartitions(before, after);
    RemovedCount(before, after);
    AddedCount(before, after);
    var a, b := IdsOf(before), IdsOf(after);
    assert a == (a - b) + a * b && b == (b - a) + a * b;
    assert |a| == |a - b| + |a * b| && |b| == |b - a| + |a * b|;
  }

  function PolicyMap(ps: seq<Policy>): (m: map<string, Policy>)
    ensures forall id :: id in m <==> HasId(ps, id)
    ensures forall id :: id in m ==> m[id] in ps && m[id].id == id
  {
    if ps == [] then map[]
    else
      var front, last := ps[..|ps| - 1], ps[|ps| - 1];
      assert ps == front + [last];
      PolicyMap(front)[last.id := last]
  }

  /** The policy a change leaves under its id. */
  function LeavesIn(changes: seq<PolicyChange>, m: map<string, Policy>): map<string, Policy> {
    if changes == [] then m
    else
      var c := changes[|changes| - 1];
      var rest := LeavesIn(changes[..|changes| - 1], m);
      if c.Removed? then rest - {c.policyId} else rest[c.policyId := c.after]
  }

  lemma {:induction false} LeavesMeaning(changes: seq<PolicyChange>, m: map<string, Policy>, id: string)
    requires forall c :: c in changes ==> !c.Removed?
    ensures id in LeavesIn(changes, m) <==> id in m || exists c :: c in changes && c.policyId == id
    ensures (exists c :: c in changes && c.policyId == id) ==>
              exists c :: c in changes && c.policyId == id && LeavesIn(changes, m)[id] == c.after
    ensures (forall c :: c in changes ==> c.policyId != id) && id in m ==> LeavesIn(changes, m)[id] == m[id]
  {
    if changes != [] {
      var front, last := changes[..|changes| - 1], changes[|changes| - 1];
      assert changes == front + [last];
      assert last in changes;
      LeavesMeaning(front, m, id);
    }
  }

  lemma {:induction false} DropsMeaning(changes: seq<PolicyChange>, m: map<string, Policy>, id: string)
    requires forall c :: c in changes ==> c.Removed?
    ensures id in LeavesIn(changes, m) <==> id in m && forall c :: c in changes ==> c.policyId != id
    ensures id in LeavesIn(changes, m) ==> LeavesIn(changes, m)[id] == m[id]
  {
    if changes != [] {
      var front, last := changes[..|changes| - 1], changes[|changes| - 1];
      assert changes == front + [last];
      assert last in changes;
      DropsMeaning(front, m, id);
    }
  }

  /** Applying a diff to the before map. */
  function Apply(d: BundleDiff, m: map<string, Policy>): map<string, Policy> {
    LeavesIn(d.modified, LeavesIn(d.added, LeavesIn(d.removed, m)))
  }

  lemma SameAsItself(p: Policy)
    ensures SamePolicy(p, p)
  {
    forall c | c in p.conditions ensures AlikeConditions(c, c) {}
  }

  lemma MapIsById(ps: seq<Policy>, p: Policy)
    requires DistinctIds(ps) && p in ps
    ensures PolicyMap(ps)[p.id] == p && HasId(ps, p.id) && ById(ps, p.id) == p
  {
    SameIdSamePolicy(ps, PolicyMap(ps)[p.id], p);
    SameIdSamePolicy(ps, ById(ps, p.id), p);
  }

  lemma ModificationOnly(ps: seq<Policy>, qs: seq<Policy>, p: Policy)
    requires DistinctIds(qs) && p in qs
    ensures forall c :: c in ModifiedIn(ps, qs) && c.policyId == p.id
                        ==> IsModified(ps, p) && c == ModificationOf(ps, p)
    ensures forall c :: c in AddedIn(ps, qs) && c.policyId == p.id ==> !HasId(ps, p.id) && c.after == p
  {
    forall c | c in ModifiedIn(ps, qs) && c.policyId == p.id ensures IsModified(ps, p) && c == ModificationOf(ps, p) {
      var q :| q in qs && IsModified(ps, q) && c == ModificationOf(ps, q);
      SameIdSamePolicy(qs, p, q);
    }
    forall c | c in AddedIn(ps, qs) && c.policyId == p.id ensures !HasId(ps, p.id) && c.after == p {
      var q :| q in qs && !HasId(ps, q.id) && c == Added(q.id, q.workflow, q);
      SameIdSamePolicy(qs, p, q);
    }
  }

  /** After the removals and additions a policy of the after bundle has its before version,
      or itself when it is new. */
  lemma MiddleMap(ps: seq<Policy>, qs: seq<Policy>, p: Policy)
    requires DistinctIds(ps) && DistinctIds(qs) && p in qs
    ensures var m := LeavesIn(AddedIn(ps, qs), LeavesIn(RemovedIn(ps, qs), PolicyMap(ps)));
            p.id in m && m[p.id] == (if HasId(ps, p.id) then ById(ps, p.id) else p)
  {
    var m0 := PolicyMap(ps);
    var m1 := LeavesIn(RemovedIn(ps, qs), m0);
    DropsMeaning(RemovedIn(ps, qs), m0, p.id);
    LeavesMeaning(AddedIn(ps, qs), m1, p.id);
    ModificationOnly(ps, qs, p);
    if HasId(ps, p.id) {
      MapIsById(ps, ById(ps, p.id));
      assert forall c :: c in RemovedIn(ps, qs) ==> c.policyId != p.id;
    } else {
      assert Added(p.id, p.workflow, p) in AddedIn(ps, qs);
    }
  }

  lemma RebuildsKept(ps: seq<Policy>, qs: seq<Policy>, p: Policy)
    requires DistinctIds(ps) && DistinctIds(qs) && p in qs
    ensures var m := LeavesIn(ModifiedIn(ps, qs),
            LeavesIn(AddedIn(ps, qs), LeavesIn(RemovedIn(ps, qs), PolicyMap(ps))));
            p.id in m && SamePolicy(m[p.id], p)
  {
    var m2 := LeavesIn(AddedIn(ps, qs), LeavesIn(RemovedIn(ps, qs), PolicyMap(ps)));
    MiddleMap(ps, qs, p);
    LeavesMeaning(ModifiedIn(ps, qs), m2, p.id);
    ModificationOnly(ps, qs, p);
    SameAsItself(p);
    if IsModified(ps, p) { assert ModificationOf(ps, p) in ModifiedIn(ps, qs); }
  }

  lemma RebuildsOnly(ps: seq<Policy>, qs: seq<Policy>, id: string)
    requires id in LeavesIn(ModifiedIn(ps, qs), LeavesIn(AddedIn(ps, qs), LeavesIn(RemovedIn(ps, qs), PolicyMap(ps))))
    ensures HasId(qs, id)
  {
    var m0 := PolicyMap(ps);
    var m1 := LeavesIn(RemovedIn(ps, qs), m0);
    DropsMeaning(RemovedIn(ps, qs), m0, id);
    LeavesMeaning(AddedIn(ps, qs), m1, id);
    LeavesMeaning(ModifiedIn(ps, qs), LeavesIn(AddedIn(ps, qs), m1), id);
    if id in m1 {
      var p := m0[id];
      assert !HasId(qs, id) ==> Removed(p.id, p.workflow, p) in RemovedIn(ps, qs);
    }
  }

  /** The diff rebuilds the after map: same ids, and equal policies under each. */
  lemma DiffRebuilds(digest: Content -> string, before: Bundle, after: Bundle)
    requires DistinctIds(before.policies) && DistinctIds(after.policies)
    ensures var m := Apply(DiffBundles(digest, Some(before), after), PolicyMap(before.policies));
            && m.Keys == PolicyMap(after.policies).Keys
            && forall p :: p in after.policies ==> p.id in m && SamePolicy(m[p.id], p)
  {
    var ps, qs := before.policies, after.policies;
    var m := Apply(DiffBundles(digest, Some(before), after), PolicyMap(ps));
    forall p | p in qs ensures p.id in m && SamePolicy(m[p.id], p) { RebuildsKept(ps, qs, p); }
    forall id | id in m ensures HasId(qs, id) { RebuildsOnly(ps, qs, id); }
  }

  // ------------------------------------------------------------------ diffs that cannot flip

  const COSMETIC: set<Field> := {EvidenceField, AckField, RationaleField}

  predicate Touches(c: PolicyChange, workflow: string) {
    match c
    case Added(_, w, _) => w == workflow
    case Removed(_, w, _) => w == workflow
    case Modified(_, _, p, q, _) => p.workflow == workflow || q.workflow == workflow
  }

  /** The diff adds and removes nothing in the workflow and only rewrites provenance there. */
  ghost predicate CosmeticIn(d: BundleDiff, workflow: string) {
    && (forall c :: c in d.added ==> !Touches(c, workflow))
    && (forall c :: c in d.removed ==> !Touches(c, workflow))
    && (forall c :: c in d.modified && c.Modified? && Touches(c, workflow) ==>
        forall f :: f in c.changedFields ==> f in COSMETIC)
  }

  lemma CosmeticTwin(digest: Content -> string, before: Bundle, after: Bundle, workflow: string, p: Policy, q: Policy)
    requires DistinctIds(before.policies) && DistinctIds(after.policies)
    requires CosmeticIn(DiffBundles(digest, Some(before), after), workflow)
    requires p in before.policies && q in after.policies && p.id == q.id
    requires p.workflow == workflow || q.workflow == workflow
    ensures AlikePolicies(p, q)
  {
    MapIsById(before.policies, p);
    forall f | f in COMPARE_FIELDS && f !in COSMETIC ensures SameField(f, p, q) {
      if IsModified(before.policies, q) {
        var c := ModificationOf(before.policies, q);
        assert c in ModifiedIn(before.policies, after.policies) && Touches(c, workflow);
        assert f !in c.changedFields;
      }
    }
    SubstanceAlike(p, q);
  }

  lemma SubstanceAlike(p: Policy, q: Policy)
    requires p.id == q.id && forall f :: f in COMPARE_FIELDS && f !in COSMETIC ==> SameField(f, p, q)
    ensures AlikePolicies(p, q)
  {
    assert SameField(EffectField, p, q) && SameField(PriorityField, p, q) && SameField(ConditionsField, p, q);
    assert SameField(AuthorityField, p, q) && SameField(OverridesField, p, q) && SameField(WorkflowField, p, q);
  }

  /** The two versions of a policy of the workflow print their string conditions alike. */
  ghost predicate PairsPrintAlike(lib: Lib, before: Bundle, after: Bundle, workflow: string) {
    forall p, q :: p in before.policies && q in after.policies && p.id == q.id
                   && (p.workflow == workflow || q.workflow == workflow)
                   ==> PrintListsAlike(lib, p.conditions, q.conditions)
  }

  lemma CosmeticAlike(digest: Content -> string, lib: Lib, before: Bundle, after: Bundle, workflow: string)
    requires DistinctIds(before.policies) && DistinctIds(after.policies)
    requires CosmeticIn(DiffBundles(digest, Some(before), after), workflow)
    requires PairsPrintAlike(lib, before, after, workflow)
    ensures AlikePolicySets(lib, PoliciesFor(before.policies, workflow), PoliciesFor(after.policies, workflow))
  {
    hide AlikePolicies, PrintListsAlike;
    var d := DiffBundles(digest, Some(before), after);
    var ps, qs := PoliciesFor(before.policies, workflow), PoliciesFor(after.policies, workflow);
    forall p | p in ps ensures exists q :: q in qs && Twins(lib, p, q) {
      assert !HasId(after.policies, p.id) ==> Removed(p.id, p.workflow, p) in d.removed;
      var q :| q in after.policies && q.id == p.id;
      CosmeticTwin(digest, before, after, workflow, p, q);
      assert q in qs && Twins(lib, p, q) by { SameWorkflow(p, q); }
    }
    forall q | q in qs ensures exists p :: p in ps && Twins(lib, p, q) {
      assert !HasId(before.policies, q.id) ==> Added(q.id, q.workflow, q) in d.added;
      var p :| p in before.policies && p.id == q.id;
      CosmeticTwin(digest, before, after, workflow, p, q);
      assert p in ps && Twins(lib, p, q) by { SameWorkflow(p, q); }
    }
  }

  lemma SameWorkflow(p: Policy, q: Policy)
    requires AlikePolicies(p, q)
    ensures p.workflow == q.workflow
  {
  }

  /** Main result: a diff that is cosmetic in a workflow whose spec is unchanged cannot change any
      decision there, for any facts, when the kept policies print their string conditions alike. */
  lemma CosmeticDiffKeepsDecisions(digest: Content -> string, lib: Lib, before: Bundle, after: Bundle,
                                   workflow: string, facts: map<string, Json>)
    requires Settled(lib, before) && Settled(lib, after) && PairsPrintAlike(lib, before, after, workflow)
    requires WorkflowNamed(before.workflows, workflow) == WorkflowNamed(after.workflows, workflow)
    requires CosmeticIn(DiffBundles(digest, Some(before), after), workflow)
    ensures ViewOf(Evaluate(lib, facts, before, workflow)) == ViewOf(Evaluate(lib, facts, after, workflow))
  {
    CosmeticAlike(digest, lib, before, after, workflow);
    var w := WorkflowNamed(before.workflows, workflow);
    if w.Some? {
      forall f | f in w.value.facts ensures AlikeFacts(f, f) {}
    }
    AlikeBundlesAgree(lib, facts, before, after, workflow);
  }

  /** Typed strings suffice for that: a cosmetic diff leaves the conditions equal, and equal strings print alike. */
  lemma TypedPairsPrintAlike(digest: Content -> string, lib: Lib, before: Bundle, after: Bundle, workflow: string)
    requires DistinctIds(before.policies) && DistinctIds(after.policies) && TypedStrings(before)
    requires CosmeticIn(DiffBundles(digest, Some(before), after), workflow)
    ensures PairsPrintAlike(lib, before, after, workflow)
  {
    hide DiffBundles, CosmeticIn, AlikePolicies, TypedStrings, PrintListsAlike;
    forall p, q | p in before.policies && q in after.policies && p.id == q.id
                  && (p.workflow == workflow || q.workflow == workflow)
      ensures PrintListsAlike(lib, p.conditions, q.conditions)
    {
      CosmeticTwin(digest, before, after, workflow, p, q);
      TypedTwins(lib, before, p, q);
    }
  }
}
