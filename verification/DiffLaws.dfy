/** What the diff of two bundles shows its reader, policy by policy and field by field. */
module DiffLaws {
  import opened Options
  import opened Schema
  import opened Likeness
  import opened Canonical
  import opened BundleDiffs

  // ------------------------------------------------------------------ equality as Python sees it

  /** `1 == 1.0 == True`; text is equal to the same text only. */
  predicate EqualInPython(a: Scalar, b: Scalar) {
    match (a, b)
    case (Text(s), Text(t)) => s == t
    case (Text(_), _) => false
    case (_, Text(_)) => false
    case (Int(i), Int(j)) => i == j
    case (Int(i), Float(r)) => r == i as real
    case (Int(i), Bool(x)) => i == if x then 1 else 0
    case (Float(r), Int(i)) => r == i as real
    case (Float(r), Float(q)) => r == q
    case (Float(r), Bool(x)) => r == if x then 1.0 else 0.0
    case (Bool(x), Int(i)) => i == if x then 1 else 0
    case (Bool(x), Float(r)) => r == if x then 1.0 else 0.0
    case (Bool(x), Bool(y)) => x == y
  }

  predicate EqualConditions(c: Condition, d: Condition) {
    && c.field == d.field && c.op == d.op && c.valueType == d.valueType
    && match (c.value, d.value)
       case (One(v), One(u)) => EqualInPython(v, u)
       case (Many(vs), Many(us)) => |vs| == |us| && forall i :: 0 <= i < |vs| ==> EqualInPython(vs[i], us[i])
       case _ => false
  }

  predicate EqualConditionLists(cs: seq<Condition>, ds: seq<Condition>) {
    |cs| == |ds| && forall i :: 0 <= i < |cs| ==> EqualConditions(cs[i], ds[i])
  }

  lemma EqualValues(a: Scalar, b: Scalar)
    ensures SameValue(a, b) <==> EqualInPython(a, b)
  {
  }

  lemma EqualConditionsExactly(c: Condition, d: Condition)
    ensures AlikeConditions(c, d) <==> EqualConditions(c, d)
  {
    hide SameValue, EqualInPython;
    match (c.value, d.value) {
      case (One(v), One(u)) => EqualValues(v, u);
      case (Many(vs), Many(us)) =>
        forall i | 0 <= i < |vs| && i < |us| ensures SameValue(vs[i], us[i]) <==> EqualInPython(vs[i], us[i]) {
          EqualValues(vs[i], us[i]);
        }
      case _ =>
    }
  }

  lemma EqualListsExactly(cs: seq<Condition>, ds: seq<Condition>)
    ensures AlikeConditionLists(cs, ds) <==> EqualConditionLists(cs, ds)
  {
    hide AlikeConditions, EqualConditions;
    forall i | 0 <= i < |cs| && i < |ds| ensures AlikeConditions(cs[i], ds[i]) <==> EqualConditions(cs[i], ds[i]) {
      EqualConditionsExactly(cs[i], ds[i]);
    }
  }

  // ------------------------------------------------------------------ one policy

  function FieldWhen(differs: bool, f: Field): seq<Field> {
    if differs then [f] else []
  }

  /** The i-th field of the source's list, if the two differ in it. */
  function DifferenceAt(p: Policy, q: Policy, i: nat): seq<Field>
    requires i < 9
  {
    if i == 0 then FieldWhen(p.effect != q.effect, EffectField)
    else if i == 1 then FieldWhen(p.priority != q.priority, PriorityField)
    else if i == 2 then FieldWhen(!EqualConditionLists(p.conditions, q.conditions), ConditionsField)
    else if i == 3 then FieldWhen(p.authority != q.authority, AuthorityField)
    else if i == 4 then FieldWhen(p.evidence != q.evidence, EvidenceField)
    else if i == 5 then FieldWhen(p.overrides != q.overrides, OverridesField)
    else if i == 6 then FieldWhen(p.unconditionalAck != q.unconditionalAck, AckField)
    else if i == 7 then FieldWhen(p.rationale != q.rationale, RationaleField)
    else FieldWhen(p.workflow != q.workflow, WorkflowField)
  }

  function DifferencesFrom(p: Policy, q: Policy, i: nat): seq<Field>
    requires i <= 9
    decreases 9 - i
  {
    if i == 9 then [] else DifferenceAt(p, q, i) + DifferencesFrom(p, q, i + 1)
  }

  /** The names of the fields in which the two differ, in the order of the source. */
  function Differences(p: Policy, q: Policy): seq<Field> {
    DifferencesFrom(p, q, 0)
  }

  predicate AgreeInAllFields(p: Policy, q: Policy) {
    && p.effect == q.effect && p.priority == q.priority && EqualConditionLists(p.conditions, q.conditions)
    && p.authority == q.authority && p.evidence == q.evidence && p.overrides == q.overrides
    && p.unconditionalAck == q.unconditionalAck && p.rationale == q.rationale && p.workflow == q.workflow
  }

  lemma OneUnequal(fields: seq<Field>, p: Policy, q: Policy)
    requires fields != []
    ensures Unequal(fields, p, q) == FieldWhen(!SameField(fields[0], p, q), fields[0]) + Unequal(fields[1..], p, q)
  {
  }

  lemma UnequalFrom(p: Policy, q: Policy, i: nat)
    requires i < 9
    ensures Unequal(COMPARE_FIELDS[i..], p, q) ==
            FieldWhen(!SameField(COMPARE_FIELDS[i], p, q), COMPARE_FIELDS[i]) + Unequal(COMPARE_FIELDS[i + 1..], p, q)
  {
    OneUnequal(COMPARE_FIELDS[i..], p, q);
    assert COMPARE_FIELDS[i..][1..] == COMPARE_FIELDS[i + 1..];
  }

  lemma DifferenceAtExactly(p: Policy, q: Policy, i: nat)
    requires i < 9
    ensures DifferenceAt(p, q, i) == FieldWhen(!SameField(COMPARE_FIELDS[i], p, q), COMPARE_FIELDS[i])
  {
    EqualListsExactly(p.conditions, q.conditions);
    hide AlikeConditionLists, EqualConditionLists;
  }

  lemma {:induction false} DifferencesExactly(p: Policy, q: Policy, i: nat)
    requires i <= 9
    ensures Unequal(COMPARE_FIELDS[i..], p, q) == DifferencesFrom(p, q, i)
    decreases 9 - i
  {
    if i < 9 {
      hide DifferenceAt, Unequal, SameField, FieldWhen;
      UnequalFrom(p, q, i);
      DifferenceAtExactly(p, q, i);
      DifferencesExactly(p, q, i + 1);
    }
  }

  lemma ChangedExactly(p: Policy, q: Policy)
    ensures ChangedFields(p, q) == Differences(p, q)
  {
    DifferencesExactly(p, q, 0);
    assert COMPARE_FIELDS[0..] == COMPARE_FIELDS;
  }

  lemma SamePolicyExactly(p: Policy, q: Policy)
    requires p.id == q.id
    ensures SamePolicy(p, q) <==> AgreeInAllFields(p, q)
    ensures AgreeInAllFields(p, q) <==> Differences(p, q) == []
  {
    EqualListsExactly(p.conditions, q.conditions);
    hide AlikeConditionLists, EqualConditionLists;
    if SamePolicy(p, q) {
      assert SameField(EffectField, p, q) && SameField(PriorityField, p, q) && SameField(ConditionsField, p, q);
      assert SameField(AuthorityField, p, q) && SameField(EvidenceField, p, q) && SameField(OverridesField, p, q);
      assert SameField(AckField, p, q) && SameField(RationaleField, p, q) && SameField(WorkflowField, p, q);
    }
  }

  // ------------------------------------------------------------------ list order

  predicate Precedes(ps: seq<Policy>, p: Policy, q: Policy) {
    exists i, j :: 0 <= i < j < |ps| && ps[i] == p && ps[j] == q
  }

  predicate InOrderOf(ps: seq<Policy>, qs: seq<Policy>) {
    forall i, j :: 0 <= i < j < |qs| ==> Precedes(ps, qs[i], qs[j])
  }

  lemma PrecedesLater(first: Policy, ps: seq<Policy>, p: Policy, q: Policy)
    requires Precedes(ps, p, q)
    ensures Precedes([first] + ps, p, q)
  {
    var i, j :| 0 <= i < j < |ps| && ps[i] == p && ps[j] == q;
    assert ([first] + ps)[i + 1] == p && ([first] + ps)[j + 1] == q;
  }

  lemma OrderSkips(first: Policy, ps: seq<Policy>, qs: seq<Policy>)
    requires InOrderOf(ps, qs)
    ensures InOrderOf([first] + ps, qs)
  {
    hide Precedes;
    forall i, j | 0 <= i < j < |qs| ensures Precedes([first] + ps, qs[i], qs[j]) {
      PrecedesLater(first, ps, qs[i], qs[j]);
    }
  }

  lemma OrderTakes(first: Policy, ps: seq<Policy>, qs: seq<Policy>)
    requires InOrderOf(ps, qs) && forall q :: q in qs ==> q in ps
    ensures InOrderOf([first] + ps, [first] + qs)
  {
    var rs := [first] + qs;
    forall i, j | 0 <= i < j < |rs| ensures Precedes([first] + ps, rs[i], rs[j]) {
      if i == 0 {
        assert rs[j] == qs[j - 1] && qs[j - 1] in qs;
        var k :| 0 <= k < |ps| && ps[k] == rs[j];
        assert ([first] + ps)[0] == first && ([first] + ps)[k + 1] == rs[j];
      } else {
        PrecedesLater(first, ps, qs[i - 1], qs[j - 1]);
      }
    }
  }

  /** The policies the entries are about: the after version, or the before version of a removal. */
  function Subjects(changes: seq<PolicyChange>): (r: seq<Policy>)
    ensures |r| == |changes|
    ensures forall i :: 0 <= i < |changes| ==>
              r[i] == (if changes[i].Removed? then changes[i].before else changes[i].after)
  {
    seq(|changes|, i requires 0 <= i < |changes| => if changes[i].Removed? then changes[i].before else changes[i].after)
  }

  lemma SubjectsCons(c: PolicyChange, changes: seq<PolicyChange>)
    ensures Subjects([c] + changes) == [if c.Removed? then c.before else c.after] + Subjects(changes)
  {
  }

  lemma SubjectsFrom(changes: seq<PolicyChange>, ps: seq<Policy>)
    requires forall c :: c in changes ==> (if c.Removed? then c.before else c.after) in ps
    ensures forall p :: p in Subjects(changes) ==> p in ps
  {
    forall p | p in Subjects(changes) ensures p in ps {
      var i :| 0 <= i < |changes| && Subjects(changes)[i] == p;
      assert changes[i] in changes;
    }
  }

  lemma {:induction false} AddedOrder(before: seq<Policy>, after: seq<Policy>)
    ensures InOrderOf(after, Subjects(AddedIn(before, after)))
  {
    if after != [] {
      var p, rest := after[0], AddedIn(before, after[1..]);
      AddedOrder(before, after[1..]);
      SubjectsFrom(rest, after[1..]);
      hide InOrderOf, HasId;
      assert after == [p] + after[1..];
      if HasId(before, p.id) {
        assert AddedIn(before, after) == rest;
        OrderSkips(p, after[1..], Subjects(rest));
      } else {
        assert AddedIn(before, after) == [Added(p.id, p.workflow, p)] + rest;
        SubjectsCons(Added(p.id, p.workflow, p), rest);
        OrderTakes(p, after[1..], Subjects(rest));
      }
    }
  }

  lemma {:induction false} RemovedOrder(before: seq<Policy>, after: seq<Policy>)
    ensures InOrderOf(before, Subjects(RemovedIn(before, after)))
  {
    if before != [] {
      var p, rest := before[0], RemovedIn(before[1..], after);
      RemovedOrder(before[1..], after);
      SubjectsFrom(rest, before[1..]);
      hide InOrderOf, HasId;
      assert before == [p] + before[1..];
      if HasId(after, p.id) {
        assert RemovedIn(before, after) == rest;
        OrderSkips(p, before[1..], Subjects(rest));
      } else {
        assert RemovedIn(before, after) == [Removed(p.id, p.workflow, p)] + rest;
        SubjectsCons(Removed(p.id, p.workflow, p), rest);
        OrderTakes(p, before[1..], Subjects(rest));
      }
    }
  }

  lemma {:induction false} ModifiedOrder(before: seq<Policy>, after: seq<Policy>)
    ensures InOrderOf(after, Subjects(ModifiedIn(before, after)))
  {
    if after != [] {
      var p, rest := after[0], ModifiedIn(before, after[1..]);
      ModifiedOrder(before, after[1..]);
      SubjectsFrom(rest, after[1..]);
      hide InOrderOf, SamePolicy;
      assert after == [p] + after[1..];
      if IsModified(before, p) {
        assert ModifiedIn(before, after) == [ModificationOf(before, p)] + rest;
        SubjectsCons(ModificationOf(before, p), rest);
        OrderTakes(p, after[1..], Subjects(rest));
      } else {
        assert ModifiedIn(before, after) == rest;
        OrderSkips(p, after[1..], Subjects(rest));
      }
    }
  }

  // ------------------------------------------------------------------ the diff

  predicate NewIn(p: Policy, ps: seq<Policy>) {
    forall q :: q in ps ==> q.id != p.id
  }

  predicate EditOf(p: Policy, q: Policy) {
    p.id == q.id && !AgreeInAllFields(p, q)
  }

  /** The entries, as their readers take them. */
  ghost predicate ShowsEdits(ps: seq<Policy>, qs: seq<Policy>, changes: seq<PolicyChange>) {
    && (forall p, q :: p in ps && q in qs && EditOf(p, q) ==>
          Modified(q.id, q.workflow, p, q, Differences(p, q)) in changes)
    && (forall c :: c in changes ==>
          c.Modified? && c.before in ps && c.after in qs && EditOf(c.before, c.after)
          && c.policyId == c.after.id && c.workflow == c.after.workflow
          && c.changedFields == Differences(c.before, c.after))
  }

  ghost predicate ShowsNew(ps: seq<Policy>, qs: seq<Policy>, changes: seq<PolicyChange>) {
    && (forall q :: q in qs && NewIn(q, ps) ==> Added(q.id, q.workflow, q) in changes)
    && (forall c :: c in changes ==>
          c.Added? && c.after in qs && NewIn(c.after, ps) && c.policyId == c.after.id && c.workflow == c.after.workflow)
  }

  ghost predicate ShowsGone(ps: seq<Policy>, qs: seq<Policy>, changes: seq<PolicyChange>) {
    && (forall p :: p in ps && NewIn(p, qs) ==> Removed(p.id, p.workflow, p) in changes)
    && (forall c :: c in changes ==>
          c.Removed? && c.before in ps && NewIn(c.before, qs)
          && c.policyId == c.before.id && c.workflow == c.before.workflow)
  }

  ghost predicate DiffAccounted(digest: Content -> string, before: Option<Bundle>, after: Bundle, d: BundleDiff) {
    var ps, qs := if before.Some? then before.value.policies else [], after.policies;
    && d.fromHash == (if before.Some? then Some(ContentHash(digest, before.value)) else None)
    && d.toHash == ContentHash(digest, after)
    && ShowsNew(ps, qs, d.added) && ShowsGone(ps, qs, d.removed) && ShowsEdits(ps, qs, d.modified)
    && InOrderOf(qs, Subjects(d.added)) && InOrderOf(ps, Subjects(d.removed)) && InOrderOf(qs, Subjects(d.modified))
    && d.unchangedCount + |d.added| + |d.modified| == |qs|
  }

  lemma NewExactly(p: Policy, ps: seq<Policy>)
    ensures NewIn(p, ps) <==> !HasId(ps, p.id)
  {
  }

  lemma EditsShown(ps: seq<Policy>, qs: seq<Policy>)
    requires DistinctIds(ps)
    ensures ShowsEdits(ps, qs, ModifiedIn(ps, qs))
  {
    hide SamePolicy, AgreeInAllFields, ChangedFields, Differences, DistinctIds;
    forall p, q | p in ps && q in qs && EditOf(p, q)
      ensures Modified(q.id, q.workflow, p, q, Differences(p, q)) in ModifiedIn(ps, qs)
    {
      MapIsById(ps, p);
      SamePolicyExactly(p, q);
      ChangedExactly(p, q);
      assert IsModified(ps, q) && ModificationOf(ps, q) in ModifiedIn(ps, qs);
    }
    forall c | c in ModifiedIn(ps, qs)
      ensures c.Modified? && c.before in ps && c.after in qs && EditOf(c.before, c.after)
              && c.policyId == c.after.id && c.workflow == c.after.workflow
              && c.changedFields == Differences(c.before, c.after)
    {
      var q :| q in qs && IsModified(ps, q) && c == ModificationOf(ps, q);
      SamePolicyExactly(ById(ps, q.id), q);
      ChangedExactly(ById(ps, q.id), q);
    }
  }

  lemma NewShown(ps: seq<Policy>, qs: seq<Policy>)
    ensures ShowsNew(ps, qs, AddedIn(ps, qs))
  {
    hide HasId, NewIn;
    forall q | q in qs && NewIn(q, ps) ensures Added(q.id, q.workflow, q) in AddedIn(ps, qs) { NewExactly(q, ps); }
    forall c | c in AddedIn(ps, qs)
      ensures c.Added? && c.after in qs && NewIn(c.after, ps) && c.policyId == c.after.id
              && c.workflow == c.after.workflow
    {
      var q :| q in qs && !HasId(ps, q.id) && c == Added(q.id, q.workflow, q);
      NewExactly(q, ps);
    }
  }

  lemma GoneShown(ps: seq<Policy>, qs: seq<Policy>)
    ensures ShowsGone(ps, qs, RemovedIn(ps, qs))
  {
    hide HasId, NewIn;
    forall p | p in ps && NewIn(p, qs) ensures Removed(p.id, p.workflow, p) in RemovedIn(ps, qs) { NewExactly(p, qs); }
    forall c | c in RemovedIn(ps, qs)
      ensures c.Removed? && c.before in ps && NewIn(c.before, qs) && c.policyId == c.before.id
              && c.workflow == c.before.workflow
    {
      var p :| p in ps && !HasId(qs, p.id) && c == Removed(p.id, p.workflow, p);
      NewExactly(p, qs);
    }
  }

  /** Main result: the diff shows exactly the policies that are new, gone, or edited in any field, an edit
      with the names of exactly the fields that differ, each list in bundle order, under both addresses. */
  lemma DiffIsAccounted(digest: Content -> string, before: Option<Bundle>, after: Bundle)
    requires (before.Some? ==> DistinctIds(before.value.policies)) && DistinctIds(after.policies)
    ensures DiffAccounted(digest, before, after, DiffBundles(digest, before, after))
  {
    var ps, qs := if before.Some? then before.value.policies else [], after.policies;
    assert DistinctIds(ps);
    hide ShowsNew, ShowsGone, ShowsEdits, InOrderOf, ContentHash, DistinctIds;
    EditsShown(ps, qs);
    NewShown(ps, qs);
    GoneShown(ps, qs);
    AddedOrder(ps, qs);
    RemovedOrder(ps, qs);
    ModifiedOrder(ps, qs);
    DiffPartitions(ps, qs);
  }
}
