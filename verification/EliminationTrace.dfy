/** The elimination trace is a forest over the matched policies: everybody who is not a
    final survivor is struck exactly once, and following `eliminated_by` from anybody ends
    at a survivor. */
module EliminationTrace {
  import opened Text
  import opened Schema
  import opened Precedence
  import opened Selection

  ghost function FinalSeq(ps: seq<Policy>): seq<Policy> {
    PrioritySeq(SpecificSeq(StandingSeq(ps)))
  }

  /** How often the trace strikes `id`. */
  function StrikesOf(elims: seq<Elimination>, id: string): nat {
    if elims == [] then 0
    else (if elims[0].policyId == id then 1 else 0) + StrikesOf(elims[1..], id)
  }

  lemma {:induction false} StrikesAdd(a: seq<Elimination>, b: seq<Elimination>, id: string)
    ensures StrikesOf(a + b, id) == StrikesOf(a, id) + StrikesOf(b, id)
  {
    if a == [] {
      assert a + b == b;
    } else {
      StrikesAdd(a[1..], b, id);
      assert (a + b)[1..] == a[1..] + b;
    }
  }

  lemma {:induction false} StrikesInBlock(ids: seq<string>, culprit: map<string, string>, rule: Rule, id: string)
    requires Ascending(ids) && forall x :: x in ids ==> x in culprit
    ensures StrikesOf(Strike(ids, culprit, rule), id) == if id in ids then 1 else 0
  {
    if ids != [] {
      StrikesInBlock(ids[1..], culprit, rule, id);
      assert Strike(ids, culprit, rule)[1..] == Strike(ids[1..], culprit, rule);
      forall k | 0 < k < |ids| ensures ids[k] != ids[0] { AscendingDistinct(ids, 0, k); }
    }
  }

  lemma StrikesInStage(ss: seq<Policy>, kept: seq<Policy>, rule: Rule, id: string)
    requires kept == [] ==> ss == []
    ensures StrikesOf(StageStrikes(ss, kept, rule), id) == if id in IdsOf(ss) - IdsOf(kept) then 1 else 0
  {
    if kept != [] {
      var losers := IdsOf(ss) - IdsOf(kept);
      StrikesInBlock(SortedSet(losers), map x | x in losers :: kept[0].id, rule, id);
    }
  }

  lemma StandingIdSet(ps: seq<Policy>, id: string)
    requires DistinctIds(ps) && id in IdsOf(ps)
    ensures id in IdsOf(StandingSeq(ps)) <==> id !in OverrideMap(ps, IdsOf(ps))
  {
    StandingIds(ps);
    var p :| p in ps && p.id == id;
    var s := Ids(Standing(Field(ps)));
    assert p in StandingSeq(ps) <==> id in s;
    if id in IdsOf(StandingSeq(ps)) {
      var q :| q in StandingSeq(ps) && q.id == id;
      assert q in ps && q.id in s;
    }
  }

  lemma NonemptyField(ps: seq<Policy>)
    ensures ps == [] <==> Field(ps) == {}
  {
    if ps != [] { FieldMember(ps, ps[0]); }
  }

  /** The ranking stages keep somebody whenever somebody stands. */
  lemma StagesNonempty(ps: seq<Policy>)
    requires DistinctIds(ps) && StandingSeq(ps) != []
    ensures SpecificSeq(StandingSeq(ps)) != [] && FinalSeq(ps) != []
  {
    var s1 := StandingSeq(ps);
    StandingStage(ps);
    NonemptyField(s1);
    RankingStages(s1);
    RankingKeepsSomebody(Field(s1));
    var s2 := SpecificSeq(s1);
    NonemptyField(s2);
    RankingStages(s2);
    RankingKeepsSomebody(Field(s2));
    NonemptyField(FinalSeq(ps));
  }

  lemma StagesShrink(ps: seq<Policy>)
    requires DistinctIds(ps)
    ensures var s1 := StandingSeq(ps); var s2 := SpecificSeq(s1);
            IdsOf(FinalSeq(ps)) <= IdsOf(s2) <= IdsOf(s1) <= IdsOf(ps)
  {
  }

  lemma StandingEmptiesAll(ps: seq<Policy>)
    requires StandingSeq(ps) == []
    ensures SpecificSeq(StandingSeq(ps)) == [] && FinalSeq(ps) == []
  {
  }

  /** Every matched policy is struck exactly once unless it is a final survivor. */
  lemma SurviveOrStruckOnce(ps: seq<Policy>, id: string)
    requires DistinctIds(ps) && id in IdsOf(ps)
    ensures StrikesOf(EliminationsOf(ps), id) == if id in IdsOf(FinalSeq(ps)) then 0 else 1
  {
    var s1 := StandingSeq(ps);
    var s2 := SpecificSeq(s1);
    var s3 := FinalSeq(ps);
    if s1 != [] { StagesNonempty(ps); } else { StandingEmptiesAll(ps); }
    StagesShrink(ps);
    StandingIdSet(ps, id);
    var o := OverrideMap(ps, IdsOf(ps));
    StrikesInBlock(SortedSet(o.Keys), o, OverridesRule, id);
    StrikesInStage(s1, s2, SpecificityRule, id);
    StrikesInStage(s2, s3, PriorityRule, id);
    var e1, e2, e3 := OverrideStrikes(ps), StageStrikes(s1, s2, SpecificityRule), StageStrikes(s2, s3, PriorityRule);
    StrikesAdd(e1, e2, id);
    StrikesAdd(e1 + e2, e3, id);
  }

  // ------------------------------------------------------------------ climbing

  ghost predicate Link(elims: seq<Elimination>, a: string, b: string) {
    exists i :: 0 <= i < |elims| && elims[i].policyId == a && elims[i].eliminatedBy == b
  }

  /** `id` climbs to one of `tops` along `eliminated_by` links in finitely many steps. */
  ghost predicate ClimbsBy(elims: seq<Elimination>, path: seq<string>, tops: set<string>) {
    && path != [] && path[|path| - 1] in tops
    && (|path| > 1 ==> Link(elims, path[0], path[1]) && ClimbsBy(elims, path[1..], tops))
  }

  ghost predicate Climbs(elims: seq<Elimination>, id: string, tops: set<string>) {
    exists path :: ClimbsBy(elims, path, tops) && path[0] == id
  }

  lemma ClimbStep(elims: seq<Elimination>, a: string, b: string, tops: set<string>)
    requires Link(elims, a, b) && Climbs(elims, b, tops)
    ensures Climbs(elims, a, tops)
  {
    var path :| ClimbsBy(elims, path, tops) && path[0] == b;
    var longer := [a] + path;
    assert longer[1..] == path;
    assert ClimbsBy(elims, longer, tops);
  }

  lemma ClimbHere(elims: seq<Elimination>, id: string, tops: set<string>)
    requires id in tops
    ensures Climbs(elims, id, tops)
  {
    assert ClimbsBy(elims, [id], tops);
  }

  lemma LinkAppend(p: seq<Elimination>, q: seq<Elimination>, a: string, b: string)
    requires Link(p, a, b) || Link(q, a, b)
    ensures Link(p + q, a, b)
  {
    if Link(p, a, b) {
      var i :| 0 <= i < |p| && p[i].policyId == a && p[i].eliminatedBy == b;
      assert (p + q)[i] == p[i];
    } else {
      var i :| 0 <= i < |q| && q[i].policyId == a && q[i].eliminatedBy == b;
      assert (p + q)[|p| + i] == q[i];
    }
  }

  lemma StrikeLinks(ids: set<string>, culprit: map<string, string>, rule: Rule, id: string)
    requires ids <= culprit.Keys && id in ids
    ensures Link(Strike(SortedSet(ids), culprit, rule), id, culprit[id])
  {
    var sorted := SortedSet(ids);
    var i :| 0 <= i < |sorted| && sorted[i] == id;
    assert Strike(sorted, culprit, rule)[i].policyId == id;
  }

  lemma TraceParts(ps: seq<Policy>, a: string, b: string)
    ensures var s1 := StandingSeq(ps); var s2 := SpecificSeq(s1); var e := EliminationsOf(ps);
            && (Link(OverrideStrikes(ps), a, b) ==> Link(e, a, b))
            && (Link(StageStrikes(s1, s2, SpecificityRule), a, b) ==> Link(e, a, b))
            && (Link(StageStrikes(s2, FinalSeq(ps), PriorityRule), a, b) ==> Link(e, a, b))
  {
    var s1 := StandingSeq(ps);
    var s2 := SpecificSeq(s1);
    var e1, e2, e3 := OverrideStrikes(ps), StageStrikes(s1, s2, SpecificityRule),
        StageStrikes(s2, FinalSeq(ps), PriorityRule);
    if Link(e1, a, b) || Link(e2, a, b) { LinkAppend(e1, e2, a, b); }
    if Link(e1 + e2, a, b) || Link(e3, a, b) { LinkAppend(e1 + e2, e3, a, b); }
  }

  /** A policy the override stage struck is linked to a matched policy that overrides it. */
  lemma OverriddenLink(ps: seq<Policy>, id: string) returns (q: Policy)
    requires DistinctIds(ps) && id in IdsOf(ps) - IdsOf(StandingSeq(ps))
    ensures q in ps && id in q.overrides && Link(EliminationsOf(ps), id, q.id)
  {
    var o := OverrideMap(ps, IdsOf(ps));
    StandingIdSet(ps, id);
    OverrideMapMeaning(ps, IdsOf(ps));
    StrikeLinks(o.Keys, o, OverridesRule, id);
    q :| q in ps && id in q.overrides && o[id] == q.id;
    TraceParts(ps, id, q.id);
  }

  /** A ranking stage links its losers to the first policy it kept. */
  lemma StageLink(ss: seq<Policy>, kept: seq<Policy>, rule: Rule, id: string)
    requires kept != [] && id in IdsOf(ss) - IdsOf(kept)
    ensures Link(StageStrikes(ss, kept, rule), id, kept[0].id)
  {
    var losers := IdsOf(ss) - IdsOf(kept);
    StrikeLinks(losers, map x | x in losers :: kept[0].id, rule, id);
  }

  lemma SpecificClimbs(ps: seq<Policy>, id: string)
    requires DistinctIds(ps) && FinalSeq(ps) != [] && id in IdsOf(SpecificSeq(StandingSeq(ps)))
    ensures Climbs(EliminationsOf(ps), id, IdsOf(FinalSeq(ps)))
  {
    var s3 := FinalSeq(ps);
    if id in IdsOf(s3) {
      ClimbHere(EliminationsOf(ps), id, IdsOf(s3));
    } else {
      StageLink(SpecificSeq(StandingSeq(ps)), s3, PriorityRule, id);
      TraceParts(ps, id, s3[0].id);
      ClimbHere(EliminationsOf(ps), s3[0].id, IdsOf(s3));
      ClimbStep(EliminationsOf(ps), id, s3[0].id, IdsOf(s3));
    }
  }

  lemma StandingClimbs(ps: seq<Policy>, id: string)
    requires DistinctIds(ps) && id in IdsOf(StandingSeq(ps))
    ensures Climbs(EliminationsOf(ps), id, IdsOf(FinalSeq(ps)))
  {
    var s1 := StandingSeq(ps);
    var s2 := SpecificSeq(s1);
    StagesNonempty(ps);
    if id in IdsOf(s2) {
      SpecificClimbs(ps, id);
    } else {
      StageLink(s1, s2, SpecificityRule, id);
      TraceParts(ps, id, s2[0].id);
      SpecificClimbs(ps, s2[0].id);
      ClimbStep(EliminationsOf(ps), id, s2[0].id, IdsOf(FinalSeq(ps)));
    }
  }

  ghost predicate BoundedRank(ps: seq<Policy>, rank: map<string, nat>, bound: nat) {
    RanksOverrides(ps, rank) && forall p :: p in ps ==> rank[p.id] <= bound
  }

  /** Override links climb the rank, so they leave the override stage in finitely many steps. */
  lemma {:induction false} EverybodyClimbs(ps: seq<Policy>, rank: map<string, nat>, bound: nat, p: Policy)
    requires DistinctIds(ps) && BoundedRank(ps, rank, bound) && p in ps
    ensures Climbs(EliminationsOf(ps), p.id, IdsOf(FinalSeq(ps)))
    decreases bound - rank[p.id]
  {
    if p.id in IdsOf(StandingSeq(ps)) {
      StandingClimbs(ps, p.id);
    } else {
      var q := OverriddenLink(ps, p.id);
      EverybodyClimbs(ps, rank, bound, q);
      ClimbStep(EliminationsOf(ps), p.id, q.id, IdsOf(FinalSeq(ps)));
    }
  }

  lemma {:induction false} RankBound(ps: seq<Policy>, rank: map<string, nat>) returns (bound: nat)
    requires forall p :: p in ps ==> p.id in rank
    ensures forall p :: p in ps ==> rank[p.id] <= bound
  {
    if ps == [] { return 0; }
    bound := RankBound(ps[1..], rank);
    assert ps == [ps[0]] + ps[1..];
    if bound < rank[ps[0].id] { bound := rank[ps[0].id]; }
  }

  /** Main result: on acyclic overrides the trace is a forest rooted at the survivors. */
  lemma TraceIsForest(ps: seq<Policy>, p: Policy)
    requires DistinctIds(ps) && AcyclicOverrides(ps) && p in ps
    ensures StrikesOf(EliminationsOf(ps), p.id) == if p.id in IdsOf(FinalSeq(ps)) then 0 else 1
    ensures Climbs(EliminationsOf(ps), p.id, IdsOf(FinalSeq(ps)))
  {
    SurviveOrStruckOnce(ps, p.id);
    var rank :| RanksOverrides(ps, rank);
    var bound := RankBound(ps, rank);
    EverybodyClimbs(ps, rank, bound, p);
  }

  // ------------------------------------------------------------------ what does depend on list order

  /** Two policies overriding a third: the later one of the list gets the credit. */
  lemma LastOverriderStrikes(a: Policy, b: Policy, c: Policy)
    requires a.id != b.id && b.id != c.id && a.id != c.id
    requires a.overrides == [c.id] && b.overrides == [c.id] && c.overrides == []
    ensures DistinctIds([a, b, c]) && EliminationsOf([a, b, c]) != []
    ensures EliminationsOf([a, b, c])[0] == Elimination(c.id, b.id, OverridesRule)
  {
    hide StageStrikes, StandingSeq, SpecificSeq, PrioritySeq, DistinctIds;
    var ps := [a, b, c];
    DistinctFrom(ps);
    var ids := IdsOf(ps);
    assert c in ps && c.id in ids;
    assert ps[..2] == [a, b] && [a, b][..1] == [a] && [a][..0] == [];
    assert OverrideMap([a], ids) == map[c.id := a.id];
    assert OverrideMap([a, b], ids) == map[c.id := b.id];
    assert OverrideMap(ps, ids) == map[c.id := b.id];
    assert [c.id][0] == c.id;
    AscendingUnique(SortedSet({c.id}), [c.id]);
    assert OverrideStrikes(ps) == [Elimination(c.id, b.id, OverridesRule)];
  }

  /** Unlike the outcome, the trace names different culprits for different policy orders. */
  lemma StrikerDependsOnOrder(a: Policy, b: Policy, c: Policy)
    requires a.id != b.id && b.id != c.id && a.id != c.id
    requires a.overrides == [c.id] && b.overrides == [c.id] && c.overrides == []
    ensures EliminationsOf([a, b, c]) != EliminationsOf([b, a, c])
    ensures IdsOf([a, b, c]) == IdsOf([b, a, c]) && Field([a, b, c]) == Field([b, a, c])
  {
    hide EliminationsOf;
    LastOverriderStrikes(a, b, c);
    LastOverriderStrikes(b, a, c);
    assert forall p :: p in [a, b, c] <==> p in [b, a, c];
  }
}
