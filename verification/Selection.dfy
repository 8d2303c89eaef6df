/** `_select_winner` (backend/runtime/evaluator.py): the list algorithm, proved to compute
    the set-level reference of module Precedence. */
module Selection {
  import opened Text
  import opened Schema
  import opened Precedence

  datatype Elimination = Elimination(policyId: string, eliminatedBy: string, rule: Rule)

  /** What `_select_winner` hands back. `IndexError` is `survivors[0]` on an empty list. */
  datatype Selected = Nobody | Winner(policy: Policy) | Tie(ids: seq<string>) | IndexError

  function AsContender(p: Policy): Contender {
    Contender(p.id, p.Specificity(), p.priority, Elements(p.overrides))
  }

  ghost function Field(ps: seq<Policy>): set<Contender> {
    set p | p in ps :: AsContender(p)
  }

  /** The list comprehension `[p for p in ps if p.id in ids]`. */
  function Among(ps: seq<Policy>, ids: set<string>): (r: seq<Policy>)
    ensures forall p :: p in r <==> p in ps && p.id in ids
    ensures |r| <= |ps|
  {
    if ps == [] then [] else (if ps[0].id in ids then [ps[0]] else []) + Among(ps[1..], ids)
  }

  lemma {:induction false} AmongDistinct(ps: seq<Policy>, ids: set<string>)
    requires DistinctIds(ps)
    ensures DistinctIds(Among(ps, ids))
  {
    if ps != [] {
      DistinctSplit(ps);
      AmongDistinct(ps[1..], ids);
      var rest := Among(ps[1..], ids);
      DistinctSplit(Among(ps, ids));
      if ps[0].id in ids {
        assert ([ps[0]] + rest)[1..] == rest;
      } else {
        assert Among(ps, ids) == rest;
      }
    }
  }

  lemma FieldMember(ps: seq<Policy>, p: Policy)
    requires p in ps
    ensures AsContender(p) in Field(ps)
  {
  }

  lemma FieldDistinct(ps: seq<Policy>)
    requires DistinctIds(ps)
    ensures Distinct(Field(ps))
  {
    forall a, b | a in Field(ps) && b in Field(ps) && a.id == b.id ensures a == b {
      var p :| p in ps && AsContender(p) == a;
      var q :| q in ps && AsContender(q) == b;
      SameIdSamePolicy(ps, p, q);
    }
  }

  /** Keeping the ids of a subset of the field keeps exactly that subset. */
  lemma FieldOfAmong(ps: seq<Policy>, s: set<Contender>)
    requires DistinctIds(ps) && s <= Field(ps)
    ensures Field(Among(ps, Ids(s))) == s
  {
    FieldDistinct(ps);
    forall c | c in s ensures c in Field(Among(ps, Ids(s))) {
      var p :| p in ps && AsContender(p) == c;
      assert p in Among(ps, Ids(s));
    }
    forall c | c in Field(Among(ps, Ids(s))) ensures c in s {
      var p :| p in Among(ps, Ids(s)) && AsContender(p) == c;
      var d :| d in s && d.id == p.id;
      assert c in Field(ps) && d in Field(ps);
    }
  }

  lemma {:induction false} FieldSize(ps: seq<Policy>)
    requires DistinctIds(ps)
    ensures |Field(ps)| == |ps|
  {
    if ps == [] {
      assert Field(ps) == {};
    } else {
      DistinctSplit(ps);
      FieldSize(ps[1..]);
      assert ps == [ps[0]] + ps[1..];
      assert Field(ps) == {AsContender(ps[0])} + Field(ps[1..]);
      assert AsContender(ps[0]) !in Field(ps[1..]);
    }
  }

  // ------------------------------------------------------------------ elimination trace

  /** `overridden[target] = p.id` over all pairs: the last overrider in list order wins. */
  function OverrideMap(ps: seq<Policy>, ids: set<string>): map<string, string> {
    if ps == [] then map[]
    else
      var last := ps[|ps| - 1];
      OverrideMap(ps[..|ps| - 1], ids) + (map t | t in last.overrides && t in ids :: last.id)
  }

  lemma {:induction false} OverrideMapMeaning(ps: seq<Policy>, ids: set<string>)
    ensures forall t :: t in OverrideMap(ps, ids) <==> t in ids && exists q :: q in ps && t in q.overrides
    ensures forall t :: t in OverrideMap(ps, ids) ==>
              exists q :: q in ps && t in q.overrides && OverrideMap(ps, ids)[t] == q.id
  {
    if ps != [] {
      var front, last := ps[..|ps| - 1], ps[|ps| - 1];
      OverrideMapMeaning(front, ids);
      assert ps == front + [last];
      var m := OverrideMap(ps, ids);
      forall t | t in m ensures exists q :: q in ps && t in q.overrides && m[t] == q.id {
        if t in last.overrides && t in ids {
          assert m[t] == last.id;
        } else {
          var q :| q in front && t in q.overrides && OverrideMap(front, ids)[t] == q.id;
          assert q in ps;
        }
      }
      forall t | t in ids && exists q :: q in ps && t in q.overrides ensures t in m {
        var q :| q in ps && t in q.overrides;
        if q != last { assert q in front; }
      }
    }
  }

  /** Policy `i` of the list is the last one to override `t`. */
  ghost predicate LastOverrider(ps: seq<Policy>, i: int, t: string) {
    0 <= i < |ps| && t in ps[i].overrides && forall j :: i < j < |ps| ==> t !in ps[j].overrides
  }

  lemma OverrideMapStep(ps: seq<Policy>, ids: set<string>, t: string)
    requires ps != [] && t in OverrideMap(ps, ids)
    ensures var front, last := ps[..|ps| - 1], ps[|ps| - 1];
            && t in ids
            && (if t in last.overrides then OverrideMap(ps, ids)[t] == last.id
                else t in OverrideMap(front, ids) && OverrideMap(ps, ids)[t] == OverrideMap(front, ids)[t])
  {
    OverrideMapMeaning(ps, ids);
  }

  lemma LastOverriderGrows(front: seq<Policy>, last: Policy, i: nat, t: string)
    requires LastOverrider(front, i, t) && t !in last.overrides
    ensures LastOverrider(front + [last], i, t)
  {
  }

  lemma {:induction false} LastOverriderIsNamed(ps: seq<Policy>, ids: set<string>, t: string) returns (i: nat)
    requires t in OverrideMap(ps, ids)
    ensures LastOverrider(ps, i, t) && OverrideMap(ps, ids)[t] == ps[i].id
  {
    var front, last := ps[..|ps| - 1], ps[|ps| - 1];
    OverrideMapStep(ps, ids, t);
    if t in last.overrides {
      i := |ps| - 1;
    } else {
      i := LastOverriderIsNamed(front, ids, t);
      LastOverriderGrows(front, last, i, t);
      assert front + [last] == ps;
    }
  }

  function Strike(ids: seq<string>, culprit: map<string, string>, rule: Rule): (r: seq<Elimination>)
    requires forall id :: id in ids ==> id in culprit
    ensures |r| == |ids|
    ensures forall i :: 0 <= i < |ids| ==> r[i] == Elimination(ids[i], culprit[ids[i]], rule)
  {
    if ids == [] then [] else [Elimination(ids[0], culprit[ids[0]], rule)] + Strike(ids[1..], culprit, rule)
  }

  /** Survivors of each stage, in list order. */
  ghost function StandingSeq(ps: seq<Policy>): seq<Policy> {
    Among(ps, Ids(Standing(Field(ps))))
  }

  ghost function SpecificSeq(ss: seq<Policy>): seq<Policy> {
    Among(ss, Ids(MostSpecific(Field(ss))))
  }

  ghost function PrioritySeq(ss: seq<Policy>): seq<Policy> {
    Among(ss, Ids(TopPriority(Field(ss))))
  }

  /** A ranking stage strikes every loser in the name of the first survivor it keeps. */
  ghost function StageStrikes(ss: seq<Policy>, kept: seq<Policy>, rule: Rule): seq<Elimination> {
    if kept == [] then [] else
    var losers := IdsOf(ss) - IdsOf(kept);
    Strike(SortedSet(losers), map id | id in losers :: kept[0].id, rule)
  }

  ghost function OverrideStrikes(ps: seq<Policy>): seq<Elimination> {
    var overridden := OverrideMap(ps, IdsOf(ps));
    Strike(SortedSet(overridden.Keys), overridden, OverridesRule)
  }

  ghost function EliminationsOf(ps: seq<Policy>): seq<Elimination> {
    var s1 := StandingSeq(ps);
    var s2 := SpecificSeq(s1);
    OverrideStrikes(ps) + StageStrikes(s1, s2, SpecificityRule)
                        + StageStrikes(s2, PrioritySeq(s2), PriorityRule)
  }

  // ------------------------------------------------------------------ stages

  lemma StandingStage(ps: seq<Policy>)
    requires DistinctIds(ps)
    ensures DistinctIds(StandingSeq(ps)) && Field(StandingSeq(ps)) == Standing(Field(ps))
    ensures forall p :: p in ps ==>
              (p.id in OverrideMap(ps, IdsOf(ps)) <==> Overridden(Field(ps), AsContender(p)))
    ensures OverrideMap(ps, IdsOf(ps)).Keys <= IdsOf(ps)
  {
    hide Ids, DistinctIds;
    var f := Field(ps);
    AmongDistinct(ps, Ids(Standing(f)));
    FieldOfAmong(ps, Standing(f));
    OverrideMapMeaning(ps, IdsOf(ps));
    forall p | p in ps
      ensures p.id in OverrideMap(ps, IdsOf(ps)) <==> Overridden(f, AsContender(p))
    {
      if exists q :: q in ps && p.id in q.overrides {
        var q :| q in ps && p.id in q.overrides;
        assert AsContender(q) in f && p.id in AsContender(q).overrides;
      }
      if Overridden(f, AsContender(p)) {
        var c :| c in f && p.id in c.overrides;
        var q :| q in ps && AsContender(q) == c;
        assert p.id in q.overrides;
      }
    }
  }

  lemma RankingStages(ss: seq<Policy>)
    requires DistinctIds(ss)
    ensures DistinctIds(SpecificSeq(ss)) && Field(SpecificSeq(ss)) == MostSpecific(Field(ss))
    ensures DistinctIds(PrioritySeq(ss)) && Field(PrioritySeq(ss)) == TopPriority(Field(ss))
  {
    var f := Field(ss);
    AmongDistinct(ss, Ids(MostSpecific(f)));
    FieldOfAmong(ss, MostSpecific(f));
    AmongDistinct(ss, Ids(TopPriority(f)));
    FieldOfAmong(ss, TopPriority(f));
  }

  /** Survivors of all three stages: the finalists of the field. */
  lemma FinalStage(ps: seq<Policy>)
    requires DistinctIds(ps)
    ensures var last := PrioritySeq(SpecificSeq(StandingSeq(ps)));
            DistinctIds(last) && Field(last) == Finalists(Field(ps)) && |last| == |Finalists(Field(ps))|
  {
    StandingStage(ps);
    RankingStages(StandingSeq(ps));
    RankingStages(SpecificSeq(StandingSeq(ps)));
    FieldSize(PrioritySeq(SpecificSeq(StandingSeq(ps))));
  }

  /** The marks one overriding policy sets, as a dictionary. */
  ghost function Marks(targets: seq<string>, matchedIds: set<string>, id: string): map<string, string> {
    map t | t in targets && t in matchedIds :: id
  }

  lemma MarksStep(before: map<string, string>, targets: seq<string>, matchedIds: set<string>, id: string, j: nat)
    requires j < |targets|
    ensures before + Marks(targets[..j + 1], matchedIds, id) ==
            if targets[j] in matchedIds then (before + Marks(targets[..j], matchedIds, id))[targets[j] := id]
            else before + Marks(targets[..j], matchedIds, id)
  {
    assert targets[..j + 1] == targets[..j] + [targets[j]];
  }

  /** The inner loop over one policy's override targets. */
  method MarkTargets(before: map<string, string>, p: Policy, matchedIds: set<string>)
    returns (overridden: map<string, string>)
    ensures overridden == before + (map t | t in p.overrides && t in matchedIds :: p.id)
  {
    overridden := before;
    for j := 0 to |p.overrides|
      invariant overridden == before + Marks(p.overrides[..j], matchedIds, p.id)
    {
      var target := p.overrides[j];
      MarksStep(before, p.overrides, matchedIds, p.id, j);
      if target in matchedIds {
        overridden := overridden[target := p.id];
      }
    }
    assert p.overrides[..|p.overrides|] == p.overrides;
  }

  /** The double loop that fills `overridden`. */
  method CollectOverridden(survivors: seq<Policy>, matchedIds: set<string>) returns (overridden: map<string, string>)
    ensures overridden == OverrideMap(survivors, matchedIds)
    ensures forall t :: t in overridden <==> t in matchedIds && exists q :: q in survivors && t in q.overrides
    ensures forall t :: t in overridden ==>
              exists i :: LastOverrider(survivors, i, t) && overridden[t] == survivors[i].id
  {
    OverrideMapMeaning(survivors, matchedIds);
    forall t | t in OverrideMap(survivors, matchedIds)
      ensures exists i :: LastOverrider(survivors, i, t) && OverrideMap(survivors, matchedIds)[t] == survivors[i].id
    {
      var i := LastOverriderIsNamed(survivors, matchedIds, t);
    }
    overridden := map[];
    for i := 0 to |survivors|
      invariant overridden == OverrideMap(survivors[..i], matchedIds)
    {
      assert survivors[..i + 1][..i] == survivors[..i];
      overridden := MarkTargets(overridden, survivors[i], matchedIds);
    }
    assert survivors[..|survivors|] == survivors;
  }

  function Greatest(ks: seq<int>): (m: int)
    requires ks != []
    ensures m in ks && forall k :: k in ks ==> k <= m
  {
    if |ks| == 1 then ks[0]
    else
      var rest := Greatest(ks[1..]);
      assert ks == [ks[0]] + ks[1..];
      if ks[0] < rest then rest else ks[0]
  }

  lemma {:induction false} AmongSame(ps: seq<Policy>, a: set<string>, b: set<string>)
    requires forall p :: p in ps ==> (p.id in a <==> p.id in b)
    ensures Among(ps, a) == Among(ps, b)
  {
    if ps != [] {
      AmongSame(ps[1..], a, b);
    }
  }

  lemma {:induction false} AmongAll(ps: seq<Policy>, ids: set<string>)
    requires forall p :: p in ps ==> p.id in ids
    ensures Among(ps, ids) == ps
  {
    if ps != [] {
      AmongAll(ps[1..], ids);
    }
  }

  /** Python's `sorted(...)` over the ids of the selected policies. */
  lemma SortedIds(ps: seq<Policy>, ids: set<string>)
    requires ids <= IdsOf(ps)
    ensures SortedUnique(PolicyIds(Among(ps, ids))) == SortedSet(ids)
  {
    var chosen := Among(ps, ids);
    forall x ensures x in ids <==> x in PolicyIds(chosen) {
      if x in ids {
        var p :| p in ps && p.id == x;
        var k :| 0 <= k < |chosen| && chosen[k] == p;
        assert PolicyIds(chosen)[k] == x;
      }
    }
    SortedUniqueIsSortedSet(PolicyIds(chosen), ids);
  }

  method OverrideStage(matched: seq<Policy>)
    returns (survivors: seq<Policy>, struck: seq<Elimination>, applied: seq<Rule>)
    requires DistinctIds(matched)
    ensures survivors == StandingSeq(matched) && DistinctIds(survivors) && Field(survivors) == Standing(Field(matched))
    ensures struck == OverrideStrikes(matched)
    ensures applied == RuleIf(Field(matched), Field(survivors), OverridesRule)
  {
    var ids := IdsOf(matched);
    var overridden := CollectOverridden(matched, ids);
    StandingStage(matched);
    SortedIds(matched, overridden.Keys);
    struck := Strike(SortedUnique(PolicyIds(Among(matched, overridden.Keys))), overridden, OverridesRule);
    survivors := Among(matched, ids - overridden.Keys);
    StandingIds(matched);
    AmongSame(matched, ids - overridden.Keys, Ids(Standing(Field(matched))));
    if struck == [] {
      assert SortedSet(overridden.Keys) == [];
      assert overridden.Keys == {};
    } else {
      assert struck[0].policyId in overridden;
    }
    applied := if struck != [] then [OverridesRule] else [];
  }

  lemma StandingIds(ps: seq<Policy>)
    requires DistinctIds(ps)
    ensures forall p :: p in ps ==>
              (p.id in Ids(Standing(Field(ps))) <==> p.id !in OverrideMap(ps, IdsOf(ps)))
    ensures Standing(Field(ps)) != Field(ps) <==> OverrideMap(ps, IdsOf(ps)) != map[]
  {
    var f := Field(ps);
    var o := OverrideMap(ps, IdsOf(ps));
    StandingStage(ps);
    FieldDistinct(ps);
    forall p | p in ps ensures p.id in Ids(Standing(f)) <==> p.id !in o {
      FieldMember(ps, p);
      assert AsContender(p) in Standing(f) ==> p.id in Ids(Standing(f));
    }
    if o != map[] {
      var t :| t in o;
      var p :| p in ps && p.id == t;
      FieldMember(ps, p);
      assert AsContender(p) !in Standing(f);
    } else {
      forall c | c in f ensures c in Standing(f) {
        var p :| p in ps && AsContender(p) == c;
        assert p.id !in o;
      }
    }
  }

  function Keys(ps: seq<Policy>, key: Policy -> int): (r: seq<int>)
    ensures |r| == |ps| && forall i :: 0 <= i < |ps| ==> r[i] == key(ps[i])
  {
    if ps == [] then [] else [key(ps[0])] + Keys(ps[1..], key)
  }

  ghost predicate Best(ps: seq<Policy>, key: Policy -> int, p: Policy) {
    p in ps && forall q :: q in ps ==> key(q) <= key(p)
  }

  ghost function TopIds(ps: seq<Policy>, key: Policy -> int): set<string> {
    set p | p in ps && Best(ps, key, p) :: p.id
  }

  ghost predicate IsTop(ps: seq<Policy>, key: Policy -> int, top: int) {
    (forall p :: p in ps ==> key(p) <= top) && (exists p :: p in ps && key(p) == top)
  }

  function At(ps: seq<Policy>, key: Policy -> int, top: int): set<string> {
    set p | p in ps && key(p) == top :: p.id
  }

  function Below(ps: seq<Policy>, key: Policy -> int, top: int): set<string> {
    set p | p in ps && key(p) < top :: p.id
  }

  /** One ranking block: keep the policies with the greatest key. */
  method KeepTop(survivors: seq<Policy>, key: Policy -> int, rule: Rule)
    returns (kept: seq<Policy>, struck: seq<Elimination>)
    requires DistinctIds(survivors)
    ensures kept == Among(survivors, TopIds(survivors, key)) && DistinctIds(kept)
    ensures struck == StageStrikes(survivors, kept, rule)
    ensures struck == [] <==> kept == survivors
  {
    AmongDistinct(survivors, TopIds(survivors, key));
    if |survivors| > 1 {
      var top := Greatest(Keys(survivors, key));
      KeysTop(survivors, key, top);
      var losers := Below(survivors, key, top);
      Losers(survivors, key, top);
      if losers != {} {
        kept := Among(survivors, At(survivors, key, top));
        var keeper := kept[0].id;
        SortedIds(survivors, losers);
        struck := Strike(SortedUnique(PolicyIds(Among(survivors, losers))),
                         map id | id in losers :: keeper, rule);
        SomeStruck(survivors, kept, losers);
        return;
      }
      NoneBelow(survivors, key, top);
    }
    kept, struck := survivors, [];
    AllTop(survivors, key, rule);
  }

  lemma SomeStruck(ps: seq<Policy>, kept: seq<Policy>, losers: set<string>)
    requires losers != {} && losers == IdsOf(ps) - IdsOf(kept)
    ensures SortedSet(losers) != [] && kept != ps
  {
    var x :| x in losers;
    assert x in SortedSet(losers);
  }

  lemma {:induction false} KeysTop(ps: seq<Policy>, key: Policy -> int, top: int)
    requires ps != [] && top in Keys(ps, key) && forall k :: k in Keys(ps, key) ==> k <= top
    ensures IsTop(ps, key, top)
  {
    var ks := Keys(ps, key);
    forall i | 0 <= i < |ps| ensures key(ps[i]) <= top { assert ks[i] in ks; }
    var i :| 0 <= i < |ks| && ks[i] == top;
    assert ps[i] in ps;
  }

  lemma NoneBelow(ps: seq<Policy>, key: Policy -> int, top: int)
    requires Below(ps, key, top) == {}
    ensures forall p :: p in ps ==> top <= key(p)
  {
    forall p | p in ps ensures top <= key(p) {
      assert key(p) < top ==> p.id in Below(ps, key, top);
    }
  }

  lemma Losers(ps: seq<Policy>, key: Policy -> int, top: int)
    requires DistinctIds(ps) && IsTop(ps, key, top)
    ensures At(ps, key, top) == TopIds(ps, key)
    ensures Below(ps, key, top) == IdsOf(ps) - IdsOf(Among(ps, TopIds(ps, key)))
    ensures Among(ps, TopIds(ps, key)) != []
  {
    var t :| t in ps && key(t) == top;
    forall p | p in ps ensures Best(ps, key, p) <==> key(p) == top {
      if Best(ps, key, p) { assert key(t) <= key(p); }
    }
    var kept := Among(ps, TopIds(ps, key));
    assert t.id in TopIds(ps, key) && t in kept;
    forall p | p in ps ensures p in kept <==> key(p) == top {
      if p in kept {
        var q :| q in ps && Best(ps, key, q) && q.id == p.id;
        SameIdSamePolicy(ps, p, q);
      }
    }
    forall x ensures x in Below(ps, key, top) <==> x in IdsOf(ps) - IdsOf(kept) {
      if x in IdsOf(ps) {
        var p :| p in ps && p.id == x;
        forall q | q in ps && q.id == x ensures q == p { SameIdSamePolicy(ps, p, q); }
      }
    }
  }

  lemma AllTop(ps: seq<Policy>, key: Policy -> int, rule: Rule)
    requires forall p, q :: p in ps && q in ps ==> key(q) <= key(p)
    ensures Among(ps, TopIds(ps, key)) == ps && StageStrikes(ps, ps, rule) == []
  {
    forall p | p in ps ensures p.id in TopIds(ps, key) { assert Best(ps, key, p); }
    AmongAll(ps, TopIds(ps, key));
    assert IdsOf(ps) - IdsOf(ps) == {};
  }

  function SpecificityOf(p: Policy): int {
    p.Specificity()
  }

  function PriorityOf(p: Policy): int {
    p.priority
  }

  lemma SpecificityKey(ss: seq<Policy>)
    requires DistinctIds(ss)
    ensures Among(ss, TopIds(ss, SpecificityOf)) == SpecificSeq(ss)
    ensures SpecificSeq(ss) == ss <==> MostSpecific(Field(ss)) == Field(ss)
  {
    var f := Field(ss);
    FieldDistinct(ss);
    RankingStages(ss);
    forall p | p in ss ensures p.id in TopIds(ss, SpecificityOf) <==> p.id in Ids(MostSpecific(f)) {
      TopIdsOf(ss, SpecificityOf, p);
      InStage(ss, MostSpecific(f), p);
      if Best(ss, SpecificityOf, p) {
        forall c | c in f ensures c.specificity <= p.Specificity() {
          var q :| q in ss && AsContender(q) == c;
        }
      } else {
        var q :| q in ss && SpecificityOf(q) > SpecificityOf(p);
        FieldMember(ss, q);
      }
    }
    AmongSame(ss, TopIds(ss, SpecificityOf), Ids(MostSpecific(f)));
    WholeStage(ss, MostSpecific(f));
  }

  lemma PriorityKey(ss: seq<Policy>)
    requires DistinctIds(ss)
    ensures Among(ss, TopIds(ss, PriorityOf)) == PrioritySeq(ss)
    ensures PrioritySeq(ss) == ss <==> TopPriority(Field(ss)) == Field(ss)
  {
    var f := Field(ss);
    FieldDistinct(ss);
    RankingStages(ss);
    forall p | p in ss ensures p.id in TopIds(ss, PriorityOf) <==> p.id in Ids(TopPriority(f)) {
      TopIdsOf(ss, PriorityOf, p);
      InStage(ss, TopPriority(f), p);
      if Best(ss, PriorityOf, p) {
        forall c | c in f ensures c.priority <= p.priority {
          var q :| q in ss && AsContender(q) == c;
        }
      } else {
        var q :| q in ss && PriorityOf(q) > PriorityOf(p);
        FieldMember(ss, q);
      }
    }
    AmongSame(ss, TopIds(ss, PriorityOf), Ids(TopPriority(f)));
    WholeStage(ss, TopPriority(f));
  }

  lemma TopIdsOf(ss: seq<Policy>, key: Policy -> int, p: Policy)
    requires DistinctIds(ss) && p in ss
    ensures p.id in TopIds(ss, key) <==> Best(ss, key, p)
  {
    if p.id in TopIds(ss, key) {
      var q :| q in ss && Best(ss, key, q) && q.id == p.id;
      SameIdSamePolicy(ss, p, q);
    }
  }

  lemma InStage(ss: seq<Policy>, stage: set<Contender>, p: Policy)
    requires DistinctIds(ss) && p in ss && stage <= Field(ss)
    ensures p.id in Ids(stage) <==> AsContender(p) in stage
  {
    FieldDistinct(ss);
    FieldMember(ss, p);
  }

  lemma WholeStage(ss: seq<Policy>, stage: set<Contender>)
    requires DistinctIds(ss) && stage <= Field(ss)
    ensures Among(ss, Ids(stage)) == ss <==> stage == Field(ss)
  {
    FieldOfAmong(ss, stage);
    if stage == Field(ss) {
      forall p | p in ss ensures p.id in Ids(stage) { FieldMember(ss, p); }
      AmongAll(ss, Ids(stage));
    }
  }

  /** What the result of `_select_winner` means; it determines the result uniquely. */
  ghost predicate Selects(matched: seq<Policy>, sel: Selected) {
    var finalists := Finalists(Field(matched));
    match sel
    case Nobody => matched == []
    case IndexError => Stuck(Field(matched))
    case Winner(p) => p in matched && finalists == {AsContender(p)}
    case Tie(ids) => |finalists| > 1 && ids == SortedSet(Ids(finalists))
  }

  lemma NobodyMatched()
    ensures RulesOf(Field([])) == [] && EliminationsOf([]) == []
  {
    assert Field([]) == {};
    assert Standing({}) == {} && MostSpecific({}) == {} && TopPriority({}) == {};
    assert OverrideMap([], IdsOf([])) == map[];
  }

  method SpecificityStage(survivors: seq<Policy>)
    returns (kept: seq<Policy>, struck: seq<Elimination>, applied: seq<Rule>)
    requires DistinctIds(survivors)
    ensures kept == SpecificSeq(survivors) && DistinctIds(kept) && Field(kept) == MostSpecific(Field(survivors))
    ensures struck == StageStrikes(survivors, kept, SpecificityRule)
    ensures applied == RuleIf(Field(survivors), Field(kept), SpecificityRule)
  {
    kept, struck := KeepTop(survivors, SpecificityOf, SpecificityRule);
    SpecificityKey(survivors);
    RankingStages(survivors);
    applied := if struck != [] then [SpecificityRule] else [];
  }

  method PriorityStage(survivors: seq<Policy>)
    returns (kept: seq<Policy>, struck: seq<Elimination>, applied: seq<Rule>)
    requires DistinctIds(survivors)
    ensures kept == PrioritySeq(survivors) && DistinctIds(kept) && Field(kept) == TopPriority(Field(survivors))
    ensures struck == StageStrikes(survivors, kept, PriorityRule)
    ensures applied == RuleIf(Field(survivors), Field(kept), PriorityRule)
  {
    kept, struck := KeepTop(survivors, PriorityOf, PriorityRule);
    PriorityKey(survivors);
    RankingStages(survivors);
    applied := if struck != [] then [PriorityRule] else [];
  }

  /** The three stages of `_select_winner`. */
  method RunStages(matched: seq<Policy>) returns (survivors: seq<Policy>, rules: seq<Rule>, elims: seq<Elimination>)
    requires DistinctIds(matched)
    ensures survivors == PrioritySeq(SpecificSeq(StandingSeq(matched))) && DistinctIds(survivors)
    ensures Field(survivors) == Finalists(Field(matched))
    ensures rules == Removing(Field(matched))
    ensures elims == EliminationsOf(matched)
  {
    var struck1, struck2, struck3, rule1, rule2, rule3;
    survivors, struck1, rule1 := OverrideStage(matched);
    survivors, struck2, rule2 := SpecificityStage(survivors);
    survivors, struck3, rule3 := PriorityStage(survivors);
    rules := rule1 + rule2 + rule3;
    elims := struck1 + struck2 + struck3;
  }

  /** `_select_winner`. */
  method SelectWinner(matched: seq<Policy>) returns (sel: Selected, rules: seq<Rule>, elims: seq<Elimination>)
    requires DistinctIds(matched)
    ensures Selects(matched, sel)
    ensures rules == RulesOf(Field(matched))
    ensures elims == EliminationsOf(matched)
  {
    NobodyMatched();
    if matched == [] { return Nobody, [], []; }
    var survivors;
    survivors, rules, elims := RunStages(matched);
    FieldSize(survivors);
    if |survivors| == 1 && rules == [] { rules := [SingleMatchRule]; }
    if |survivors| > 1 {
      SortedTie(matched, survivors);
      sel := Tie(SortedUnique(PolicyIds(survivors)));
    } else if |survivors| == 1 {
      SoleSurvivor(matched, survivors);
      sel := Winner(survivors[0]);
    } else {
      NobodyLeft(matched, survivors);
      sel := IndexError;
    }
  }

  lemma NobodyLeft(matched: seq<Policy>, survivors: seq<Policy>)
    requires matched != [] && survivors == [] && Field(survivors) == Finalists(Field(matched))
    ensures Selects(matched, IndexError)
  {
    assert Field(survivors) == {};
    NoFinalists(Field(matched));
    FieldMember(matched, matched[0]);
  }

  lemma SoleSurvivor(matched: seq<Policy>, survivors: seq<Policy>)
    requires |survivors| == 1 && Field(survivors) == Finalists(Field(matched))
    requires forall p :: p in survivors ==> p in matched
    ensures Selects(matched, Winner(survivors[0]))
  {
    assert survivors[0] in survivors;
    assert Field(survivors) == {AsContender(survivors[0])};
  }

  lemma SortedTie(matched: seq<Policy>, survivors: seq<Policy>)
    requires |survivors| > 1 && DistinctIds(survivors) && Field(survivors) == Finalists(Field(matched))
    ensures Selects(matched, Tie(SortedUnique(PolicyIds(survivors))))
  {
    FieldSize(survivors);
    forall x ensures x in Ids(Field(survivors)) <==> x in PolicyIds(survivors) {
      if x in Ids(Field(survivors)) {
        var c :| c in Field(survivors) && c.id == x;
        var p :| p in survivors && AsContender(p) == c;
        var k :| 0 <= k < |survivors| && survivors[k] == p;
        assert PolicyIds(survivors)[k] == x;
      }
      if x in PolicyIds(survivors) {
        var k :| 0 <= k < |survivors| && PolicyIds(survivors)[k] == x;
        FieldMember(survivors, survivors[k]);
      }
    }
    SortedUniqueIsSortedSet(PolicyIds(survivors), Ids(Field(survivors)));
  }
}
