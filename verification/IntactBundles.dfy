/** What `Bundle._integrity` accepts, outright: distinct names, policies in place, and no ring of overrides. */
module IntactBundles {
  import opened Options
  import opened Schema

  /** The last fact of the name has the type; the dictionary of facts keeps that one. */
  ghost predicate LastDeclares(facts: seq<FactSpec>, name: string, t: ValueType) {
    exists k :: LastAt(facts, name, k) && facts[k].valueType == t
  }

  predicate LastAt(facts: seq<FactSpec>, name: string, k: int) {
    0 <= k < |facts| && facts[k].name == name && forall m :: k < m < |facts| ==> facts[m].name != name
  }

  /** Some workflow spec carries the policy's workflow name and declares its fields at their types, and every
      override target is a policy of that workflow. */
  ghost predicate Placed(p: Policy, b: Bundle) {
    && (exists w :: w in b.workflows && w.name == p.workflow && DeclaresAll(p, w))
    && forall t :: t in p.overrides ==> exists q :: q in b.policies && q.id == t && q.workflow == p.workflow
  }

  ghost predicate DeclaresAll(p: Policy, w: WorkflowSpec) {
    forall c :: c in p.conditions ==> LastDeclares(w.facts, c.field, c.valueType)
  }

  /** Policies each overriding the next. */
  predicate Chain(ps: seq<Policy>, chain: seq<Policy>) {
    (forall p :: p in chain ==> p in ps) && forall i :: 0 < i < |chain| ==> chain[i].id in chain[i - 1].overrides
  }

  /** A chain whose last policy overrides the first. */
  predicate Ring(ps: seq<Policy>, ring: seq<Policy>) {
    ring != [] && Chain(ps, ring) && ring[0].id in ring[|ring| - 1].overrides
  }

  ghost predicate Intact(b: Bundle) {
    && (forall i, j :: 0 <= i < j < |b.workflows| ==> b.workflows[i].name != b.workflows[j].name)
    && (forall i, j :: 0 <= i < j < |b.policies| ==> b.policies[i].id != b.policies[j].id)
    && (forall p :: p in b.policies ==> Placed(p, b))
    && forall ring :: !Ring(b.policies, ring)
  }

  // ------------------------------------------------------------------ placement

  lemma {:induction false} NamedIsLast(facts: seq<FactSpec>, name: string, k: int)
    requires LastAt(facts, name, k)
    ensures FactNamed(facts, name) == Some(facts[k])
  {
    if k < |facts| - 1 {
      assert facts[..|facts| - 1][k] == facts[k];
      NamedIsLast(facts[..|facts| - 1], name, k);
    }
  }

  lemma {:induction false} LastIsNamed(facts: seq<FactSpec>, name: string) returns (k: int)
    requires FactNamed(facts, name).Some?
    ensures LastAt(facts, name, k) && facts[k] == FactNamed(facts, name).value
  {
    if facts[|facts| - 1].name == name {
      k := |facts| - 1;
    } else {
      k := LastIsNamed(facts[..|facts| - 1], name);
    }
  }

  lemma DeclaredExactly(c: Condition, w: WorkflowSpec)
    ensures ConditionDeclared(c, w) <==> LastDeclares(w.facts, c.field, c.valueType)
  {
    if FactNamed(w.facts, c.field).Some? { var k := LastIsNamed(w.facts, c.field); }
    if LastDeclares(w.facts, c.field, c.valueType) {
      var k :| LastAt(w.facts, c.field, k) && w.facts[k].valueType == c.valueType;
      NamedIsLast(w.facts, c.field, k);
    }
  }

  lemma PlacedExactly(p: Policy, b: Bundle)
    requires UniqueWorkflows(b.workflows)
    ensures PolicyPlaced(p, b) <==> Placed(p, b)
  {
    hide LastDeclares, ConditionDeclared;
    var named := WorkflowNamed(b.workflows, p.workflow);
    if named.Some? {
      forall c | c in p.conditions
        ensures ConditionDeclared(c, named.value) <==> LastDeclares(named.value.facts, c.field, c.valueType)
      {
        DeclaredExactly(c, named.value);
      }
      forall w | w in b.workflows && w.name == p.workflow ensures w == named.value {
        var i :| 0 <= i < |b.workflows| && b.workflows[i] == w;
        var j :| 0 <= j < |b.workflows| && b.workflows[j] == named.value;
      }
    }
  }

  // ------------------------------------------------------------------ a rank excludes rings

  lemma {:induction false} RankFallsAlong(ps: seq<Policy>, rank: map<string, nat>, chain: seq<Policy>, i: nat)
    requires RanksOverrides(ps, rank) && Chain(ps, chain) && i < |chain|
    ensures chain[i].id in rank && chain[0].id in rank && rank[chain[i].id] <= rank[chain[0].id] - i
  {
    assert chain[i] in chain && chain[0] in chain;
    if i > 0 {
      RankFallsAlong(ps, rank, chain, i - 1);
      assert chain[i - 1] in chain;
    }
  }

  lemma RankedHasNoRing(ps: seq<Policy>, rank: map<string, nat>, ring: seq<Policy>)
    requires RanksOverrides(ps, rank)
    ensures !Ring(ps, ring)
  {
    if Ring(ps, ring) {
      var last := ring[|ring| - 1];
      assert last in ring;
      RankFallsAlong(ps, rank, ring, |ring| - 1);
    }
  }

  // ------------------------------------------------------------------ without rings there is a rank

  predicate Leaf(ps: seq<Policy>, p: Policy) {
    p in ps && forall q :: q in ps ==> q.id !in p.overrides
  }

  /** Where every policy overrides one of the list, chains grow as long as one likes. */
  lemma {:induction false} ChainGrows(ps: seq<Policy>, n: nat) returns (chain: seq<Policy>)
    requires ps != [] && forall p :: !Leaf(ps, p)
    ensures Chain(ps, chain) && |chain| == n + 1
  {
    if n == 0 {
      chain := [ps[0]];
    } else {
      var front := ChainGrows(ps, n - 1);
      var last := front[n - 1];
      assert last in front && !Leaf(ps, last);
      var q :| q in ps && q.id in last.overrides;
      chain := front + [q];
      forall i | 0 < i < |chain| ensures chain[i].id in chain[i - 1].overrides {
        if i < n { assert chain[i] == front[i] && chain[i - 1] == front[i - 1]; }
      }
    }
  }

  function Members(ps: seq<Policy>): set<Policy> {
    set p | p in ps
  }

  lemma {:induction false} NoMoreThanLength(ps: seq<Policy>)
    ensures |Members(ps)| <= |ps|
    ensures (forall i, j :: 0 <= i < j < |ps| ==> ps[i] != ps[j]) ==> |Members(ps)| == |ps|
  {
    if ps == [] {
      assert Members(ps) == {};
    } else {
      var front, last := ps[..|ps| - 1], ps[|ps| - 1];
      NoMoreThanLength(front);
      assert ps == front + [last];
      assert Members(ps) == Members(front) + {last};
      if forall i, j :: 0 <= i < j < |ps| ==> ps[i] != ps[j] {
        forall i, j | 0 <= i < j < |front| ensures front[i] != front[j] { assert ps[i] != ps[j]; }
        assert last !in front;
      }
    }
  }

  lemma Smaller(a: set<Policy>, b: set<Policy>)
    requires a <= b
    ensures |a| <= |b|
  {
    assert b == a + (b - a);
  }

  lemma LongChainsRepeat(ps: seq<Policy>, chain: seq<Policy>) returns (i: nat, j: nat)
    requires Chain(ps, chain) && |chain| > |ps|
    ensures i < j < |chain| && chain[i] == chain[j]
  {
    NoMoreThanLength(chain);
    NoMoreThanLength(ps);
    assert Members(chain) <= Members(ps);
    Smaller(Members(chain), Members(ps));
    i, j :| 0 <= i < j < |chain| && chain[i] == chain[j];
  }

  lemma RepeatIsRing(ps: seq<Policy>, chain: seq<Policy>, i: nat, j: nat)
    requires Chain(ps, chain) && i < j < |chain| && chain[i] == chain[j]
    ensures Ring(ps, chain[i..j])
  {
    var ring := chain[i..j];
    forall p | p in ring ensures p in ps { assert p in chain; }
    forall k | 0 < k < |ring| ensures ring[k].id in ring[k - 1].overrides {
      assert ring[k] == chain[i + k] && ring[k - 1] == chain[i + k - 1];
    }
    assert ring[|ring| - 1] == chain[j - 1];
  }

  lemma SomeLeaf(ps: seq<Policy>) returns (k: nat)
    requires ps != [] && forall ring :: !Ring(ps, ring)
    ensures k < |ps| && Leaf(ps, ps[k])
  {
    if forall p :: !Leaf(ps, p) {
      var chain := ChainGrows(ps, |ps|);
      var i, j := LongChainsRepeat(ps, chain);
      RepeatIsRing(ps, chain, i, j);
    }
    var p :| Leaf(ps, p);
    k :| 0 <= k < |ps| && ps[k] == p;
  }

  function Raised(rank: map<string, nat>): map<string, nat> {
    map n | n in rank :: rank[n] + 1
  }

  /** A leaf below a rank of the others. */
  lemma LeafBelow(ps: seq<Policy>, k: nat, rank: map<string, nat>)
    requires k < |ps| && Leaf(ps, ps[k]) && RanksOverrides(ps[..k] + ps[k + 1..], rank)
    requires forall i :: 0 <= i < |ps| && i != k ==> ps[i].id != ps[k].id
    requires forall n :: n in rank ==> exists q :: q in ps && q.id == n
    ensures RanksOverrides(ps, Raised(rank)[ps[k].id := 0])
  {
    var rest, more := ps[..k] + ps[k + 1..], Raised(rank)[ps[k].id := 0];
    forall p | p in ps ensures p == ps[k] || (p in rest && p.id != ps[k].id) { Elsewhere(ps, k, p); }
    hide Leaf;
    forall p | p in ps ensures p.id in more { }
    forall p, t | p in ps && t in p.overrides && t in more ensures more[t] < more[p.id] {
      LeafOverridesNobody(ps, ps[k], rank, t);
      if p != ps[k] && t != ps[k].id { assert t in rank && rank[t] < rank[p.id]; }
    }
  }

  lemma LeafOverridesNobody(ps: seq<Policy>, leaf: Policy, rank: map<string, nat>, t: string)
    requires Leaf(ps, leaf) && forall n :: n in rank ==> exists q :: q in ps && q.id == n
    ensures t in leaf.overrides ==> t !in rank && t != leaf.id
  {
  }

  lemma Elsewhere(ps: seq<Policy>, k: nat, p: Policy)
    requires k < |ps| && p in ps && forall i :: 0 <= i < |ps| && i != k ==> ps[i].id != ps[k].id
    ensures p == ps[k] || (p in ps[..k] + ps[k + 1..] && p.id != ps[k].id)
  {
    var rest := ps[..k] + ps[k + 1..];
    var i :| 0 <= i < |ps| && ps[i] == p;
    if i < k { assert rest[i] == p; }
    if i > k { assert rest[i - 1] == p; }
  }

  lemma {:induction false} RingFreeIsRanked(ps: seq<Policy>) returns (rank: map<string, nat>)
    requires (forall ring :: !Ring(ps, ring)) && forall i, j :: 0 <= i < j < |ps| ==> ps[i].id != ps[j].id
    ensures RanksOverrides(ps, rank) && forall n :: n in rank ==> exists q :: q in ps && q.id == n
    decreases |ps|
  {
    if ps == [] {
      rank := map[];
    } else {
      var k := SomeLeaf(ps);
      var rest := ps[..k] + ps[k + 1..];
      FewerRings(ps, k);
      var below := RingFreeIsRanked(rest);
      forall n | n in below ensures exists q :: q in ps && q.id == n {
        var q :| q in rest && q.id == n;
        assert q in ps;
      }
      LeafBelow(ps, k, below);
      rank := Raised(below)[ps[k].id := 0];
      assert ps[k] in ps;
    }
  }

  lemma FewerRings(ps: seq<Policy>, k: nat)
    requires k < |ps| && (forall ring :: !Ring(ps, ring)) && forall i, j :: 0 <= i < j < |ps| ==> ps[i].id != ps[j].id
    ensures var rest := ps[..k] + ps[k + 1..];
            && (forall ring :: !Ring(rest, ring))
            && forall i, j :: 0 <= i < j < |rest| ==> rest[i].id != rest[j].id
  {
    var rest := ps[..k] + ps[k + 1..];
    assert forall p :: p in rest ==> p in ps;
    forall ring ensures !Ring(rest, ring) { assert !Ring(ps, ring); }
    forall i, j | 0 <= i < j < |rest| ensures rest[i].id != rest[j].id {
      assert rest[i] == ps[if i < k then i else i + 1] && rest[j] == ps[if j < k then j else j + 1];
    }
  }

  /** Main result: an override relation has a rank if and only if no policies override each other in a ring. */
  lemma AcyclicExactly(ps: seq<Policy>)
    requires forall i, j :: 0 <= i < j < |ps| ==> ps[i].id != ps[j].id
    ensures AcyclicOverrides(ps) <==> forall ring :: !Ring(ps, ring)
  {
    if AcyclicOverrides(ps) {
      var rank :| RanksOverrides(ps, rank);
      forall ring ensures !Ring(ps, ring) { RankedHasNoRing(ps, rank, ring); }
    }
    if forall ring :: !Ring(ps, ring) { var rank := RingFreeIsRanked(ps); }
  }

  /** Main result: integrity, told without a rank, a set size or a lookup. */
  lemma IntegrityExactly(b: Bundle)
    ensures Integrity(b) <==> Intact(b)
  {
    hide Placed, PolicyPlaced, Ring, AcyclicOverrides;
    if DistinctIds(b.policies) {
      forall i, j | 0 <= i < j < |b.policies| ensures b.policies[i].id != b.policies[j].id {
        DistinctAt(b.policies, i, j);
      }
    }
    if forall i, j :: 0 <= i < j < |b.policies| ==> b.policies[i].id != b.policies[j].id {
      DistinctFrom(b.policies);
      AcyclicExactly(b.policies);
    }
    hide DistinctIds;
    if UniqueWorkflows(b.workflows) {
      forall p | p in b.policies ensures PolicyPlaced(p, b) <==> Placed(p, b) { PlacedExactly(p, b); }
    }
  }
}
