/** Every ruling of `evaluate` on an accepted bundle says what the account demands, field by field. */
module RulingsAccounted {
  import opened Options
  import opened Text
  import opened Schema
  import opened Precedence
  import opened Selection
  import opened Judgement
  import opened Tally
  import opened Evaluator
  import opened DecisionLaws
  import opened EliminationTrace
  import A = Account

  // ------------------------------------------------------------------ policies of the workflow

  function Shifted(at: seq<nat>): (r: seq<nat>)
    ensures |r| == |at| && forall i :: 0 <= i < |at| ==> r[i] == at[i] + 1
  {
    seq(|at|, i requires 0 <= i < |at| => at[i] + 1)
  }

  lemma PicksLater(p: Policy, all: seq<Policy>, workflow: string, ps: seq<Policy>, at: seq<nat>)
    requires A.PicksAt(all, workflow, ps, at) && p.workflow != workflow
    ensures A.PicksAt([p] + all, workflow, ps, Shifted(at))
  {
    var more, list := Shifted(at), [p] + all;
    forall i | 0 <= i < |at| ensures more[i] < |list| && list[more[i]] == ps[i] { assert list[more[i]] == all[at[i]]; }
    forall k | 0 <= k < |list| && list[k].workflow == workflow ensures k in more {
      assert list[k] == all[k - 1] && k - 1 in at;
      var m :| 0 <= m < |at| && at[m] == k - 1;
      assert more[m] == k;
    }
  }

  lemma FirstCovers(p: Policy, all: seq<Policy>, workflow: string, ps: seq<Policy>, at: seq<nat>, k: nat)
    requires A.PicksAt(all, workflow, ps, at) && k < |all| + 1 && ([p] + all)[k].workflow == workflow
    ensures k in [0] + Shifted(at)
  {
    var more := [0] + Shifted(at);
    if k == 0 {
      assert more[0] == k;
    } else {
      assert ([p] + all)[k] == all[k - 1] && k - 1 in at;
      var m :| 0 <= m < |at| && at[m] == k - 1;
      assert more[m + 1] == k;
    }
  }

  lemma PicksFirst(p: Policy, all: seq<Policy>, workflow: string, ps: seq<Policy>, at: seq<nat>)
    requires A.PicksAt(all, workflow, ps, at) && p.workflow == workflow
    ensures A.PicksAt([p] + all, workflow, [p] + ps, [0] + Shifted(at))
  {
    var more, list, qs := [0] + Shifted(at), [p] + all, [p] + ps;
    forall i | 0 <= i < |more|
      ensures more[i] == (if i == 0 then 0 else at[i - 1] + 1) && qs[i] == (if i == 0 then p else ps[i - 1])
    {
    }
    forall i | 0 <= i < |more| ensures more[i] < |list| && list[more[i]] == qs[i] && qs[i].workflow == workflow {
      if i > 0 { assert list[more[i]] == all[at[i - 1]]; }
    }
    forall k | 0 <= k < |list| && list[k].workflow == workflow ensures k in more {
      FirstCovers(p, all, workflow, ps, at, k);
    }
    forall i, j | 0 <= i < j < |more| ensures more[i] < more[j] { }
  }

  lemma NothingPicked(workflow: string)
    ensures A.PicksAt([], workflow, [], [])
  {
  }

  lemma {:induction false} PoliciesInOrder(all: seq<Policy>, workflow: string) returns (at: seq<nat>)
    ensures A.PicksAt(all, workflow, PoliciesFor(all, workflow), at)
  {
    hide A.PicksAt;
    if all == [] {
      at := [];
      NothingPicked(workflow);
    } else {
      var rest := PoliciesInOrder(all[1..], workflow);
      var ps := PoliciesFor(all[1..], workflow);
      if all[0].workflow == workflow {
        PicksFirst(all[0], all[1..], workflow, ps, rest);
        at := [0] + Shifted(rest);
        assert PoliciesFor(all, workflow) == [all[0]] + ps;
      } else {
        PicksLater(all[0], all[1..], workflow, ps, rest);
        at := Shifted(rest);
        assert PoliciesFor(all, workflow) == ps;
      }
      assert [all[0]] + all[1..] == all;
    }
  }

  // ------------------------------------------------------------------ facts

  lemma FactsAreAccounted(facts: map<string, Json>, w: WorkflowSpec, t: Trace)
    requires UniqueFacts(w) && FactsTyped(facts, w)
    requires t.factsSupplied == facts && t.factsEffective == Effective(facts, w)
    requires t.factsIgnored == SortedSet(Ignored(facts, w)) && t.defaultsApplied == SortedSet(Defaulted(facts, w))
    ensures A.FactsAccounted(facts, w, t)
  {
    forall n ensures A.Specified(w, n) <==> n in FactNames(w) { }
    forall f | f in w.facts ensures FactNamed(w.facts, f.name) == Some(f) { SpecIsNamed(w, f); }
    forall n ensures A.HasDefault(w, n) <==> n in FactNames(w) && FactNamed(w.facts, n).value.default.Some? {
      if n in FactNames(w) {
        var g := FactNamed(w.facts, n).value;
        assert g in w.facts && g.name == n;
      }
    }
    forall f | f in w.facts && f.name in facts
      ensures f.name in t.factsEffective && A.SeenAs(facts[f.name], t.factsEffective[f.name])
    {
      assert Declared(w, f.name) && Reading(facts, w, f.name) == CheckType(facts[f.name], f.valueType);
      SeenAsRead(facts[f.name], f.valueType);
    }
    forall n | n in facts && A.Specified(w, n) ensures n in t.factsEffective {
      var f :| f in w.facts && f.name == n;
    }
  }

  lemma SpecIsNamed(w: WorkflowSpec, f: FactSpec)
    requires UniqueFacts(w) && f in w.facts
    ensures FactNamed(w.facts, f.name) == Some(f)
  {
    var g := FactNamed(w.facts, f.name).value;
    var i :| 0 <= i < |w.facts| && w.facts[i] == f;
    var j :| 0 <= j < |w.facts| && w.facts[j] == g;
  }

  lemma SeenAsRead(v: Json, t: ValueType)
    requires CheckType(v, t).Some?
    ensures A.SeenAs(v, CheckType(v, t).value)
  {
  }

  // ------------------------------------------------------------------ conditions

  /** Everything the policies ask of the facts can be compared. */
  ghost predicate Clear(lib: Lib, ps: seq<Policy>, e: map<string, Scalar>) {
    DistinctIds(ps) && forall p :: p in ps ==> Ready(p, e) && !PolicyOverflows(lib, p, e)
  }

  lemma HoldsIsCompare(lib: Lib, c: Condition, v: Scalar)
    requires Comparable(c, v) && !Overflows(lib, c, v)
    ensures A.Holds(lib, c, v) <==> Compare(lib, c, v)
  {
    if c.value.Many? {
      var us, a := c.value.vs, NormOf(lib, v);
      if exists u :: u in us && a == NormOf(lib, u) {
        var u :| u in us && a == NormOf(lib, u);
        var i :| 0 <= i < |us| && us[i] == u;
        assert A.AsText(lib, us[i]) == A.AsText(lib, v);
      }
      if exists i :: 0 <= i < |us| && A.AsText(lib, us[i]) == A.AsText(lib, v) {
        var i :| 0 <= i < |us| && A.AsText(lib, us[i]) == A.AsText(lib, v);
        assert us[i] in us && a == NormOf(lib, us[i]);
      }
    }
  }

  lemma OutcomeIs(lib: Lib, p: Policy, e: map<string, Scalar>, c: Condition)
    requires Ready(p, e) && !PolicyOverflows(lib, p, e) && c in p.conditions
    ensures OutcomeOf(lib, c, e) ==
            (if c.field !in e then Missing else if A.Holds(lib, c, e[c.field]) then Pass else Fail)
  {
    if c.field in e {
      assert !OverflowsOn(lib, c, e);
      HoldsIsCompare(lib, c, e[c.field]);
    }
  }

  lemma StatusIs(lib: Lib, p: Policy, e: map<string, Scalar>)
    requires Ready(p, e) && !PolicyOverflows(lib, p, e)
    ensures StatusOf(lib, p, e) == Matched <==> A.Matches(lib, p, e)
    ensures StatusOf(lib, p, e) == Failed <==> A.Fails(lib, p, e)
    ensures StatusOf(lib, p, e) == Undeterminable <==> A.Pends(lib, p, e)
  {
    hide A.Holds, Ready, PolicyOverflows;
    forall c | c in p.conditions
      ensures OutcomeOf(lib, c, e) ==
              (if c.field !in e then Missing else if A.Holds(lib, c, e[c.field]) then Pass else Fail)
    {
      OutcomeIs(lib, p, e, c);
    }
    hide OutcomeOf;
    if A.Fails(lib, p, e) {
      var c :| c in p.conditions && c.field in e && !A.Holds(lib, c, e[c.field]);
      assert OutcomeOf(lib, c, e) == Fail;
    }
    if !A.Matches(lib, p, e) {
      var c :| c in p.conditions && !(c.field in e && A.Holds(lib, c, e[c.field]));
      assert OutcomeOf(lib, c, e) == Missing || OutcomeOf(lib, c, e) == Fail;
    }
  }

  lemma LacksExactly(p: Policy, e: map<string, Scalar>, x: string)
    ensures x in MissingFields(p, e) <==> A.Lacks(p, e, x)
  {
  }

  lemma EvaluationIsAccounted(lib: Lib, p: Policy, e: map<string, Scalar>)
    requires Ready(p, e) && !PolicyOverflows(lib, p, e)
    ensures A.PolicyAccounted(lib, p, e, EvaluationOf(lib, p, e))
  {
    hide A.Holds, OutcomeOf, StatusOf, A.Matches, A.Fails, A.Lacks, MissingFields;
    StatusIs(lib, p, e);
    var r := EvaluationOf(lib, p, e);
    forall i | 0 <= i < |p.conditions| ensures A.ResultAccounted(lib, p.conditions[i], e, r.conditions[i]) {
      assert p.conditions[i] in p.conditions;
      OutcomeIs(lib, p, e, p.conditions[i]);
    }
    forall x ensures x in r.missingFields <==> A.Lacks(p, e, x) { LacksExactly(p, e, x); }
  }

  lemma PoliciesAreAccounted(lib: Lib, ps: seq<Policy>, e: map<string, Scalar>)
    requires Clear(lib, ps, e)
    ensures A.PoliciesAccounted(lib, ps, e, Evaluations(lib, ps, e))
  {
    hide A.PolicyAccounted, EvaluationOf, Ready, PolicyOverflows;
    forall i | 0 <= i < |ps| ensures A.PolicyAccounted(lib, ps[i], e, Evaluations(lib, ps, e)[i]) {
      assert ps[i] in ps;
      EvaluationIsAccounted(lib, ps[i], e);
    }
  }

  // ------------------------------------------------------------------ who stands, who leads

  ghost function MatchedOn(lib: Lib, ps: seq<Policy>, e: map<string, Scalar>): set<Contender> {
    MatchedField(Ballots(lib, ps, e))
  }

  lemma StatusesAre(lib: Lib, ps: seq<Policy>, e: map<string, Scalar>)
    requires Clear(lib, ps, e)
    ensures forall p :: p in ps ==> (IsMatched(lib, p, e) <==> A.Matches(lib, p, e))
    ensures forall p :: p in ps ==> (StatusOf(lib, p, e) == Undeterminable <==> A.Pends(lib, p, e))
  {
    hide StatusOf, A.Matches, A.Pends, Ready, PolicyOverflows;
    forall p | p in ps
      ensures (IsMatched(lib, p, e) <==> A.Matches(lib, p, e))
              && (StatusOf(lib, p, e) == Undeterminable <==> A.Pends(lib, p, e))
    {
      StatusIs(lib, p, e);
    }
  }

  lemma StandsExactly(lib: Lib, ps: seq<Policy>, e: map<string, Scalar>, p: Policy)
    requires Clear(lib, ps, e) && p in ps
    ensures A.Stands(lib, ps, e, p) <==> IsMatched(lib, p, e) && AsContender(p) in Standing(MatchedOn(lib, ps, e))
  {
    hide A.Matches, StatusOf, Clear;
    StatusesAre(lib, ps, e);
    if IsMatched(lib, p, e) { StandsWhenUnchallenged(lib, ps, e, p); }
  }

  lemma StanderPolicy(lib: Lib, ps: seq<Policy>, e: map<string, Scalar>, c: Contender) returns (p: Policy)
    requires Clear(lib, ps, e) && c in Standing(MatchedOn(lib, ps, e))
    ensures p in ps && A.Stands(lib, ps, e, p) && AsContender(p) == c
  {
    hide A.Stands, StatusOf, Clear;
    p := FieldContender(lib, ps, e, c);
    StandsExactly(lib, ps, e, p);
  }

  lemma NarrowestExactly(lib: Lib, ps: seq<Policy>, e: map<string, Scalar>, p: Policy)
    requires Clear(lib, ps, e) && p in ps
    ensures A.Narrowest(lib, ps, e, p)
            <==> IsMatched(lib, p, e) && AsContender(p) in MostSpecific(Standing(MatchedOn(lib, ps, e)))
  {
    hide A.Stands, StatusOf, Clear, Standing;
    StandsExactly(lib, ps, e, p);
    var s := Standing(MatchedOn(lib, ps, e));
    if A.Narrowest(lib, ps, e, p) {
      forall c | c in s ensures c.specificity <= p.Specificity() { var q := StanderPolicy(lib, ps, e, c); }
    } else if A.Stands(lib, ps, e, p) {
      var q :| q in ps && A.Stands(lib, ps, e, q) && |q.conditions| > |p.conditions|;
      StandsExactly(lib, ps, e, q);
      assert AsContender(q) in s && AsContender(q).specificity > AsContender(p).specificity;
    }
  }

  lemma LeadsExactly(lib: Lib, ps: seq<Policy>, e: map<string, Scalar>, p: Policy)
    requires Clear(lib, ps, e) && p in ps
    ensures A.Leads(lib, ps, e, p) <==> IsMatched(lib, p, e) && AsContender(p) in Finalists(MatchedOn(lib, ps, e))
  {
    hide A.Narrowest, StatusOf, Clear, Standing, MostSpecific;
    NarrowestExactly(lib, ps, e, p);
    var s := MostSpecific(Standing(MatchedOn(lib, ps, e)));
    if A.Leads(lib, ps, e, p) {
      forall c | c in s ensures c.priority <= p.priority { var q := NarrowPolicy(lib, ps, e, c); }
    } else if A.Narrowest(lib, ps, e, p) {
      var q :| q in ps && A.Narrowest(lib, ps, e, q) && q.priority > p.priority;
      NarrowestExactly(lib, ps, e, q);
      assert AsContender(q) in s && AsContender(q).priority > AsContender(p).priority;
    }
  }

  lemma NarrowPolicy(lib: Lib, ps: seq<Policy>, e: map<string, Scalar>, c: Contender) returns (p: Policy)
    requires Clear(lib, ps, e) && c in MostSpecific(Standing(MatchedOn(lib, ps, e)))
    ensures p in ps && A.Narrowest(lib, ps, e, p) && AsContender(p) == c
  {
    hide A.Stands, StatusOf, Clear, Standing, A.Narrowest;
    p := StanderPolicy(lib, ps, e, c);
    StandsExactly(lib, ps, e, p);
    NarrowestExactly(lib, ps, e, p);
  }

  lemma LeaderPolicy(lib: Lib, ps: seq<Policy>, e: map<string, Scalar>, c: Contender) returns (p: Policy)
    requires Clear(lib, ps, e) && c in Finalists(MatchedOn(lib, ps, e))
    ensures p in ps && A.Leads(lib, ps, e, p) && AsContender(p) == c
  {
    hide A.Narrowest, StatusOf, Clear, Standing, MostSpecific, A.Leads;
    p := NarrowPolicy(lib, ps, e, c);
    NarrowestExactly(lib, ps, e, p);
    LeadsExactly(lib, ps, e, p);
  }

  lemma SameContenderSamePolicy(ps: seq<Policy>, p: Policy, q: Policy)
    requires DistinctIds(ps) && p in ps && q in ps && AsContender(p) == AsContender(q)
    ensures p == q
  {
    SameIdSamePolicy(ps, p, q);
  }

  /** Being the only leader is being the only finalist. */
  lemma LeadsAloneExactly(lib: Lib, ps: seq<Policy>, e: map<string, Scalar>, p: Policy)
    requires Clear(lib, ps, e) && p in ps
    ensures A.LeadsAlone(lib, ps, e, p) <==> Finalists(MatchedOn(lib, ps, e)) == {AsContender(p)}
  {
    hide A.Leads, Finalists, StatusOf, Ready, PolicyOverflows, MatchedOn;
    var fs := Finalists(MatchedOn(lib, ps, e));
    LeadsExactly(lib, ps, e, p);
    if A.LeadsAlone(lib, ps, e, p) {
      forall c | c in fs ensures c == AsContender(p) { var q := LeaderPolicy(lib, ps, e, c); }
      assert fs == {AsContender(p)};
    }
    if fs == {AsContender(p)} {
      var r := LeaderPolicy(lib, ps, e, AsContender(p));
      SameContenderSamePolicy(ps, p, r);
      forall q | q in ps && A.Leads(lib, ps, e, q) ensures q == p {
        LeadsExactly(lib, ps, e, q);
        SameContenderSamePolicy(ps, p, q);
      }
    }
  }

  lemma TiedExactly(lib: Lib, ps: seq<Policy>, e: map<string, Scalar>)
    requires Clear(lib, ps, e)
    ensures A.Tied(lib, ps, e) <==> |Finalists(MatchedOn(lib, ps, e))| > 1
  {
    hide A.Leads, Finalists, StatusOf, Ready, PolicyOverflows, MatchedOn;
    var fs := Finalists(MatchedOn(lib, ps, e));
    if A.Tied(lib, ps, e) {
      var p, q :| p in ps && q in ps && A.Leads(lib, ps, e, p) && A.Leads(lib, ps, e, q) && p != q;
      LeadsExactly(lib, ps, e, p);
      LeadsExactly(lib, ps, e, q);
      if AsContender(p) == AsContender(q) { SameContenderSamePolicy(ps, p, q); }
      assert {AsContender(p), AsContender(q)} <= fs;
      TwoInSet(fs, AsContender(p), AsContender(q));
    }
    if |fs| > 1 {
      var c, d := TwoOf(fs);
      var p := LeaderPolicy(lib, ps, e, c);
      var q := LeaderPolicy(lib, ps, e, d);
      assert p != q;
    }
  }

  lemma TwoInSet<T>(s: set<T>, x: T, y: T)
    requires x in s && y in s && x != y
    ensures |s| > 1
  {
    assert |s - {x}| == |s| - 1 && y in s - {x};
  }

  lemma TwoOf<T>(s: set<T>) returns (x: T, y: T)
    requires |s| > 1
    ensures x in s && y in s && x != y
  {
    x :| x in s;
    assert |s - {x}| > 0;
    y :| y in s - {x};
  }

  // ------------------------------------------------------------------ what the verdict says

  lemma UnprovenPolicy(lib: Lib, ps: seq<Policy>, e: map<string, Scalar>, b: Ballot) returns (u: Policy)
    requires Clear(lib, ps, e) && b in Unproven(Ballots(lib, ps, e))
    ensures u in ps && A.Pends(lib, u, e) && b == BallotOf(lib, u, e)
  {
    hide StatusOf, A.Pends, A.Matches, Clear;
    StatusesAre(lib, ps, e);
    u :| u in ps && Votes(lib, e)(u) == b;
  }

  lemma PolicyUnproven(lib: Lib, ps: seq<Policy>, e: map<string, Scalar>, u: Policy)
    requires Clear(lib, ps, e) && u in ps && A.Pends(lib, u, e)
    ensures BallotOf(lib, u, e) in Unproven(Ballots(lib, ps, e))
  {
    hide StatusOf, A.Pends, A.Matches, Clear;
    StatusesAre(lib, ps, e);
    BallotMember(lib, ps, e, u);
  }

  lemma UnprovenMissing(lib: Lib, ps: seq<Policy>, e: map<string, Scalar>, x: string)
    requires Clear(lib, ps, e)
    ensures x in MissingOf(Unproven(Ballots(lib, ps, e)))
            <==> exists u :: u in ps && A.Pends(lib, u, e) && A.Lacks(u, e, x)
  {
    hide A.Pends, Clear, A.Lacks, Ballots, Unproven, MissingFields;
    if x in MissingOf(Unproven(Ballots(lib, ps, e))) {
      var b :| b in Unproven(Ballots(lib, ps, e)) && x in b.missing;
      var u := UnprovenPolicy(lib, ps, e, b);
      LacksExactly(u, e, x);
    }
    if exists u :: u in ps && A.Pends(lib, u, e) && A.Lacks(u, e, x) {
      var u :| u in ps && A.Pends(lib, u, e) && A.Lacks(u, e, x);
      PolicyUnproven(lib, ps, e, u);
      LacksExactly(u, e, x);
    }
  }

  lemma SomeUnproven(lib: Lib, ps: seq<Policy>, e: map<string, Scalar>)
    requires Clear(lib, ps, e)
    ensures Unproven(Ballots(lib, ps, e)) != {} <==> exists u :: u in ps && A.Pends(lib, u, e)
  {
    hide A.Pends, Clear, Ballots, Unproven;
    if Unproven(Ballots(lib, ps, e)) != {} {
      var b :| b in Unproven(Ballots(lib, ps, e));
      var u := UnprovenPolicy(lib, ps, e, b);
    }
    if exists u :: u in ps && A.Pends(lib, u, e) {
      var u :| u in ps && A.Pends(lib, u, e);
      PolicyUnproven(lib, ps, e, u);
    }
  }

  lemma BlockerPolicy(lib: Lib, ps: seq<Policy>, e: map<string, Scalar>, p: Policy, b: Ballot) returns (u: Policy)
    requires Clear(lib, ps, e) && b in Blockers(Ballots(lib, ps, e), AsContender(p))
    ensures A.Blocks(lib, ps, e, p, u) && b == BallotOf(lib, u, e)
  {
    hide A.Pends, Clear, Ballots, Unproven;
    u := UnprovenPolicy(lib, ps, e, b);
  }

  lemma PolicyBlocks(lib: Lib, ps: seq<Policy>, e: map<string, Scalar>, p: Policy, u: Policy)
    requires Clear(lib, ps, e) && A.Blocks(lib, ps, e, p, u)
    ensures BallotOf(lib, u, e) in Blockers(Ballots(lib, ps, e), AsContender(p))
  {
    hide A.Pends, Clear, Ballots, Unproven;
    PolicyUnproven(lib, ps, e, u);
  }

  lemma BlockedExactly(lib: Lib, ps: seq<Policy>, e: map<string, Scalar>, p: Policy)
    requires Clear(lib, ps, e)
    ensures Blockers(Ballots(lib, ps, e), AsContender(p)) != {} <==> A.Blocked(lib, ps, e, p)
  {
    hide A.Blocks, Clear, Ballots, Blockers, AsContender;
    if Blockers(Ballots(lib, ps, e), AsContender(p)) != {} {
      var b :| b in Blockers(Ballots(lib, ps, e), AsContender(p));
      var u := BlockerPolicy(lib, ps, e, p, b);
    }
    if A.Blocked(lib, ps, e, p) {
      var u :| A.Blocks(lib, ps, e, p, u);
      PolicyBlocks(lib, ps, e, p, u);
    }
  }

  lemma BlockersMissing(lib: Lib, ps: seq<Policy>, e: map<string, Scalar>, p: Policy, x: string)
    requires Clear(lib, ps, e)
    ensures x in MissingOf(Blockers(Ballots(lib, ps, e), AsContender(p)))
            <==> exists u :: A.Blocks(lib, ps, e, p, u) && A.Lacks(u, e, x)
  {
    hide A.Blocks, Clear, Ballots, Blockers, AsContender, A.Lacks, MissingFields;
    var blockers := Blockers(Ballots(lib, ps, e), AsContender(p));
    if x in MissingOf(blockers) {
      var b :| b in blockers && x in b.missing;
      var u := BlockerPolicy(lib, ps, e, p, b);
      LacksExactly(u, e, x);
    }
    if exists u :: A.Blocks(lib, ps, e, p, u) && A.Lacks(u, e, x) {
      var u :| A.Blocks(lib, ps, e, p, u) && A.Lacks(u, e, x);
      PolicyBlocks(lib, ps, e, p, u);
      LacksExactly(u, e, x);
    }
  }

  lemma BlockerIds(lib: Lib, ps: seq<Policy>, e: map<string, Scalar>, p: Policy, x: string)
    requires Clear(lib, ps, e)
    ensures x in IdsOfBallots(Blockers(Ballots(lib, ps, e), AsContender(p)))
            <==> exists u :: A.Blocks(lib, ps, e, p, u) && u.id == x
  {
    hide A.Blocks, Clear, Ballots, Blockers;
    var blockers := Blockers(Ballots(lib, ps, e), AsContender(p));
    if x in IdsOfBallots(blockers) {
      var b :| b in blockers && b.contender.id == x;
      var u := BlockerPolicy(lib, ps, e, p, b);
    }
    if exists u :: A.Blocks(lib, ps, e, p, u) && u.id == x {
      var u :| A.Blocks(lib, ps, e, p, u) && u.id == x;
      PolicyBlocks(lib, ps, e, p, u);
    }
  }

  lemma LeaderIds(lib: Lib, ps: seq<Policy>, e: map<string, Scalar>, x: string)
    requires Clear(lib, ps, e)
    ensures x in Ids(Finalists(MatchedOn(lib, ps, e)))
            <==> exists p :: p in ps && A.Leads(lib, ps, e, p) && p.id == x
  {
    hide A.Leads, Clear, Finalists, MatchedOn;
    var fs := Finalists(MatchedOn(lib, ps, e));
    if x in Ids(fs) {
      var c :| c in fs && c.id == x;
      var p := LeaderPolicy(lib, ps, e, c);
    }
    if exists p :: p in ps && A.Leads(lib, ps, e, p) && p.id == x {
      var p :| p in ps && A.Leads(lib, ps, e, p) && p.id == x;
      LeadsExactly(lib, ps, e, p);
      assert AsContender(p) in fs;
    }
  }

  // ------------------------------------------------------------------ the applied rules

  lemma OverrodeExactly(lib: Lib, ps: seq<Policy>, e: map<string, Scalar>)
    requires Clear(lib, ps, e)
    ensures Standing(MatchedOn(lib, ps, e)) != MatchedOn(lib, ps, e)
            <==> exists p :: p in ps && A.Matches(lib, p, e) && A.Overruled(lib, ps, e, p)
  {
    hide A.Matches, A.Overruled, Clear, StatusOf;
    var m := MatchedOn(lib, ps, e);
    StatusesAre(lib, ps, e);
    if Standing(m) != m {
      var c :| c in m && c !in Standing(m);
      var p := FieldContender(lib, ps, e, c);
      StandsExactly(lib, ps, e, p);
    }
    if exists p :: p in ps && A.Matches(lib, p, e) && A.Overruled(lib, ps, e, p) {
      var p :| p in ps && A.Matches(lib, p, e) && A.Overruled(lib, ps, e, p);
      StandsExactly(lib, ps, e, p);
      ContenderInField(lib, ps, e, p);
    }
  }

  lemma NarrowedExactly(lib: Lib, ps: seq<Policy>, e: map<string, Scalar>)
    requires Clear(lib, ps, e)
    ensures MostSpecific(Standing(MatchedOn(lib, ps, e))) != Standing(MatchedOn(lib, ps, e))
            <==> exists p :: p in ps && A.Stands(lib, ps, e, p) && !A.Narrowest(lib, ps, e, p)
  {
    hide A.Stands, A.Narrowest, Clear, StatusOf, Standing;
    var s := Standing(MatchedOn(lib, ps, e));
    if MostSpecific(s) != s {
      var c :| c in s && c !in MostSpecific(s);
      var p := StanderPolicy(lib, ps, e, c);
      NarrowestExactly(lib, ps, e, p);
    }
    if exists p :: p in ps && A.Stands(lib, ps, e, p) && !A.Narrowest(lib, ps, e, p) {
      var p :| p in ps && A.Stands(lib, ps, e, p) && !A.Narrowest(lib, ps, e, p);
      StandsExactly(lib, ps, e, p);
      NarrowestExactly(lib, ps, e, p);
    }
  }

  lemma RankedExactly(lib: Lib, ps: seq<Policy>, e: map<string, Scalar>)
    requires Clear(lib, ps, e)
    ensures Finalists(MatchedOn(lib, ps, e)) != MostSpecific(Standing(MatchedOn(lib, ps, e)))
            <==> exists p :: p in ps && A.Narrowest(lib, ps, e, p) && !A.Leads(lib, ps, e, p)
  {
    hide A.Leads, A.Narrowest, Clear, StatusOf, Standing, MostSpecific;
    var s := MostSpecific(Standing(MatchedOn(lib, ps, e)));
    if Finalists(MatchedOn(lib, ps, e)) != s {
      var c :| c in s && c !in Finalists(MatchedOn(lib, ps, e));
      var p := NarrowPolicy(lib, ps, e, c);
      LeadsExactly(lib, ps, e, p);
    }
    if exists p :: p in ps && A.Narrowest(lib, ps, e, p) && !A.Leads(lib, ps, e, p) {
      var p :| p in ps && A.Narrowest(lib, ps, e, p) && !A.Leads(lib, ps, e, p);
      NarrowestExactly(lib, ps, e, p);
      LeadsExactly(lib, ps, e, p);
    }
  }

  lemma AloneExactly(lib: Lib, ps: seq<Policy>, e: map<string, Scalar>)
    requires Clear(lib, ps, e)
    ensures |Finalists(MatchedOn(lib, ps, e))| == 1 <==> exists p :: p in ps && A.LeadsAlone(lib, ps, e, p)
  {
    hide A.LeadsAlone, Clear, Finalists, MatchedOn;
    var fs := Finalists(MatchedOn(lib, ps, e));
    if |fs| == 1 {
      var c :| c in fs;
      assert |fs - {c}| == 0;
      assert fs == {c};
      var p := LeaderPolicy(lib, ps, e, c);
      LeadsAloneExactly(lib, ps, e, p);
    }
    if exists p :: p in ps && A.LeadsAlone(lib, ps, e, p) {
      var p :| p in ps && A.LeadsAlone(lib, ps, e, p);
      LeadsAloneExactly(lib, ps, e, p);
    }
  }

  /** The rules of the field, and the dominance rule behind them. */
  lemma RulesAreAccounted(lib: Lib, ps: seq<Policy>, e: map<string, Scalar>, blocked: bool)
    requires Clear(lib, ps, e)
    requires blocked <==> exists p :: p in ps && A.LeadsAlone(lib, ps, e, p) && A.Blocked(lib, ps, e, p)
    ensures A.RulesAccounted(lib, ps, e, RulesOf(MatchedOn(lib, ps, e)) + (if blocked then [DominanceRule] else []))
  {
    hide Clear, Finalists, MatchedOn, Standing, MostSpecific, A.Matches, A.Overruled, A.Stands, A.Narrowest, A.Leads,
        A.LeadsAlone, A.Blocked;
    OverrodeExactly(lib, ps, e);
    NarrowedExactly(lib, ps, e);
    RankedExactly(lib, ps, e);
    AloneExactly(lib, ps, e);
  }

  // ------------------------------------------------------------------ the three kinds of verdict

  ghost predicate VerdictAccounted(lib: Lib, ps: seq<Policy>, e: map<string, Scalar>, v: Verdict) {
    && A.OutcomeAccounted(lib, ps, e, v.outcome)
    && A.PrecedenceAccounted(lib, ps, e, PrecedenceTrace(v.rules, v.winner, [], v.tie, v.blockedBy))
  }

  lemma JudgedTied(lib: Lib, ps: seq<Policy>, e: map<string, Scalar>)
    requires Clear(lib, ps, e) && A.Tied(lib, ps, e) && !Stuck(MatchedOn(lib, ps, e))
    ensures var v := Judge(Ballots(lib, ps, e));
            && v.rules == RulesOf(MatchedOn(lib, ps, e)) && v.winner == None && v.blockedBy == []
            && v.tie == SortedSet(Ids(Finalists(MatchedOn(lib, ps, e))))
            && v.outcome == Escalation(Conflict, [], v.tie)
  {
    hide A.Tied, Clear, StatusOf, Finalists, Ballots, MatchedField, Judge, RulesOf, Ids;
    TiedExactly(lib, ps, e);
    JudgeTie(Ballots(lib, ps, e));
  }

  lemma TieNames(lib: Lib, ps: seq<Policy>, e: map<string, Scalar>, tie: seq<string>)
    requires Clear(lib, ps, e) && tie == SortedSet(Ids(Finalists(MatchedOn(lib, ps, e))))
    ensures Ascending(tie) && forall x :: x in tie <==> exists r :: r in ps && A.Leads(lib, ps, e, r) && r.id == x
  {
    hide A.Leads, Clear, Finalists, MatchedOn, Ids;
    forall x ensures x in tie <==> exists r :: r in ps && A.Leads(lib, ps, e, r) && r.id == x {
      LeaderIds(lib, ps, e, x);
    }
  }

  lemma TiedVerdict(lib: Lib, ps: seq<Policy>, e: map<string, Scalar>)
    requires Clear(lib, ps, e) && A.Tied(lib, ps, e) && !Stuck(MatchedOn(lib, ps, e))
    ensures VerdictAccounted(lib, ps, e, Judge(Ballots(lib, ps, e)))
  {
    hide Clear, A.Tied, A.Leads, A.LeadsAlone, A.Blocked, A.Matches, A.RulesAccounted, Judge, Ballots, Finalists,
        RulesOf, VerdictAccounted, Stuck, MatchedField;
    var v := Judge(Ballots(lib, ps, e));
    JudgedTied(lib, ps, e);
    var p := TiedLeader(lib, ps, e);
    TieNames(lib, ps, e, v.tie);
    RulesAreAccounted(lib, ps, e, false);
    assert v.rules == v.rules + [];
    TiedAccounted(lib, ps, e, p, v);
  }

  lemma TiedLeader(lib: Lib, ps: seq<Policy>, e: map<string, Scalar>) returns (p: Policy)
    requires A.Tied(lib, ps, e)
    ensures p in ps && A.Matches(lib, p, e) && forall q :: q in ps ==> !A.LeadsAlone(lib, ps, e, q)
  {
    hide A.Narrowest;
    var q;
    p, q :| p in ps && q in ps && A.Leads(lib, ps, e, p) && A.Leads(lib, ps, e, q) && p != q;
    LeadersMatch(lib, ps, e, p);
  }

  lemma TiedAccounted(lib: Lib, ps: seq<Policy>, e: map<string, Scalar>, p: Policy, v: Verdict)
    requires A.Tied(lib, ps, e) && p in ps && A.Matches(lib, p, e)
    requires forall q :: q in ps ==> !A.LeadsAlone(lib, ps, e, q)
    requires A.RulesAccounted(lib, ps, e, v.rules) && v.winner == None && v.blockedBy == [] && Ascending(v.tie)
    requires forall x :: x in v.tie <==> exists r :: r in ps && A.Leads(lib, ps, e, r) && r.id == x
    requires v.outcome == Escalation(Conflict, [], v.tie)
    ensures VerdictAccounted(lib, ps, e, v)
  {
    hide A.LeadsAlone, A.Leads, A.Matches, A.Tied, A.RulesAccounted, A.Blocks, A.UnmatchedOutcome, A.LedOutcome;
  }

  lemma LeadersMatch(lib: Lib, ps: seq<Policy>, e: map<string, Scalar>, p: Policy)
    requires A.Leads(lib, ps, e, p)
    ensures A.Matches(lib, p, e)
  {
  }

  lemma JudgedNobody(ballots: set<Ballot>)
    requires MatchedField(ballots) == {}
    ensures !Stuck(MatchedField(ballots))
    ensures var v, unproven := Judge(ballots), Unproven(ballots);
            && v.rules == RulesOf(MatchedField(ballots)) && v.winner == None && v.tie == [] && v.blockedBy == []
            && v.outcome == if unproven != {} then Escalation(MissingFacts, SortedSet(MissingOf(unproven)), [])
                            else Escalation(NoMatchingPolicy, [], [])
  {
    hide RulesOf, MissingOf, Finalists;
    JudgeNobody(ballots);
  }

  lemma NobodyVerdict(lib: Lib, ps: seq<Policy>, e: map<string, Scalar>)
    requires Clear(lib, ps, e) && MatchedOn(lib, ps, e) == {}
    ensures VerdictAccounted(lib, ps, e, Judge(Ballots(lib, ps, e)))
  {
    hide NoWinner, Ballots, Judge, Stuck, MatchedField, Finalists;
    JudgedNobody(Ballots(lib, ps, e));
    hide Clear, RulesOf, A.RulesAccounted, A.Matches, A.Pends, A.Lacks, A.Blocked, A.Blocks, StatusOf,
        A.LeadsAlone, A.Leads, Unproven, MatchedOn, MissingOf, A.OutcomeAccounted, A.PrecedenceAccounted,
        VerdictAccounted;
    NobodyMatches(lib, ps, e);
    NobodyLeads(lib, ps, e);
    var v, unproven := Judge(Ballots(lib, ps, e)), Unproven(Ballots(lib, ps, e));
    RulesAreAccounted(lib, ps, e, false);
    assert v.rules + [] == v.rules;
    SomeUnproven(lib, ps, e);
    forall x ensures x in MissingOf(unproven) <==> exists u :: u in ps && A.Pends(lib, u, e) && A.Lacks(u, e, x) {
      UnprovenMissing(lib, ps, e, x);
    }
    NobodyAccounted(lib, ps, e, v, unproven);
  }

  lemma NobodyLeads(lib: Lib, ps: seq<Policy>, e: map<string, Scalar>)
    requires forall p :: p in ps ==> !A.Matches(lib, p, e)
    ensures !A.Tied(lib, ps, e) && forall p :: p in ps ==> !A.LeadsAlone(lib, ps, e, p) && !A.Leads(lib, ps, e, p)
  {
    hide A.Matches;
    forall p | p in ps ensures !A.Leads(lib, ps, e, p) { if A.Leads(lib, ps, e, p) { LeadersMatch(lib, ps, e, p); } }
  }

  lemma NobodyAccounted(lib: Lib, ps: seq<Policy>, e: map<string, Scalar>, v: Verdict, unproven: set<Ballot>)
    requires (forall p :: p in ps ==> !A.Matches(lib, p, e)) && A.RulesAccounted(lib, ps, e, v.rules)
    requires unproven != {} <==> exists u :: u in ps && A.Pends(lib, u, e)
    requires forall x :: x in MissingOf(unproven) <==> exists u :: u in ps && A.Pends(lib, u, e) && A.Lacks(u, e, x)
    requires v.outcome == if unproven != {} then Escalation(MissingFacts, SortedSet(MissingOf(unproven)), [])
                          else Escalation(NoMatchingPolicy, [], [])
    requires v.winner == None && v.tie == [] && v.blockedBy == []
    ensures VerdictAccounted(lib, ps, e, v)
  {
    hide A.RulesAccounted, A.Matches, A.Pends, A.Lacks, A.Blocked, A.Blocks, A.LeadsAlone, A.Leads, A.Tied, MissingOf,
        A.LedOutcome, A.TiedOutcome;
    NobodyLeads(lib, ps, e);
  }

  lemma NobodyMatches(lib: Lib, ps: seq<Policy>, e: map<string, Scalar>)
    requires Clear(lib, ps, e) && MatchedOn(lib, ps, e) == {}
    ensures forall p :: p in ps ==> !A.Matches(lib, p, e)
  {
    hide A.Matches, StatusOf, Clear;
    StatusesAre(lib, ps, e);
    forall p | p in ps ensures !A.Matches(lib, p, e) {
      if A.Matches(lib, p, e) { ContenderInField(lib, ps, e, p); }
    }
  }

  lemma JudgedLed(lib: Lib, ps: seq<Policy>, e: map<string, Scalar>, p: Policy)
    requires Clear(lib, ps, e) && p in ps && A.LeadsAlone(lib, ps, e, p)
    ensures !Stuck(MatchedOn(lib, ps, e))
    ensures Judge(Ballots(lib, ps, e)) ==
            WithWinner(Ballots(lib, ps, e), BallotOf(lib, p, e), RulesOf(MatchedOn(lib, ps, e)))
  {
    hide A.Matches, StatusOf, Ready, PolicyOverflows, A.Leads, Finalists;
    LeadsAloneExactly(lib, ps, e, p);
    LeadsExactly(lib, ps, e, p);
    BallotMember(lib, ps, e, p);
    CastDistinct(Votes(lib, e), ps);
    JudgeWinner(Ballots(lib, ps, e), BallotOf(lib, p, e));
  }

  lemma OnlyLeader(lib: Lib, ps: seq<Policy>, e: map<string, Scalar>, p: Policy)
    requires p in ps && A.LeadsAlone(lib, ps, e, p)
    ensures !A.Tied(lib, ps, e) && forall q :: q in ps && A.LeadsAlone(lib, ps, e, q) ==> q == p
  {
    hide A.Leads;
  }

  lemma LedVerdict(lib: Lib, ps: seq<Policy>, e: map<string, Scalar>, p: Policy)
    requires Clear(lib, ps, e) && p in ps && A.LeadsAlone(lib, ps, e, p)
    ensures !Stuck(MatchedOn(lib, ps, e)) && VerdictAccounted(lib, ps, e, Judge(Ballots(lib, ps, e)))
  {
    JudgedLed(lib, ps, e, p);
    OnlyLeader(lib, ps, e, p);
    LeadersMatch(lib, ps, e, p);
    BlockedExactly(lib, ps, e, p);
    hide A.Leads, A.LeadsAlone, A.Blocks, A.Lacks, A.Matches, A.Tied, StatusOf, Finalists, RulesOf, MatchedOn,
        A.RulesAccounted, Ready, PolicyOverflows, A.Blocked;
    var blocked := A.Blocked(lib, ps, e, p);
    RulesAreAccounted(lib, ps, e, blocked);
    var blockers := Blockers(Ballots(lib, ps, e), AsContender(p));
    forall x ensures x in MissingOf(blockers) <==> exists u :: A.Blocks(lib, ps, e, p, u) && A.Lacks(u, e, x) {
      BlockersMissing(lib, ps, e, p, x);
    }
    forall x ensures x in IdsOfBallots(blockers) <==> exists u :: A.Blocks(lib, ps, e, p, u) && u.id == x {
      BlockerIds(lib, ps, e, p, x);
    }
    hide Ballots, Blockers, MissingOf, IdsOfBallots, Judge;
    LedAccounted(lib, ps, e, p, Judge(Ballots(lib, ps, e)), blockers);
  }

  lemma LedAccounted(lib: Lib, ps: seq<Policy>, e: map<string, Scalar>, p: Policy, v: Verdict, blockers: set<Ballot>)
    requires DistinctIds(ps) && p in ps && A.LeadsAlone(lib, ps, e, p) && A.Matches(lib, p, e) && !A.Tied(lib, ps, e)
    requires forall q :: q in ps && A.LeadsAlone(lib, ps, e, q) ==> q == p
    requires blockers != {} <==> A.Blocked(lib, ps, e, p)
    requires forall x :: x in MissingOf(blockers) <==> exists u :: A.Blocks(lib, ps, e, p, u) && A.Lacks(u, e, x)
    requires forall x :: x in IdsOfBallots(blockers) <==> exists u :: A.Blocks(lib, ps, e, p, u) && u.id == x
    requires A.RulesAccounted(lib, ps, e, v.rules)
    requires if blockers != {} then
               v.outcome == Escalation(MissingFacts, SortedSet(MissingOf(blockers)), []) && v.winner == None
               && v.tie == [] && v.blockedBy == SortedSet(IdsOfBallots(blockers))
             else v.outcome == Decisive(p.id, p.effect, p.authority) && v.winner == Some(p.id)
                  && v.tie == [] && v.blockedBy == []
    ensures VerdictAccounted(lib, ps, e, v)
  {
    hide A.LeadsAlone, A.Blocks, A.Lacks, A.Matches, A.Tied, A.RulesAccounted, MissingOf, IdsOfBallots, DistinctIds,
        A.LedOutcome, A.TiedOutcome, A.UnmatchedOutcome, A.PrecedenceAccounted;
    LedOutcomeIs(lib, ps, e, p, v.outcome, blockers);
    LedPrecedenceIs(lib, ps, e, p, v, blockers);
  }

  lemma LedOutcomeIs(lib: Lib, ps: seq<Policy>, e: map<string, Scalar>, p: Policy, o: Outcome, blockers: set<Ballot>)
    requires blockers != {} <==> A.Blocked(lib, ps, e, p)
    requires forall x :: x in MissingOf(blockers) <==> exists u :: A.Blocks(lib, ps, e, p, u) && A.Lacks(u, e, x)
    requires o == if blockers != {} then Escalation(MissingFacts, SortedSet(MissingOf(blockers)), [])
                  else Decisive(p.id, p.effect, p.authority)
    ensures A.LedOutcome(lib, ps, e, p, o)
  {
    hide A.Blocks, A.Lacks, A.Blocked, MissingOf;
  }

  lemma LedPrecedenceIs(lib: Lib, ps: seq<Policy>, e: map<string, Scalar>, p: Policy, v: Verdict, blockers: set<Ballot>)
    requires DistinctIds(ps) && p in ps && A.LeadsAlone(lib, ps, e, p) && !A.Tied(lib, ps, e)
    requires forall q :: q in ps && A.LeadsAlone(lib, ps, e, q) ==> q == p
    requires blockers != {} <==> A.Blocked(lib, ps, e, p)
    requires forall x :: x in IdsOfBallots(blockers) <==> exists u :: A.Blocks(lib, ps, e, p, u) && u.id == x
    requires A.RulesAccounted(lib, ps, e, v.rules) && v.tie == []
    requires if blockers != {} then v.winner == None && v.blockedBy == SortedSet(IdsOfBallots(blockers))
             else v.winner == Some(p.id) && v.blockedBy == []
    ensures A.PrecedenceAccounted(lib, ps, e, PrecedenceTrace(v.rules, v.winner, [], v.tie, v.blockedBy))
  {
    hide A.LeadsAlone, A.Blocks, A.Tied, A.RulesAccounted, IdsOfBallots, DistinctIds;
    forall q | q in ps && q.id == p.id ensures q == p { SameIdSamePolicy(ps, p, q); }
    assert blockers == {} ==> forall u :: !A.Blocks(lib, ps, e, p, u);
  }

  /** Every judgement is accounted for. */
  lemma VerdictIsAccounted(lib: Lib, ps: seq<Policy>, e: map<string, Scalar>)
    requires Clear(lib, ps, e) && !Stuck(MatchedOn(lib, ps, e))
    ensures VerdictAccounted(lib, ps, e, Judge(Ballots(lib, ps, e)))
  {
    hide Clear, Finalists, VerdictAccounted, A.Tied, A.LeadsAlone, Judge, Stuck;
    var m := MatchedOn(lib, ps, e);
    TiedExactly(lib, ps, e);
    AloneExactly(lib, ps, e);
    NoFinalists(m);
    if A.Tied(lib, ps, e) {
      TiedVerdict(lib, ps, e);
    } else if m == {} {
      NobodyVerdict(lib, ps, e);
    } else {
      SizeOne(Finalists(m));
      var p :| p in ps && A.LeadsAlone(lib, ps, e, p);
      LedVerdict(lib, ps, e, p);
    }
  }

  lemma SizeOne<T>(s: set<T>)
    requires s != {} && |s| <= 1
    ensures |s| == 1
  {
  }

  // ------------------------------------------------------------------ list order

  lemma BeforeGrows(front: seq<Policy>, more: seq<Policy>, p: Policy, q: Policy)
    requires A.Before(front, p, q)
    ensures A.Before(front + more, p, q) && A.Before(more + front, p, q)
  {
    var i, j :| 0 <= i < j < |front| && front[i] == p && front[j] == q;
    assert (front + more)[i] == p && (front + more)[j] == q;
    assert (more + front)[|more| + i] == p && (more + front)[|more| + j] == q;
  }

  lemma BeforeLast(front: seq<Policy>, p: Policy, q: Policy)
    requires p in front
    ensures A.Before(front + [q], p, q)
  {
    var i :| 0 <= i < |front| && front[i] == p;
    assert (front + [q])[i] == p && (front + [q])[|front|] == q;
  }

  lemma BeforeSplits(front: seq<Policy>, last: Policy, p: Policy, q: Policy)
    requires A.Before(front + [last], p, q)
    ensures A.Before(front, p, q) || (p in front && q == last)
  {
    var i, j :| 0 <= i < j < |front + [last]| && (front + [last])[i] == p && (front + [last])[j] == q;
    assert front[i] == p;
    if j < |front| { assert front[j] == q; }
  }

  lemma {:induction false} HavingKeepsOrder(vote: Voter, ps: seq<Policy>, st: PolicyStatus, p: Policy, q: Policy)
    requires A.Before(Having(vote, ps, st), p, q)
    ensures A.Before(ps, p, q)
  {
    hide A.Before;
    assert ps != [] by { BeforeNonempty(Having(vote, ps, st), p, q); }
    var front, last := ps[..|ps| - 1], ps[|ps| - 1];
    assert ps == front + [last];
    var r := Having(vote, front, st);
    if vote(last).status == st {
      BeforeSplits(r, last, p, q);
      if A.Before(r, p, q) {
        HavingKeepsOrder(vote, front, st, p, q);
        BeforeGrows(front, [last], p, q);
      } else {
        BeforeLast(front, p, last);
      }
    } else {
      assert Having(vote, ps, st) == r;
      HavingKeepsOrder(vote, front, st, p, q);
      BeforeGrows(front, [last], p, q);
    }
  }

  lemma BeforeNonempty(ps: seq<Policy>, p: Policy, q: Policy)
    requires A.Before(ps, p, q)
    ensures ps != []
  {
  }

  lemma BeforeFirst(q: Policy, rest: seq<Policy>, p: Policy)
    requires p in rest
    ensures A.Before([q] + rest, q, p)
  {
    var i :| 0 <= i < |rest| && rest[i] == p;
    assert ([q] + rest)[0] == q && ([q] + rest)[i + 1] == p;
  }

  lemma BeforeSplitsFirst(first: Policy, rest: seq<Policy>, p: Policy, q: Policy)
    requires A.Before([first] + rest, p, q)
    ensures A.Before(rest, p, q) || (p == first && q in rest)
  {
    var i, j :| 0 <= i < j < |[first] + rest| && ([first] + rest)[i] == p && ([first] + rest)[j] == q;
    assert rest[j - 1] == q;
    if i > 0 { assert rest[i - 1] == p; }
  }

  lemma {:induction false} AmongKeepsOrder(ps: seq<Policy>, ids: set<string>, p: Policy, q: Policy)
    requires A.Before(Among(ps, ids), p, q)
    ensures A.Before(ps, p, q)
  {
    hide A.Before;
    assert ps != [] by { BeforeNonempty(Among(ps, ids), p, q); }
    var first, rest := ps[0], ps[1..];
    assert ps == [first] + rest;
    var r := Among(rest, ids);
    if first.id in ids {
      BeforeSplitsFirst(first, r, p, q);
      if A.Before(r, p, q) {
        AmongKeepsOrder(rest, ids, p, q);
        BeforeGrows(rest, [first], p, q);
      } else {
        BeforeFirst(first, rest, q);
      }
    } else {
      assert Among(ps, ids) == r;
      AmongKeepsOrder(rest, ids, p, q);
      BeforeGrows(rest, [first], p, q);
    }
  }

  lemma OneIndex(ps: seq<Policy>, i: nat, j: nat)
    requires DistinctIds(ps) && i < |ps| && j < |ps| && ps[i] == ps[j]
    ensures i == j
  {
    hide DistinctIds;
    if i < j { DistinctAt(ps, i, j); } else if j < i { DistinctAt(ps, j, i); }
  }

  lemma BeforeOneWay(ps: seq<Policy>, p: Policy, q: Policy)
    requires DistinctIds(ps) && A.Before(ps, p, q)
    ensures !A.Before(ps, q, p)
  {
    hide DistinctIds;
    var i, j :| 0 <= i < j < |ps| && ps[i] == p && ps[j] == q;
    if A.Before(ps, q, p) {
      var k, m :| 0 <= k < m < |ps| && ps[k] == q && ps[m] == p;
      OneIndex(ps, k, j);
      OneIndex(ps, i, m);
    }
  }

  // ------------------------------------------------------------------ the strikes

  ghost function MatchedSeq(lib: Lib, ps: seq<Policy>, e: map<string, Scalar>): seq<Policy> {
    WithStatus(lib, ps, e, Matched)
  }

  lemma MatchedMember(lib: Lib, ps: seq<Policy>, e: map<string, Scalar>, p: Policy)
    requires Clear(lib, ps, e)
    ensures p in MatchedSeq(lib, ps, e) <==> p in ps && A.Matches(lib, p, e)
  {
    hide A.Matches, StatusOf, Clear;
    StatusesAre(lib, ps, e);
  }

  lemma MatchedSeqIs(lib: Lib, ps: seq<Policy>, e: map<string, Scalar>)
    requires Clear(lib, ps, e)
    ensures DistinctIds(MatchedSeq(lib, ps, e)) && Field(MatchedSeq(lib, ps, e)) == MatchedOn(lib, ps, e)
  {
    hide A.Matches, StatusOf, Ready, PolicyOverflows;
    HavingDistinct(Votes(lib, e), ps, Matched);
    MatchedAre(Votes(lib, e), ps);
  }

  lemma MatchedOrder(lib: Lib, ps: seq<Policy>, e: map<string, Scalar>, p: Policy, q: Policy)
    requires A.Before(MatchedSeq(lib, ps, e), p, q)
    ensures A.Before(ps, p, q)
  {
    HavingKeepsOrder(Votes(lib, e), ps, Matched, p, q);
  }

  /** A block of strikes as `Strike` builds it. */
  lemma StrikeBlock(lib: Lib, ps: seq<Policy>, e: map<string, Scalar>, rule: Rule, ids: seq<string>,
                    culprit: map<string, string>)
    requires Ascending(ids) && forall x :: x in ids ==> x in culprit
    requires forall x, y :: (x in ids && culprit[x] == y) <==> StrikeDue(lib, ps, e, rule, x, y)
    ensures A.BlockAccounted(lib, ps, e, rule, Strike(ids, culprit, rule))
  {
    hide A.StruckBy, Less, Strike, StrikeDue;
    var block := Strike(ids, culprit, rule);
    forall x, y ensures Elimination(x, y, rule) in block <==> StrikeDue(lib, ps, e, rule, x, y) {
      InStrike(ids, culprit, rule, x, y);
    }
    DueBlock(lib, ps, e, rule, block);
  }

  lemma InStrike(ids: seq<string>, culprit: map<string, string>, rule: Rule, x: string, y: string)
    requires forall id :: id in ids ==> id in culprit
    ensures Elimination(x, y, rule) in Strike(ids, culprit, rule) <==> x in ids && culprit[x] == y
  {
    hide Strike;
    var block := Strike(ids, culprit, rule);
    if x in ids && culprit[x] == y {
      var k :| 0 <= k < |ids| && ids[k] == x;
      assert block[k] == Elimination(x, y, rule);
    }
  }

  lemma DueBlock(lib: Lib, ps: seq<Policy>, e: map<string, Scalar>, rule: Rule, block: seq<Elimination>)
    requires forall i :: 0 <= i < |block| ==> block[i].rule == rule
    requires forall i, j :: 0 <= i < j < |block| ==> Less(block[i].policyId, block[j].policyId)
    requires forall x, y :: Elimination(x, y, rule) in block <==> StrikeDue(lib, ps, e, rule, x, y)
    ensures A.BlockAccounted(lib, ps, e, rule, block)
  {
    hide A.StruckBy, Less;
  }

  ghost predicate StrikeDue(lib: Lib, ps: seq<Policy>, e: map<string, Scalar>, rule: Rule, x: string, y: string) {
    exists p, q :: p in ps && q in ps && A.StruckBy(lib, ps, e, rule, p, q) && p.id == x && q.id == y
  }

  lemma LastIsLast(lib: Lib, ps: seq<Policy>, e: map<string, Scalar>, i: nat, x: string)
    requires Clear(lib, ps, e) && LastOverrider(MatchedSeq(lib, ps, e), i, x)
    ensures A.LastToOverride(lib, ps, e, MatchedSeq(lib, ps, e)[i], x)
  {
    hide A.Matches, Clear, MatchedSeq;
    var ms := MatchedSeq(lib, ps, e);
    var q := ms[i];
    MatchedMember(lib, ps, e, q);
    forall r | r in ps && A.Matches(lib, r, e) && x in r.overrides && r != q ensures A.Before(ps, r, q) {
      MatchedMember(lib, ps, e, r);
      var j :| 0 <= j < |ms| && ms[j] == r;
      assert A.Before(ms, r, q);
      MatchedOrder(lib, ps, e, r, q);
    }
  }

  lemma LastIsOne(lib: Lib, ps: seq<Policy>, e: map<string, Scalar>, x: string, q: Policy, r: Policy)
    requires DistinctIds(ps) && A.LastToOverride(lib, ps, e, q, x) && A.LastToOverride(lib, ps, e, r, x)
    ensures q == r
  {
    hide A.Matches, DistinctIds, A.Before;
    if q != r { BeforeOneWay(ps, r, q); }
  }

  lemma OverrideBlock(lib: Lib, ps: seq<Policy>, e: map<string, Scalar>)
    requires Clear(lib, ps, e)
    ensures A.BlockAccounted(lib, ps, e, OverridesRule, OverrideStrikes(MatchedSeq(lib, ps, e)))
  {
    hide A.Matches, A.LastToOverride, A.BlockAccounted, Ready, PolicyOverflows, DistinctIds, MatchedSeq;
    var ms := MatchedSeq(lib, ps, e);
    var struck := OverrideMap(ms, IdsOf(ms));
    forall x, y
      ensures (x in SortedSet(struck.Keys) && struck[x] == y) <==> StrikeDue(lib, ps, e, OverridesRule, x, y)
    {
      OverrideDue(lib, ps, e, x, y);
    }
    StrikeBlock(lib, ps, e, OverridesRule, SortedSet(struck.Keys), struck);
  }

  lemma OverrideDue(lib: Lib, ps: seq<Policy>, e: map<string, Scalar>, x: string, y: string)
    requires Clear(lib, ps, e)
    ensures var ms := MatchedSeq(lib, ps, e); var struck := OverrideMap(ms, IdsOf(ms));
            (x in struck && struck[x] == y) <==> StrikeDue(lib, ps, e, OverridesRule, x, y)
  {
    hide A.Matches, A.LastToOverride, Ready, PolicyOverflows, DistinctIds, MatchedSeq, OverrideMap;
    var ms := MatchedSeq(lib, ps, e);
    var struck := OverrideMap(ms, IdsOf(ms));
    OverrideMapMeaning(ms, IdsOf(ms));
    if x in struck {
      var i := LastOverriderIsNamed(ms, IdsOf(ms), x);
      LastIsLast(lib, ps, e, i, x);
      var p :| p in ms && p.id == x;
      MatchedMember(lib, ps, e, p);
      MatchedMember(lib, ps, e, ms[i]);
      assert A.StruckBy(lib, ps, e, OverridesRule, p, ms[i]);
      if StrikeDue(lib, ps, e, OverridesRule, x, y) {
        var p', q :| p' in ps && q in ps && A.StruckBy(lib, ps, e, OverridesRule, p', q) && p'.id == x && q.id == y;
        LastIsOne(lib, ps, e, x, q, ms[i]);
      }
    } else if StrikeDue(lib, ps, e, OverridesRule, x, y) {
      DueIsStruck(lib, ps, e, x, y);
    }
  }

  lemma DueIsStruck(lib: Lib, ps: seq<Policy>, e: map<string, Scalar>, x: string, y: string)
    requires Clear(lib, ps, e) && StrikeDue(lib, ps, e, OverridesRule, x, y)
    ensures x in OverrideMap(MatchedSeq(lib, ps, e), IdsOf(MatchedSeq(lib, ps, e)))
  {
    hide A.Matches, Ready, PolicyOverflows, DistinctIds, MatchedSeq, OverrideMap;
    var ms := MatchedSeq(lib, ps, e);
    var p, q :| p in ps && q in ps && A.StruckBy(lib, ps, e, OverridesRule, p, q) && p.id == x && q.id == y;
    MatchedMember(lib, ps, e, p);
    MatchedMember(lib, ps, e, q);
    OverrideMapMeaning(ms, IdsOf(ms));
  }

  lemma StandingMember(lib: Lib, ps: seq<Policy>, e: map<string, Scalar>, p: Policy)
    requires Clear(lib, ps, e)
    ensures p in StandingSeq(MatchedSeq(lib, ps, e)) <==> A.Stands(lib, ps, e, p)
  {
    hide A.Matches, Ready, PolicyOverflows, StatusOf, A.Overruled;
    var ms := MatchedSeq(lib, ps, e);
    MatchedSeqIs(lib, ps, e);
    MatchedMember(lib, ps, e, p);
    hide MatchedSeq;
    if p in ps {
      StandsExactly(lib, ps, e, p);
      StatusesAre(lib, ps, e);
      if p in ms { InStage(ms, Standing(Field(ms)), p); }
    }
  }

  lemma NarrowestMember(lib: Lib, ps: seq<Policy>, e: map<string, Scalar>, p: Policy)
    requires Clear(lib, ps, e)
    ensures p in SpecificSeq(StandingSeq(MatchedSeq(lib, ps, e))) <==> p in ps && A.Narrowest(lib, ps, e, p)
  {
    hide A.Stands, Ready, PolicyOverflows, StatusOf, Standing;
    var s1 := StandingSeq(MatchedSeq(lib, ps, e));
    MatchedSeqIs(lib, ps, e);
    StandingStage(MatchedSeq(lib, ps, e));
    StandingMember(lib, ps, e, p);
    StandsHere(lib, ps, e, p);
    if p in s1 {
      NarrowestExactly(lib, ps, e, p);
      StandsExactly(lib, ps, e, p);
      InStage(s1, MostSpecific(Field(s1)), p);
    }
  }

  lemma StandsHere(lib: Lib, ps: seq<Policy>, e: map<string, Scalar>, p: Policy)
    ensures A.Stands(lib, ps, e, p) ==> p in ps
  {
  }

  lemma LeaderMember(lib: Lib, ps: seq<Policy>, e: map<string, Scalar>, p: Policy)
    requires Clear(lib, ps, e)
    ensures p in FinalSeq(MatchedSeq(lib, ps, e)) <==> p in ps && A.Leads(lib, ps, e, p)
  {
    hide A.Narrowest, Ready, PolicyOverflows, StatusOf, Standing, MostSpecific;
    var s1 := StandingSeq(MatchedSeq(lib, ps, e));
    var s2 := SpecificSeq(s1);
    MatchedSeqIs(lib, ps, e);
    StandingStage(MatchedSeq(lib, ps, e));
    RankingStages(s1);
    NarrowestMember(lib, ps, e, p);
    if p in s2 {
      LeadsExactly(lib, ps, e, p);
      NarrowestExactly(lib, ps, e, p);
      InStage(s2, TopPriority(Field(s2)), p);
    }
  }

  lemma HeadIsFirst(ps: seq<Policy>, ss: seq<Policy>, r: Policy)
    requires ss != [] && r in ss && r != ss[0]
    ensures A.Before(ss, ss[0], r)
  {
    var j :| 0 <= j < |ss| && ss[j] == r;
  }

  lemma FirstNarrowestIs(lib: Lib, ps: seq<Policy>, e: map<string, Scalar>)
    requires Clear(lib, ps, e)
    ensures var s2 := SpecificSeq(StandingSeq(MatchedSeq(lib, ps, e)));
            s2 != [] ==> A.FirstNarrowest(lib, ps, e, s2[0])
  {
    hide A.Narrowest, Clear, A.Before, MostSpecific, Standing;
    var ms := MatchedSeq(lib, ps, e);
    var s1 := StandingSeq(ms);
    var s2 := SpecificSeq(s1);
    if s2 != [] {
      NarrowestMember(lib, ps, e, s2[0]);
      forall r | r in ps && A.Narrowest(lib, ps, e, r) && r != s2[0] ensures A.Before(ps, s2[0], r) {
        NarrowestMember(lib, ps, e, r);
        HeadIsFirst(ps, s2, r);
        AmongKeepsOrder(s1, Ids(MostSpecific(Field(s1))), s2[0], r);
        AmongKeepsOrder(ms, Ids(Standing(Field(ms))), s2[0], r);
        MatchedOrder(lib, ps, e, s2[0], r);
      }
    }
  }

  lemma FirstLeaderIs(lib: Lib, ps: seq<Policy>, e: map<string, Scalar>)
    requires Clear(lib, ps, e)
    ensures var s3 := FinalSeq(MatchedSeq(lib, ps, e)); s3 != [] ==> A.FirstLeader(lib, ps, e, s3[0])
  {
    hide A.Leads, Clear, A.Before, MostSpecific, Standing, TopPriority;
    var ms := MatchedSeq(lib, ps, e);
    var s1 := StandingSeq(ms);
    var s2 := SpecificSeq(s1);
    var s3 := FinalSeq(ms);
    if s3 != [] {
      LeaderMember(lib, ps, e, s3[0]);
      forall r | r in ps && A.Leads(lib, ps, e, r) && r != s3[0] ensures A.Before(ps, s3[0], r) {
        LeaderMember(lib, ps, e, r);
        HeadIsFirst(ps, s3, r);
        AmongKeepsOrder(s2, Ids(TopPriority(Field(s2))), s3[0], r);
        AmongKeepsOrder(s1, Ids(MostSpecific(Field(s1))), s3[0], r);
        AmongKeepsOrder(ms, Ids(Standing(Field(ms))), s3[0], r);
        MatchedOrder(lib, ps, e, s3[0], r);
      }
    }
  }

  /** A ranking stage: who is struck is who is in the one list and not in the other, by its head. */
  lemma StageDue(lib: Lib, ps: seq<Policy>, e: map<string, Scalar>, rule: Rule, ss: seq<Policy>, kept: seq<Policy>)
    requires DistinctIds(ps) && (forall p :: p in ss ==> p in ps) && (forall p :: p in kept ==> p in ss)
    requires kept == [] ==> ss == []
    requires forall p, q :: p in ps && q in ps ==>
               (A.StruckBy(lib, ps, e, rule, p, q) <==> p in ss && p !in kept && q == kept[0])
    ensures A.BlockAccounted(lib, ps, e, rule, StageStrikes(ss, kept, rule))
  {
    hide A.StruckBy, A.BlockAccounted, DistinctIds, Less;
    var losers := IdsOf(ss) - IdsOf(kept);
    if kept == [] {
      forall x, y ensures !StrikeDue(lib, ps, e, rule, x, y) { }
      StrikeBlock(lib, ps, e, rule, [], map[]);
    } else {
      var culprit := map id | id in losers :: kept[0].id;
      forall x, y ensures (x in SortedSet(losers) && culprit[x] == y) <==> StrikeDue(lib, ps, e, rule, x, y) {
        StageStrikeDue(lib, ps, e, rule, ss, kept, x, y);
      }
      StrikeBlock(lib, ps, e, rule, SortedSet(losers), culprit);
    }
  }

  lemma StageStrikeDue(lib: Lib, ps: seq<Policy>, e: map<string, Scalar>, rule: Rule, ss: seq<Policy>,
                       kept: seq<Policy>, x: string, y: string)
    requires DistinctIds(ps) && (forall p :: p in ss ==> p in ps) && (forall p :: p in kept ==> p in ss)
    requires kept != []
    requires forall p, q :: p in ps && q in ps ==>
               (A.StruckBy(lib, ps, e, rule, p, q) <==> p in ss && p !in kept && q == kept[0])
    ensures x in IdsOf(ss) - IdsOf(kept) && kept[0].id == y <==> StrikeDue(lib, ps, e, rule, x, y)
  {
    hide A.StruckBy, DistinctIds;
    if x in IdsOf(ss) - IdsOf(kept) && kept[0].id == y {
      var p :| p in ss && p.id == x;
      assert A.StruckBy(lib, ps, e, rule, p, kept[0]);
    }
    if StrikeDue(lib, ps, e, rule, x, y) {
      var p, q :| p in ps && q in ps && A.StruckBy(lib, ps, e, rule, p, q) && p.id == x && q.id == y;
      if x in IdsOf(kept) {
        var r :| r in kept && r.id == x;
        SameIdSamePolicy(ps, p, r);
      }
    }
  }

  lemma FirstNarrowestIsOne(lib: Lib, ps: seq<Policy>, e: map<string, Scalar>, k: Policy, r: Policy)
    requires DistinctIds(ps) && A.FirstNarrowest(lib, ps, e, k) && A.FirstNarrowest(lib, ps, e, r)
    ensures k == r
  {
    hide A.Narrowest, DistinctIds, A.Before;
    if k != r { BeforeOneWay(ps, k, r); }
  }

  lemma FirstLeaderIsOne(lib: Lib, ps: seq<Policy>, e: map<string, Scalar>, k: Policy, r: Policy)
    requires DistinctIds(ps) && A.FirstLeader(lib, ps, e, k) && A.FirstLeader(lib, ps, e, r)
    ensures k == r
  {
    hide A.Leads, DistinctIds, A.Before;
    if k != r { BeforeOneWay(ps, k, r); }
  }

  lemma KeptWhenStanding(lib: Lib, ps: seq<Policy>, e: map<string, Scalar>)
    requires Clear(lib, ps, e)
    ensures var s1 := StandingSeq(MatchedSeq(lib, ps, e));
            && (SpecificSeq(s1) == [] ==> s1 == [])
            && (FinalSeq(MatchedSeq(lib, ps, e)) == [] ==> SpecificSeq(s1) == [])
  {
    hide Ready, PolicyOverflows, StatusOf, Standing, MatchedSeq;
    var ms := MatchedSeq(lib, ps, e);
    MatchedSeqIs(lib, ps, e);
    if StandingSeq(ms) != [] { StagesNonempty(ms); } else { StandingEmptiesAll(ms); }
  }

  lemma SpecificBlock(lib: Lib, ps: seq<Policy>, e: map<string, Scalar>)
    requires Clear(lib, ps, e)
    ensures var s1 := StandingSeq(MatchedSeq(lib, ps, e));
            A.BlockAccounted(lib, ps, e, SpecificityRule, StageStrikes(s1, SpecificSeq(s1), SpecificityRule))
  {
    hide A.Stands, A.Narrowest, A.FirstNarrowest, A.BlockAccounted, Ready, PolicyOverflows, DistinctIds,
        StandingSeq, SpecificSeq, MatchedSeq;
    var s1 := StandingSeq(MatchedSeq(lib, ps, e));
    var s2 := SpecificSeq(s1);
    KeptWhenStanding(lib, ps, e);
    FirstNarrowestIs(lib, ps, e);
    forall p ensures (p in s1 <==> p in ps && A.Stands(lib, ps, e, p))
                     && (p in s2 <==> p in ps && A.Narrowest(lib, ps, e, p)) {
      StandingMember(lib, ps, e, p);
      StandsHere(lib, ps, e, p);
      NarrowestMember(lib, ps, e, p);
    }
    forall p | p in s2 ensures p in s1 { NarrowestStand(lib, ps, e, p); }
    forall q | s2 != [] && A.FirstNarrowest(lib, ps, e, q) ensures q == s2[0] {
      FirstNarrowestIsOne(lib, ps, e, q, s2[0]);
    }
    StageDue(lib, ps, e, SpecificityRule, s1, s2);
  }

  lemma NarrowestStand(lib: Lib, ps: seq<Policy>, e: map<string, Scalar>, p: Policy)
    requires A.Narrowest(lib, ps, e, p)
    ensures A.Stands(lib, ps, e, p)
  {
    hide A.Stands;
  }

  lemma LeadersNarrowest(lib: Lib, ps: seq<Policy>, e: map<string, Scalar>, p: Policy)
    requires A.Leads(lib, ps, e, p)
    ensures A.Narrowest(lib, ps, e, p)
  {
    hide A.Narrowest;
  }

  lemma PriorityBlock(lib: Lib, ps: seq<Policy>, e: map<string, Scalar>)
    requires Clear(lib, ps, e)
    ensures var s2 := SpecificSeq(StandingSeq(MatchedSeq(lib, ps, e)));
            A.BlockAccounted(lib, ps, e, PriorityRule,
                             StageStrikes(s2, FinalSeq(MatchedSeq(lib, ps, e)), PriorityRule))
  {
    hide A.Leads, A.Narrowest, A.FirstLeader, A.BlockAccounted, Ready, PolicyOverflows, DistinctIds,
        StandingSeq, SpecificSeq, FinalSeq, MatchedSeq;
    var s2 := SpecificSeq(StandingSeq(MatchedSeq(lib, ps, e)));
    var s3 := FinalSeq(MatchedSeq(lib, ps, e));
    KeptWhenStanding(lib, ps, e);
    FirstLeaderIs(lib, ps, e);
    forall p ensures (p in s2 <==> p in ps && A.Narrowest(lib, ps, e, p))
                     && (p in s3 <==> p in ps && A.Leads(lib, ps, e, p)) {
      NarrowestMember(lib, ps, e, p);
      LeaderMember(lib, ps, e, p);
    }
    forall p | p in s3 ensures p in s2 { LeadersNarrowest(lib, ps, e, p); }
    forall q | s3 != [] && A.FirstLeader(lib, ps, e, q) ensures q == s3[0] {
      FirstLeaderIsOne(lib, ps, e, q, s3[0]);
    }
    StageDue(lib, ps, e, PriorityRule, s2, s3);
  }

  lemma StrikesAreAccounted(lib: Lib, ps: seq<Policy>, e: map<string, Scalar>)
    requires Clear(lib, ps, e)
    ensures A.StrikesAccounted(lib, ps, e, EliminationsOf(WithStatus(lib, ps, e, Matched)))
  {
    hide A.BlockAccounted, Clear, StandingSeq, SpecificSeq, PrioritySeq, StageStrikes, OverrideStrikes, WithStatus;
    var ms := MatchedSeq(lib, ps, e);
    var s2 := SpecificSeq(StandingSeq(ms));
    OverrideBlock(lib, ps, e);
    SpecificBlock(lib, ps, e);
    PriorityBlock(lib, ps, e);
    assert EliminationsOf(ms) == OverrideStrikes(ms) + StageStrikes(StandingSeq(ms), s2, SpecificityRule)
                                 + StageStrikes(s2, FinalSeq(ms), PriorityRule);
  }

  // ------------------------------------------------------------------ every ruling is accounted for

  lemma RuledIsClear(lib: Lib, facts: map<string, Json>, b: Bundle, workflow: string, w: WorkflowSpec)
    requires ValidBundle(b) && WorkflowNamed(b.workflows, workflow) == Some(w)
    requires !SomeOverflow(lib, PoliciesFor(b.policies, workflow), Effective(facts, w))
    ensures Clear(lib, PoliciesFor(b.policies, workflow), Effective(facts, w))
  {
    hide ValidBundle, Ready, PolicyOverflows, Effective, DistinctIds;
    var ps, e := PoliciesFor(b.policies, workflow), Effective(facts, w);
    assert DistinctIds(b.policies) by { PoliciesDistinctOf(b); }
    PoliciesForDistinct(b.policies, workflow);
    forall p | p in ps ensures Ready(p, e) { AcceptedPoliciesReady(facts, b, w, p); }
  }

  lemma PoliciesDistinctOf(b: Bundle)
    requires ValidBundle(b)
    ensures DistinctIds(b.policies)
  {
  }

  lemma NamedWorkflow(b: Bundle, workflow: string, w: WorkflowSpec)
    requires ValidBundle(b) && w in b.workflows && w.name == workflow
    ensures WorkflowNamed(b.workflows, workflow) == Some(w) && UniqueFacts(w)
  {
  }

  /** Main result: whatever `evaluate` rules on an accepted bundle, its outcome and every field of its
      trace are what the request, the workflow's fact specs and its policies demand. */
  lemma RulingIsAccounted(lib: Lib, facts: map<string, Json>, b: Bundle, workflow: string, w: WorkflowSpec)
    returns (ps: seq<Policy>)
    requires ValidBundle(b) && w in b.workflows && w.name == workflow
    requires Evaluate(lib, facts, b, workflow).Ruling?
    ensures ps == PoliciesFor(b.policies, workflow) && A.SelectsInOrder(b.policies, workflow, ps)
    ensures A.RulingAccounted(lib, facts, w, ps, Evaluate(lib, facts, b, workflow))
  {
    hide A.FactsAccounted, A.PoliciesAccounted, A.OutcomeAccounted, A.PrecedenceAccounted, A.StrikesAccounted,
        A.PicksAt, ValidBundle, Stuck, Clear, Judge, Effective, FactsTyped, SomeOverflow, Ignored, Defaulted,
        Evaluations, EliminationsOf, WithStatus, PoliciesFor, UniqueFacts;
    NamedWorkflow(b, workflow, w);
    var r, e := Evaluate(lib, facts, b, workflow), Effective(facts, w);
    ps := PoliciesFor(b.policies, workflow);
    var at := PoliciesInOrder(b.policies, workflow);
    RuledIsClear(lib, facts, b, workflow, w);
    FactsAreAccounted(facts, w, r.trace);
    PoliciesAreAccounted(lib, ps, e);
    VerdictIsAccounted(lib, ps, e);
    StrikesAreAccounted(lib, ps, e);
    var v := Judge(Ballots(lib, ps, e));
    SameButStrikes(lib, ps, e, PrecedenceTrace(v.rules, v.winner, [], v.tie, v.blockedBy), r.trace.precedence);
  }

  lemma SameButStrikes(lib: Lib, ps: seq<Policy>, e: map<string, Scalar>, t: PrecedenceTrace, u: PrecedenceTrace)
    requires A.PrecedenceAccounted(lib, ps, e, t) && u == t.(eliminated := u.eliminated)
    ensures A.PrecedenceAccounted(lib, ps, e, u)
  {
    hide A.RulesAccounted, A.LeadsAlone, A.Blocked, A.Tied, A.Leads, A.Blocks;
  }
}
