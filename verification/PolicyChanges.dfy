/** How a decision reacts when one policy's priority is raised or a policy is added. */
module PolicyChanges {
  import opened Options
  import opened Text
  import opened Schema
  import opened Precedence
  import opened Selection
  import opened Judgement
  import opened Evaluator
  import opened DecisionLaws

  function Raised(p: Policy, id: string, priority: int): Policy {
    if p.id == id then p.(priority := priority) else p
  }

  function RaisedAll(ps: seq<Policy>, id: string, priority: int): (r: seq<Policy>)
    ensures |r| == |ps| && forall i :: 0 <= i < |ps| ==> r[i] == Raised(ps[i], id, priority)
  {
    if ps == [] then [] else [Raised(ps[0], id, priority)] + RaisedAll(ps[1..], id, priority)
  }

  lemma ForCons(p: Policy, rest: seq<Policy>, workflow: string)
    ensures PoliciesFor([p] + rest, workflow) ==
            (if p.workflow == workflow then [p] else []) + PoliciesFor(rest, workflow)
  {
    assert ([p] + rest)[1..] == rest;
  }

  lemma RaisedCons(p: Policy, rest: seq<Policy>, id: string, priority: int)
    ensures RaisedAll([p] + rest, id, priority) == [Raised(p, id, priority)] + RaisedAll(rest, id, priority)
  {
    assert ([p] + rest)[1..] == rest;
  }

  lemma {:induction false} RaisedFor(ps: seq<Policy>, id: string, priority: int, workflow: string)
    ensures PoliciesFor(RaisedAll(ps, id, priority), workflow) == RaisedAll(PoliciesFor(ps, workflow), id, priority)
  {
    if ps != [] {
      var p, rest := ps[0], ps[1..];
      assert ps == [p] + rest && Raised(p, id, priority).workflow == p.workflow;
      RaisedFor(rest, id, priority, workflow);
      ForCons(p, rest, workflow);
      RaisedCons(p, rest, id, priority);
      ForCons(Raised(p, id, priority), RaisedAll(rest, id, priority), workflow);
      RaisedCons(p, PoliciesFor(rest, workflow), id, priority);
      hide PoliciesFor, RaisedAll, Raised;
      assert p.workflow != workflow ==> PoliciesFor(ps, workflow) == PoliciesFor(rest, workflow);
    }
  }

  lemma RaisedStatus(lib: Lib, p: Policy, id: string, priority: int, e: map<string, Scalar>)
    ensures StatusOf(lib, Raised(p, id, priority), e) == StatusOf(lib, p, e)
  {
  }

  lemma RaisedFrom(ps: seq<Policy>, id: string, priority: int, q: Policy) returns (p: Policy)
    requires q in RaisedAll(ps, id, priority)
    ensures p in ps && q == Raised(p, id, priority)
  {
    var i :| 0 <= i < |ps| && RaisedAll(ps, id, priority)[i] == q;
    p := ps[i];
  }

  lemma RaisedInto(ps: seq<Policy>, id: string, priority: int, p: Policy)
    requires p in ps
    ensures Raised(p, id, priority) in RaisedAll(ps, id, priority)
  {
    var i :| 0 <= i < |ps| && ps[i] == p;
    assert RaisedAll(ps, id, priority)[i] == Raised(p, id, priority);
  }

  lemma RaisedGoverns(lib: Lib, ps: seq<Policy>, e: map<string, Scalar>, p: Policy, priority: int)
    requires DistinctIds(ps) && Governs(lib, ps, e, p) && priority >= p.priority
    ensures Governs(lib, RaisedAll(ps, p.id, priority), e, Raised(p, p.id, priority))
  {
    hide StatusOf, DistinctIds, RaisedAll;
    var rs, w := RaisedAll(ps, p.id, priority), Raised(p, p.id, priority);
    RaisedInto(ps, p.id, priority, p);
    RaisedStatus(lib, p, p.id, priority, e);
    forall r | r in rs && IsMatched(lib, r, e) ensures w.id !in r.overrides {
      var q := RaisedFrom(ps, p.id, priority, r);
      RaisedStatus(lib, q, p.id, priority, e);
    }
    forall r | r in rs && r.id != w.id && IsMatched(lib, r, e) && Unchallenged(lib, rs, e, r)
      ensures Beats(AsContender(w), AsContender(r))
    {
      var q := RaisedFrom(ps, p.id, priority, r);
      forall s | s in ps && IsMatched(lib, s, e) ensures q.id !in s.overrides {
        RaisedInto(ps, p.id, priority, s);
        RaisedStatus(lib, s, p.id, priority, e);
      }
      assert Beats(AsContender(p), AsContender(q));
    }
    forall u | u in rs && StatusOf(lib, u, e) == Undeterminable ensures u.priority <= w.priority {
      var q := RaisedFrom(ps, p.id, priority, u);
      RaisedStatus(lib, q, p.id, priority, e);
    }
  }

  /** Raising the deciding policy's priority never dethrones it. */
  lemma RaisingPriorityKeepsWinner(lib: Lib, facts: map<string, Json>, b: Bundle, workflow: string, w: WorkflowSpec,
                                   p: Policy, priority: int)
    requires EvaluatesIn(lib, b, workflow, w, facts) && p in PoliciesFor(b.policies, workflow)
    requires WinnerOn(lib, facts, b, workflow) == Some(p.id) && priority >= p.priority
    requires EvaluatesIn(lib, b.(policies := RaisedAll(b.policies, p.id, priority)), workflow, w, facts)
    ensures WinnerOn(lib, facts, b.(policies := RaisedAll(b.policies, p.id, priority)), workflow) == Some(p.id)
  {
    var ps, e := PoliciesFor(b.policies, workflow), Effective(facts, w);
    Judged(lib, facts, b, workflow, w);
    var q := WinnerGoverns(lib, ps, e, p.id);
    SameIdSamePolicy(ps, p, q);
    RaisedGoverns(lib, ps, e, p, priority);
    RaisedFor(b.policies, p.id, priority, workflow);
    GovernorDecides(lib, facts, b.(policies := RaisedAll(b.policies, p.id, priority)), workflow, w,
                    Raised(p, p.id, priority));
  }

  lemma {:induction false} AppendFor(ps: seq<Policy>, c: Policy)
    ensures PoliciesFor(ps + [c], c.workflow) == PoliciesFor(ps, c.workflow) + [c]
  {
    if ps == [] {
      assert ps + [c] == [c] + [];
      ForCons(c, [], c.workflow);
    } else {
      var p, rest := ps[0], ps[1..];
      assert ps == [p] + rest && ps + [c] == [p] + (rest + [c]);
      AppendFor(rest, c);
      hide PoliciesFor;
      ForCons(p, rest, c.workflow);
      ForCons(p, rest + [c], c.workflow);
      var head := if p.workflow == c.workflow then [p] else [];
      assert head + (PoliciesFor(rest, c.workflow) + [c]) == (head + PoliciesFor(rest, c.workflow)) + [c];
    }
  }

  /** An unconditional top-priority policy that overrides everything that matched wins. */
  lemma ChallengerWins(lib: Lib, facts: map<string, Json>, b: Bundle, w: WorkflowSpec, c: Policy)
    requires EvaluatesIn(lib, b, c.workflow, w, facts)
    requires EvaluatesIn(lib, b.(policies := b.policies + [c]), c.workflow, w, facts)
    requires c.conditions == [] && c.priority == 1000
    requires forall p :: p in PoliciesFor(b.policies, c.workflow) && IsMatched(lib, p, Effective(facts, w))
                         ==> p.id in c.overrides
    ensures WinnerOn(lib, facts, b.(policies := b.policies + [c]), c.workflow) == Some(c.id)
  {
    hide PoliciesFor, DistinctIds, FactsTyped, SnakeCase, Finalists, Evaluate, Governs, Effective, SortedSet, Votes,
        AcyclicOverrides, Beats;
    var d := b.(policies := b.policies + [c]);
    var ps, e := PoliciesFor(d.policies, c.workflow), Effective(facts, w);
    AppendFor(b.policies, c);
    assert c in d.policies && c in ps;
    forall q | q in ps && IsMatched(lib, q, e) ensures c.id !in q.overrides {
      if q == c {
        assert ValidPolicy(c);
      } else {
        assert q in b.policies && PolicyPlaced(q, b);
        FreshId(b.policies, c, q);
      }
    }
    forall q | q in ps && q.id != c.id && IsMatched(lib, q, e) ensures !Unchallenged(lib, ps, e, q) {
      assert q in PoliciesFor(b.policies, c.workflow);
      assert IsMatched(lib, c, e);
    }
    forall u | u in ps ensures u.priority <= 1000 { assert ValidPolicy(u); }
    GovernorDecides(lib, facts, d, c.workflow, w, c);
  }

  lemma FreshId(ps: seq<Policy>, c: Policy, q: Policy)
    requires DistinctIds(ps + [c]) && OverridesKnown(q, ps)
    ensures c.id !in q.overrides
  {
    if c.id in q.overrides {
      var r :| r in ps && r.id == c.id;
      var i :| 0 <= i < |ps| && ps[i] == r;
      DistinctAt(ps + [c], i, |ps|);
    }
  }
}
