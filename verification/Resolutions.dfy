/** When a winner is final. The unproven policies of a decision may later match or fail; this
    module says exactly when no way of resolving them unseats the winner. The dominance rule
    alone does not guarantee it. */
module Resolutions {
  import opened Options
  import opened Schema
  import opened Precedence
  import opened Selection
  import opened Judgement
  import opened Tally
  import opened Evaluator
  import opened DecisionLaws

  /** A ballot may change only if it was unproven, and then only its status and missing fields. */
  predicate Becomes(b: Ballot, a: Ballot) {
    && a.contender == b.contender && a.effect == b.effect && a.authority == b.authority
    && (b.status != Undeterminable ==> a == b)
  }

  /** The same policies' ballots after some unproven ones were resolved. */
  ghost predicate Resolves(before: set<Ballot>, after: set<Ballot>) {
    && DistinctBallots(after)
    && (forall a :: a in after ==> exists b :: b in before && Becomes(b, a))
    && (forall b :: b in before ==> exists a :: a in after && Becomes(b, a))
  }

  /** An unproven ballot that would unseat `p` if it matched. */
  ghost predicate ThreatTo(ballots: set<Ballot>, p: Contender, u: Ballot) {
    && u in Unproven(ballots)
    && (p.id in u.contender.overrides ||
        (!Beats(p, u.contender) && !Overridden(MatchedField(ballots), u.contender)))
  }

  ghost predicate Wins(ballots: set<Ballot>, p: Contender) {
    !Stuck(MatchedField(ballots)) && Judge(ballots).winner == Some(p.id)
  }

  /** `p` wins however the unproven ballots are resolved. */
  ghost predicate Final(ballots: set<Ballot>, p: Contender) {
    forall after :: Resolves(ballots, after) ==> Wins(after, p)
  }

  ghost predicate NobodyOverridesItself(ballots: set<Ballot>) {
    forall b :: b in ballots ==> b.contender.id !in b.contender.overrides
  }

  // ------------------------------------------------------------------ sufficient

  lemma ProvenBallotStays(before: set<Ballot>, after: set<Ballot>, b: Ballot)
    requires Resolves(before, after) && b in before && b.status != Undeterminable
    ensures b in after
  {
    hide DistinctBallots;
    var a :| a in after && Becomes(b, a);
  }

  lemma MatchedStay(before: set<Ballot>, after: set<Ballot>)
    requires Resolves(before, after)
    ensures MatchedField(before) <= MatchedField(after)
  {
    hide Resolves;
    forall c | c in MatchedField(before) ensures c in MatchedField(after) {
      var b :| b in before && b.status == Matched && b.contender == c;
      ProvenBallotStays(before, after, b);
    }
  }

  /** Whoever matches afterwards matched before or was unproven. */
  lemma MatchedFrom(before: set<Ballot>, after: set<Ballot>, c: Contender) returns (b: Ballot)
    requires Resolves(before, after) && c in MatchedField(after)
    ensures b in before && b.contender == c && (b.status == Matched || b.status == Undeterminable)
  {
    hide DistinctBallots;
    var a :| a in after && a.status == Matched && a.contender == c;
    b :| b in before && Becomes(b, a);
  }

  lemma OverriddenStays(m: set<Contender>, n: set<Contender>, c: Contender)
    requires m <= n
    ensures Overridden(m, c) ==> Overridden(n, c)
  {
  }

  lemma UnthreatenedStaysOnTop(before: set<Ballot>, after: set<Ballot>, p: Contender)
    requires Resolves(before, after) && Finalists(MatchedField(before)) == {p}
    requires forall u :: !ThreatTo(before, p, u)
    ensures Finalists(MatchedField(after)) == {p}
  {
    hide Resolves, Finalists;
    var m, n := MatchedField(before), MatchedField(after);
    MatchedStay(before, after);
    SoleFinalist(m, p);
    forall c | c in n ensures p.id !in c.overrides {
      var b := MatchedFrom(before, after, c);
      assert !ThreatTo(before, p, b);
    }
    forall c | c in Standing(n) && c != p ensures Beats(p, c) {
      var b := MatchedFrom(before, after, c);
      assert !ThreatTo(before, p, b);
      OverriddenStays(m, n, c);
      assert b.status == Matched ==> c in Standing(m);
    }
    UniqueMaximumWins(n, p);
  }

  lemma BlockerWasOne(before: set<Ballot>, after: set<Ballot>, p: Contender, a: Ballot) returns (b: Ballot)
    requires Resolves(before, after) && a in Blockers(after, p)
    ensures b in Blockers(before, p)
  {
    hide DistinctBallots;
    b :| b in before && Becomes(b, a);
  }

  lemma BlockersShrink(before: set<Ballot>, after: set<Ballot>, p: Contender)
    requires Resolves(before, after) && Blockers(before, p) == {}
    ensures Blockers(after, p) == {}
  {
    hide Resolves, Blockers;
    if Blockers(after, p) != {} {
      var a :| a in Blockers(after, p);
      var b := BlockerWasOne(before, after, p, a);
    }
  }

  lemma UnthreatenedWins(before: set<Ballot>, after: set<Ballot>, b: Ballot)
    requires Resolves(before, after) && WinningBallot(before, b) && Blockers(before, b.contender) == {}
    requires forall u :: !ThreatTo(before, b.contender, u)
    ensures Wins(after, b.contender)
  {
    hide ThreatTo, Blockers, Finalists;
    assert DistinctBallots(after);
    ProvenBallotStays(before, after, b);
    UnthreatenedStaysOnTop(before, after, b.contender);
    BlockersShrink(before, after, b.contender);
    hide Resolves, DistinctBallots;
    JudgeWinner(after, b);
  }

  // ------------------------------------------------------------------ necessary

  /** The worst case for a winner: `u` matches, everybody else unproven fails. */
  function Worst(b: Ballot, u: Ballot): Ballot {
    if b.status != Undeterminable then b
    else b.(status := if b == u then Matched else Failed)
  }

  ghost function WorstCase(ballots: set<Ballot>, u: Ballot): set<Ballot> {
    set b | b in ballots :: Worst(b, u)
  }

  lemma WorstCaseResolves(ballots: set<Ballot>, u: Ballot)
    requires DistinctBallots(ballots)
    ensures Resolves(ballots, WorstCase(ballots, u))
  {
    var after := WorstCase(ballots, u);
    forall b | b in ballots ensures Worst(b, u) in after && Becomes(b, Worst(b, u)) { }
    forall x, y | x in after && y in after && x.contender.id == y.contender.id ensures x == y {
      var b :| b in ballots && Worst(b, u) == x;
      var c :| c in ballots && Worst(c, u) == y;
    }
  }

  lemma WorstCaseMatched(ballots: set<Ballot>, u: Ballot)
    requires u in Unproven(ballots)
    ensures MatchedField(WorstCase(ballots, u)) == MatchedField(ballots) + {u.contender}
  {
    var after := WorstCase(ballots, u);
    assert Worst(u, u) in after;
    forall c | c in MatchedField(ballots) ensures c in MatchedField(after) {
      var b :| b in ballots && b.status == Matched && b.contender == c;
      assert Worst(b, u) in after;
    }
    forall c | c in MatchedField(after) ensures c in MatchedField(ballots) + {u.contender} {
      var a :| a in after && a.status == Matched && a.contender == c;
      var b :| b in ballots && Worst(b, u) == a;
    }
  }

  /** A decisive judgement has its winner as the only finalist. */
  lemma WinnerIsSoleFinalist(ballots: set<Ballot>, p: Contender)
    requires DistinctBallots(ballots) && Wins(ballots, p) && p in MatchedField(ballots)
    ensures Finalists(MatchedField(ballots)) == {p}
  {
    SomebodyWins(ballots);
    var b :| WinningBallot(ballots, b);
    JudgeWinner(ballots, b);
    var c :| c in ballots && c.status == Matched && c.contender == p;
    assert b.contender.id == c.contender.id;
  }

  /** A newcomer that overrides `p`, or stands and is not beaten by it, is fatal to it. */
  lemma NewcomerUnseats(m: set<Contender>, p: Contender, c: Contender)
    requires c != p && c.id !in c.overrides
    requires p.id in c.overrides || (!Beats(p, c) && !Overridden(m, c))
    ensures Finalists(m + {c}) != {p}
  {
    hide Finalists, Beats;
    assert c in m + {c};
    assert p.id !in c.overrides ==> c in Standing(m + {c});
    if Finalists(m + {c}) == {p} { SoleFinalist(m + {c}, p); }
  }

  lemma ThreatUnseats(ballots: set<Ballot>, p: Contender, u: Ballot)
    requires DistinctBallots(ballots) && NobodyOverridesItself(ballots)
    requires p in MatchedField(ballots) && ThreatTo(ballots, p, u)
    ensures !Wins(WorstCase(ballots, u), p)
  {
    hide Wins, Finalists, Resolves, WorstCase, DistinctBallots, Beats, Overridden, MatchedField;
    var after := WorstCase(ballots, u);
    WorstCaseResolves(ballots, u);
    ResolvedDistinct(ballots, after);
    WorstCaseMatched(ballots, u);
    DifferentBallots(ballots, p, u);
    NewcomerUnseats(MatchedField(ballots), p, u.contender);
    if Wins(after, p) { WinnerIsSoleFinalist(after, p); }
  }

  lemma ResolvedDistinct(before: set<Ballot>, after: set<Ballot>)
    requires Resolves(before, after)
    ensures DistinctBallots(after)
  {
  }

  lemma DifferentBallots(ballots: set<Ballot>, p: Contender, u: Ballot)
    requires DistinctBallots(ballots) && p in MatchedField(ballots) && u in Unproven(ballots)
    ensures u.contender != p
  {
    var b :| b in ballots && b.status == Matched && b.contender == p;
  }

  /** Main result: an unblocked winner is final if and only if no unproven ballot threatens it:
      overrides it, or reaches its (specificity, priority) without being overridden itself. */
  lemma FinalExactlyWhenUnthreatened(ballots: set<Ballot>, b: Ballot)
    requires DistinctBallots(ballots) && NobodyOverridesItself(ballots)
    requires WinningBallot(ballots, b) && Blockers(ballots, b.contender) == {}
    ensures Final(ballots, b.contender) <==> forall u :: !ThreatTo(ballots, b.contender, u)
  {
    hide Resolves, Wins, ThreatTo, Blockers, Finalists, DistinctBallots, Unproven, WorstCase, NobodyOverridesItself;
    if forall u :: !ThreatTo(ballots, b.contender, u) {
      forall after | Resolves(ballots, after) ensures Wins(after, b.contender) {
        UnthreatenedWins(ballots, after, b);
      }
    } else {
      var u :| ThreatTo(ballots, b.contender, u);
      assert b.contender in MatchedField(ballots);
      ThreatIsUnproven(ballots, b.contender, u);
      WorstCaseResolves(ballots, u);
      ThreatUnseats(ballots, b.contender, u);
    }
  }

  lemma ThreatIsUnproven(ballots: set<Ballot>, p: Contender, u: Ballot)
    requires ThreatTo(ballots, p, u)
    ensures u in Unproven(ballots)
  {
  }

  // ------------------------------------------------------------------ policies

  lemma ThreatsAgree(lib: Lib, ps: seq<Policy>, e: map<string, Scalar>, p: Policy)
    requires p in ps
    ensures (forall u :: !ThreatTo(Ballots(lib, ps, e), AsContender(p), u)) <==> Unthreatened(lib, ps, e, p)
  {
    var ballots := Ballots(lib, ps, e);
    forall u | u in ps
      ensures Threat(lib, ps, e, p, u) <==> ThreatTo(ballots, AsContender(p), BallotOf(lib, u, e))
    {
      BallotMember(lib, ps, e, u);
      OverriddenMeansChallenged(lib, ps, e, u);
    }
    forall u | ThreatTo(ballots, AsContender(p), u) ensures exists q :: q in ps && Threat(lib, ps, e, p, q) {
      var q :| q in ps && Votes(lib, e)(q) == u;
    }
  }

  lemma OverriddenMeansChallenged(lib: Lib, ps: seq<Policy>, e: map<string, Scalar>, u: Policy)
    ensures Overridden(MatchedField(Ballots(lib, ps, e)), AsContender(u)) <==> !Unchallenged(lib, ps, e, u)
  {
    var m := MatchedField(Ballots(lib, ps, e));
    if Overridden(m, AsContender(u)) {
      var c :| c in m && u.id in c.overrides;
      var q := FieldContender(lib, ps, e, c);
      assert u.id in q.overrides;
    }
    if !Unchallenged(lib, ps, e, u) {
      var q :| q in ps && IsMatched(lib, q, e) && u.id in q.overrides;
      ContenderInField(lib, ps, e, q);
      assert u.id in AsContender(q).overrides;
    }
  }

  lemma BallotsOrdinary(lib: Lib, ps: seq<Policy>, e: map<string, Scalar>)
    requires DistinctIds(ps) && forall p :: p in ps ==> p.id !in p.overrides
    ensures DistinctBallots(Ballots(lib, ps, e)) && NobodyOverridesItself(Ballots(lib, ps, e))
  {
    CastDistinct(Votes(lib, e), ps);
    forall b | b in Ballots(lib, ps, e) ensures b.contender.id !in b.contender.overrides {
      var p :| p in ps && Votes(lib, e)(p) == b;
    }
  }

  lemma GovernorIsUnblocked(lib: Lib, ps: seq<Policy>, e: map<string, Scalar>, p: Policy)
    requires DistinctIds(ps) && Governs(lib, ps, e, p)
    ensures WinningBallot(Ballots(lib, ps, e), BallotOf(lib, p, e))
    ensures Blockers(Ballots(lib, ps, e), AsContender(p)) == {}
  {
    var ballots := Ballots(lib, ps, e);
    BallotMember(lib, ps, e, p);
    GovernorWins(lib, ps, e, p);
    CastDistinct(Votes(lib, e), ps);
    ContenderInField(lib, ps, e, p);
    WinnerIsSoleFinalist(ballots, AsContender(p));
    NoBlockers(lib, ps, e, p);
  }

  /** Main result: the policy that decides a request decides it under every resolution of the
      unproven policies if and only if none of them threatens it. */
  lemma DecisionIsFinalExactly(lib: Lib, facts: map<string, Json>, b: Bundle, workflow: string, w: WorkflowSpec,
                               p: Policy)
    requires EvaluatesIn(lib, b, workflow, w, facts)
    requires var ps := PoliciesFor(b.policies, workflow);
             p in ps && WinnerOn(lib, facts, b, workflow) == Some(p.id)
    ensures var ps := PoliciesFor(b.policies, workflow); var e := Effective(facts, w);
            Final(Ballots(lib, ps, e), AsContender(p)) <==> Unthreatened(lib, ps, e, p)
  {
    hide Final, Unthreatened, Evaluate, Ballots, Governs, Effective, FactsTyped, SomeOverflow;
    var ps, e := PoliciesFor(b.policies, workflow), Effective(facts, w);
    Judged(lib, facts, b, workflow, w);
    var q := WinnerGoverns(lib, ps, e, p.id);
    assert q in ps by { assert Governs(lib, ps, e, q); GovernorIsListed(lib, ps, e, q); }
    SameIdSamePolicy(ps, p, q);
    forall r | r in ps ensures r.id !in r.overrides { assert ValidPolicy(r); }
    BallotsOrdinary(lib, ps, e);
    GovernorIsUnblocked(lib, ps, e, p);
    FinalExactlyWhenUnthreatened(Ballots(lib, ps, e), BallotOf(lib, p, e));
    ThreatsAgree(lib, ps, e, p);
  }

  lemma GovernorIsListed(lib: Lib, ps: seq<Policy>, e: map<string, Scalar>, q: Policy)
    requires Governs(lib, ps, e, q)
    ensures q in ps
  {
  }

  // ------------------------------------------------------------------ the dominance rule is not enough

  const IS_VIP := Condition("vip", Eq, One(Bool(true)), BooleanType)
  const PROOF := [Evidence("s", "v", 0, 1, "x")]
  const BASE := Policy("base", "w", Effect(Deny, "refuse"), 500, [], Authority(false, None), PROOF, [], true, "")
  const EXCEPTION := Policy("exception", "w", Effect(Approve, "grant"), 100, [IS_VIP], Authority(false, None), PROOF,
      [], false, "")
  const DESK := WorkflowSpec("w", [FactSpec("vip", BooleanType, "", None)], "")
  const PAIR := Bundle("1", "acme", [DESK], [BASE, EXCEPTION])

  lemma PairPoliciesValid()
    ensures ValidPolicy(BASE) && ValidPolicy(EXCEPTION)
  {
    hide IsSpace;
    assert PROOF[0].excerpt[0] == 'x' && !IsSpace('x') by { NotSpace(); }
    assert Undotted("base") == "base" && Undotted("exception") == "exception" && Undotted("w") == "w";
    assert Snake("vip") && Snake("base") && Snake("exception") && Snake("w") && Snake("refuse") && Snake("grant");
  }

  lemma NotSpace()
    ensures !IsSpace('x')
  {
  }

  lemma PairPlaced()
    ensures WorkflowNamed(PAIR.workflows, "w") == Some(DESK)
    ensures ValidWorkflow(DESK) && PolicyPlaced(BASE, PAIR) && PolicyPlaced(EXCEPTION, PAIR)
  {
    assert FactNamed(DESK.facts, "vip") == Some(DESK.facts[0]);
    assert Snake("vip");
  }

  lemma PairListed()
    ensures PoliciesFor(PAIR.policies, "w") == [BASE, EXCEPTION]
  {
    assert PoliciesFor([EXCEPTION], "w") == [EXCEPTION] && PAIR.policies[1..] == [EXCEPTION];
  }

  lemma PairValid()
    ensures ValidBundle(PAIR)
    ensures WorkflowNamed(PAIR.workflows, "w") == Some(DESK) && PoliciesFor(PAIR.policies, "w") == [BASE, EXCEPTION]
  {
    hide ValidPolicy, PolicyPlaced, ValidWorkflow, PoliciesFor;
    PairPoliciesValid();
    PairPlaced();
    PairListed();
    DistinctFrom(PAIR.policies);
    assert RanksOverrides(PAIR.policies, map["base" := 0, "exception" := 0]);
  }

  lemma PairEvaluates(lib: Lib, facts: map<string, Json>)
    requires facts == map[] || facts == map["vip" := Value(Bool(true))]
    ensures EvaluatesIn(lib, PAIR, "w", DESK, facts)
    ensures Effective(facts, DESK) == if "vip" in facts then map["vip" := Bool(true)] else map[]
  {
    PairValid();
    assert FactNamed(DESK.facts, "vip") == Some(DESK.facts[0]);
    forall n ensures n in FactNames(DESK) <==> n == "vip" { assert DESK.facts[0] in DESK.facts; }
    forall n | Declared(DESK, n) ensures n == "vip" { }
    forall p | p in [BASE, EXCEPTION] ensures !PolicyOverflows(lib, p, Effective(facts, DESK)) {
      assert p == BASE || p == EXCEPTION;
    }
  }

  lemma PairStatuses(lib: Lib)
    ensures StatusOf(lib, BASE, map[]) == Matched && StatusOf(lib, EXCEPTION, map[]) == Undeterminable
    ensures var e := map["vip" := Bool(true)];
            StatusOf(lib, BASE, e) == Matched && StatusOf(lib, EXCEPTION, e) == Matched
  {
    assert EXCEPTION.conditions[0] in EXCEPTION.conditions;
    assert forall c :: c in EXCEPTION.conditions ==> c == IS_VIP;
    assert OutcomeOf(lib, IS_VIP, map[]) == Missing;
    assert Snake("vip") && OutcomeOf(lib, IS_VIP, map["vip" := Bool(true)]) == Pass;
  }

  lemma BaseGoverns(lib: Lib)
    ensures Governs(lib, [BASE, EXCEPTION], map[], BASE)
    ensures Threat(lib, [BASE, EXCEPTION], map[], BASE, EXCEPTION)
  {
    PairStatuses(lib);
    hide StatusOf;
    assert [BASE, EXCEPTION][0] == BASE && [BASE, EXCEPTION][1] == EXCEPTION;
  }

  lemma ExceptionGoverns(lib: Lib)
    ensures Governs(lib, [BASE, EXCEPTION], map["vip" := Bool(true)], EXCEPTION)
  {
    PairStatuses(lib);
    hide StatusOf;
    assert [BASE, EXCEPTION][0] == BASE && [BASE, EXCEPTION][1] == EXCEPTION;
  }

  /** A decision that passes the dominance rule and changes with one more fact: the unproven
      exception has the lower priority, but more conditions. */
  lemma DominanceDoesNotMakeStable(lib: Lib)
    ensures ValidBundle(PAIR)
    ensures WinnerOn(lib, map[], PAIR, "w") == Some("base")
    ensures WinnerOn(lib, map["vip" := Value(Bool(true))], PAIR, "w") == Some("exception")
    ensures Threat(lib, PoliciesFor(PAIR.policies, "w"), map[], BASE, EXCEPTION)
  {
    PairValid();
    PairEvaluates(lib, map[]);
    PairEvaluates(lib, map["vip" := Value(Bool(true))]);
    BaseGoverns(lib);
    ExceptionGoverns(lib);
    hide ValidBundle, EvaluatesIn, StatusOf, WinnerOn, PoliciesFor, Effective, Governs, Threat;
    GovernorDecides(lib, map[], PAIR, "w", DESK, BASE);
    GovernorDecides(lib, map["vip" := Value(Bool(true))], PAIR, "w", DESK, EXCEPTION);
  }
}
