/** What the evaluator's decisions mean, policy by policy, and how they react to new facts
    and to changed policies (backend/tests/test_evaluator_properties.py states these for
    generated inputs). */
module DecisionLaws {
  import opened Options
  import opened Text
  import opened Schema
  import opened Precedence
  import opened Selection
  import opened Judgement
  import opened Tally
  import opened Evaluator
  import opened Likeness

  ghost predicate IsMatched(lib: Lib, p: Policy, e: map<string, Scalar>) {
    StatusOf(lib, p, e) == Matched
  }

  ghost predicate Unchallenged(lib: Lib, ps: seq<Policy>, e: map<string, Scalar>, p: Policy) {
    forall q :: q in ps && IsMatched(lib, q, e) ==> p.id !in q.overrides
  }

  /** `p` governs: it matches, no matched policy overrides it, it strictly outranks every
      other such policy, and no unproven policy has a higher priority. */
  ghost predicate Governs(lib: Lib, ps: seq<Policy>, e: map<string, Scalar>, p: Policy) {
    && p in ps && IsMatched(lib, p, e) && Unchallenged(lib, ps, e, p)
    && (forall q :: q in ps && q.id != p.id && IsMatched(lib, q, e) && Unchallenged(lib, ps, e, q)
          ==> Beats(AsContender(p), AsContender(q)))
    && (forall u :: u in ps && StatusOf(lib, u, e) == Undeterminable ==> u.priority <= p.priority)
  }

  lemma FieldContender(lib: Lib, ps: seq<Policy>, e: map<string, Scalar>, c: Contender) returns (p: Policy)
    requires c in MatchedField(Ballots(lib, ps, e))
    ensures p in ps && IsMatched(lib, p, e) && AsContender(p) == c
  {
    var b :| b in Ballots(lib, ps, e) && b.status == Matched && b.contender == c;
    p :| p in ps && Votes(lib, e)(p) == b;
  }

  lemma ContenderInField(lib: Lib, ps: seq<Policy>, e: map<string, Scalar>, p: Policy)
    requires p in ps && IsMatched(lib, p, e)
    ensures AsContender(p) in MatchedField(Ballots(lib, ps, e))
  {
    BallotMember(lib, ps, e, p);
  }

  lemma StandsWhenUnchallenged(lib: Lib, ps: seq<Policy>, e: map<string, Scalar>, p: Policy)
    requires p in ps && IsMatched(lib, p, e)
    ensures AsContender(p) in Standing(MatchedField(Ballots(lib, ps, e))) <==> Unchallenged(lib, ps, e, p)
  {
    var m := MatchedField(Ballots(lib, ps, e));
    ContenderInField(lib, ps, e, p);
    if Overridden(m, AsContender(p)) {
      var c :| c in m && p.id in c.overrides;
      var q := FieldContender(lib, ps, e, c);
      assert p.id in q.overrides;
    }
    if !Unchallenged(lib, ps, e, p) {
      var q :| q in ps && IsMatched(lib, q, e) && p.id in q.overrides;
      ContenderInField(lib, ps, e, q);
      assert p.id in AsContender(q).overrides;
    }
  }

  lemma NoBlockers(lib: Lib, ps: seq<Policy>, e: map<string, Scalar>, p: Policy)
    ensures Blockers(Ballots(lib, ps, e), AsContender(p)) == {} <==>
            forall u :: u in ps && StatusOf(lib, u, e) == Undeterminable ==> u.priority <= p.priority
  {
    var blockers := Blockers(Ballots(lib, ps, e), AsContender(p));
    if exists u :: u in ps && StatusOf(lib, u, e) == Undeterminable && u.priority > p.priority {
      var u :| u in ps && StatusOf(lib, u, e) == Undeterminable && u.priority > p.priority;
      BallotMember(lib, ps, e, u);
      assert BallotOf(lib, u, e) in blockers;
    }
    if blockers != {} {
      var b :| b in blockers;
      var u :| u in ps && Votes(lib, e)(u) == b;
      assert u.priority > p.priority;
    }
  }

  lemma GovernorWins(lib: Lib, ps: seq<Policy>, e: map<string, Scalar>, p: Policy)
    requires DistinctIds(ps) && Governs(lib, ps, e, p)
    ensures !Stuck(MatchedField(Ballots(lib, ps, e)))
    ensures Judge(Ballots(lib, ps, e)).winner == Some(p.id)
    ensures Judge(Ballots(lib, ps, e)).outcome == Decisive(p.id, p.effect, p.authority)
  {
    var ballots := Ballots(lib, ps, e);
    var m := MatchedField(ballots);
    StandsWhenUnchallenged(lib, ps, e, p);
    forall c | c in Standing(m) && c != AsContender(p) ensures Beats(AsContender(p), c) {
      var q := FieldContender(lib, ps, e, c);
      StandsWhenUnchallenged(lib, ps, e, q);
      if q.id == p.id { SameIdSamePolicy(ps, p, q); }
    }
    UniqueMaximumWins(m, AsContender(p));
    BallotMember(lib, ps, e, p);
    CastDistinct(Votes(lib, e), ps);
    JudgeWinner(ballots, BallotOf(lib, p, e));
    NoBlockers(lib, ps, e, p);
  }

  lemma WinnerGoverns(lib: Lib, ps: seq<Policy>, e: map<string, Scalar>, id: string) returns (p: Policy)
    requires DistinctIds(ps) && !Stuck(MatchedField(Ballots(lib, ps, e)))
    requires Judge(Ballots(lib, ps, e)).winner == Some(id)
    ensures p.id == id && Governs(lib, ps, e, p)
  {
    var ballots := Ballots(lib, ps, e);
    var m := MatchedField(ballots);
    SomebodyWins(ballots);
    var b :| WinningBallot(ballots, b);
    CastDistinct(Votes(lib, e), ps);
    JudgeWinner(ballots, b);
    p :| p in ps && Votes(lib, e)(p) == b;
    SoleFinalist(m, AsContender(p));
    StandsWhenUnchallenged(lib, ps, e, p);
    NoBlockers(lib, ps, e, p);
    forall q | q in ps && q.id != p.id && IsMatched(lib, q, e) && Unchallenged(lib, ps, e, q)
      ensures Beats(AsContender(p), AsContender(q))
    {
      StandsWhenUnchallenged(lib, ps, e, q);
    }
  }

  /** The request is decided: an accepted bundle, its workflow, well-typed facts, and no
      number condition on a number outside the double range. */
  ghost predicate EvaluatesIn(lib: Lib, b: Bundle, workflow: string, w: WorkflowSpec, facts: map<string, Json>) {
    && ValidBundle(b) && WorkflowNamed(b.workflows, workflow) == Some(w) && FactsTyped(facts, w)
    && !SomeOverflow(lib, PoliciesFor(b.policies, workflow), Effective(facts, w))
  }

  lemma EvaluatesExactly(lib: Lib, b: Bundle, workflow: string, w: WorkflowSpec, facts: map<string, Json>)
    requires ValidBundle(b) && WorkflowNamed(b.workflows, workflow) == Some(w)
    ensures EvaluatesIn(lib, b, workflow, w, facts) <==> Evaluate(lib, facts, b, workflow).Ruling?
  {
    AcceptedNeverStuck(lib, b, workflow, Effective(facts, w));
  }

  ghost function VerdictOn(lib: Lib, facts: map<string, Json>, b: Bundle, workflow: string): Option<Verdict> {
    match ViewOf(Evaluate(lib, facts, b, workflow))
    case Seen(v) => Some(v)
    case _ => None
  }

  ghost function WinnerOn(lib: Lib, facts: map<string, Json>, b: Bundle, workflow: string): Option<string> {
    match VerdictOn(lib, facts, b, workflow)
    case Some(v) => v.winner
    case None => None
  }

  ghost function OutcomeOn(lib: Lib, facts: map<string, Json>, b: Bundle, workflow: string): Option<Outcome> {
    match VerdictOn(lib, facts, b, workflow)
    case Some(v) => Some(v.outcome)
    case None => None
  }

  lemma Judged(lib: Lib, facts: map<string, Json>, b: Bundle, workflow: string, w: WorkflowSpec)
    requires EvaluatesIn(lib, b, workflow, w, facts)
    ensures var ps := PoliciesFor(b.policies, workflow); var e := Effective(facts, w);
            && DistinctIds(ps) && !Stuck(MatchedField(Ballots(lib, ps, e)))
            && VerdictOn(lib, facts, b, workflow) == Some(Judge(Ballots(lib, ps, e)))
  {
    ViewIsJudgement(lib, facts, b, workflow);
    PoliciesForDistinct(b.policies, workflow);
    AcceptedNeverStuck(lib, b, workflow, Effective(facts, w));
  }

  lemma GovernorDecides(lib: Lib, facts: map<string, Json>, b: Bundle, workflow: string, w: WorkflowSpec, p: Policy)
    requires EvaluatesIn(lib, b, workflow, w, facts)
    requires Governs(lib, PoliciesFor(b.policies, workflow), Effective(facts, w), p)
    ensures WinnerOn(lib, facts, b, workflow) == Some(p.id)
    ensures OutcomeOn(lib, facts, b, workflow) == Some(Decisive(p.id, p.effect, p.authority))
  {
    Judged(lib, facts, b, workflow, w);
    GovernorWins(lib, PoliciesFor(b.policies, workflow), Effective(facts, w), p);
  }

  /** Main result: a policy decides exactly when it governs. */
  lemma DecidesExactlyWhenGoverning(lib: Lib, facts: map<string, Json>, b: Bundle, workflow: string, w: WorkflowSpec,
                                    id: string)
    requires EvaluatesIn(lib, b, workflow, w, facts)
    ensures var ps := PoliciesFor(b.policies, workflow); var e := Effective(facts, w);
            WinnerOn(lib, facts, b, workflow) == Some(id) <==>
            exists p: Policy :: p.id == id && Governs(lib, ps, e, p)
  {
    hide EvaluatesIn, Governs;
    Judged(lib, facts, b, workflow, w);
    var ps, e := PoliciesFor(b.policies, workflow), Effective(facts, w);
    if Judge(Ballots(lib, ps, e)).winner == Some(id) {
      var p := WinnerGoverns(lib, ps, e, id);
    }
    if exists p: Policy :: p.id == id && Governs(lib, ps, e, p) {
      var p: Policy :| p.id == id && Governs(lib, ps, e, p);
      GovernorWins(lib, ps, e, p);
    }
  }

  /** Every ruling is explained: decisive ones carry the governing policy's effect, and each
      escalation reason says something about the policies. */
  ghost predicate Explained(lib: Lib, ps: seq<Policy>, e: map<string, Scalar>, v: Verdict) {
    && (v.outcome.reason == None <==> v.winner.Some?)
    && (v.winner.Some? ==> exists p :: Governs(lib, ps, e, p) && v.winner == Some(p.id)
                                       && v.outcome == Decisive(p.id, p.effect, p.authority))
    && (v.outcome.reason.Some? ==> v.outcome.kind == Escalate && v.outcome.policyId == None && v.outcome.action == None)
    && (v.outcome.reason == Some(NoMatchingPolicy) <==> forall p :: p in ps ==> StatusOf(lib, p, e) == Failed)
    && (v.outcome.reason == Some(Conflict) <==> |Finalists(MatchedField(Ballots(lib, ps, e)))| > 1)
    && (v.outcome.reason == Some(Conflict) ==>
          v.tie == v.outcome.conflictBetween == SortedSet(Ids(Finalists(MatchedField(Ballots(lib, ps, e))))))
  }

  /** Main result: every ruling of `evaluate` is explained. */
  lemma RulingsAreExplained(lib: Lib, facts: map<string, Json>, b: Bundle, workflow: string, w: WorkflowSpec)
    requires EvaluatesIn(lib, b, workflow, w, facts)
    ensures VerdictOn(lib, facts, b, workflow).Some?
    ensures Explained(lib, PoliciesFor(b.policies, workflow), Effective(facts, w),
            VerdictOn(lib, facts, b, workflow).value)
  {
    hide Explained, EvaluatesIn, VerdictOn, Judge;
    Judged(lib, facts, b, workflow, w);
    JudgementExplained(lib, PoliciesFor(b.policies, workflow), Effective(facts, w));
  }

  lemma JudgementExplained(lib: Lib, ps: seq<Policy>, e: map<string, Scalar>)
    requires DistinctIds(ps) && !Stuck(MatchedField(Ballots(lib, ps, e)))
    ensures Explained(lib, ps, e, Judge(Ballots(lib, ps, e)))
  {
    hide Governs, StatusOf, DistinctIds;
    var ballots := Ballots(lib, ps, e);
    if Judge(ballots).winner.Some? {
      var p := WinnerGoverns(lib, ps, e, Judge(ballots).winner.value);
      GovernorWins(lib, ps, e, p);
    }
    AllFailed(lib, ps, e);
    NoFinalists(MatchedField(ballots));
  }

  lemma AllFailed(lib: Lib, ps: seq<Policy>, e: map<string, Scalar>)
    ensures var ballots := Ballots(lib, ps, e);
            MatchedField(ballots) == {} && Unproven(ballots) == {}
            <==> forall p :: p in ps ==> StatusOf(lib, p, e) == Failed
  {
    var ballots := Ballots(lib, ps, e);
    forall p | p in ps ensures StatusOf(lib, p, e) == Matched ==> AsContender(p) in MatchedField(ballots)
                       ensures StatusOf(lib, p, e) == Undeterminable ==> BallotOf(lib, p, e) in Unproven(ballots) {
      BallotMember(lib, ps, e, p);
    }
    if MatchedField(ballots) != {} {
      var c :| c in MatchedField(ballots);
      var p := FieldContender(lib, ps, e, c);
    }
    if Unproven(ballots) != {} {
      var b :| b in Unproven(ballots);
      var p :| p in ps && Votes(lib, e)(p) == b;
    }
  }

  // ------------------------------------------------------------------ new facts

  /** `f` has everything `e` has; it may value more facts. */
  ghost predicate Extends(e: map<string, Scalar>, f: map<string, Scalar>) {
    forall n :: n in e ==> n in f && f[n] == e[n]
  }

  /** Supplying declared facts that had neither a value nor a default only extends. */
  lemma SupplyingExtends(facts: map<string, Json>, extra: map<string, Json>, w: WorkflowSpec)
    requires forall n :: n in extra ==> n !in Effective(facts, w) && n !in facts
    ensures Extends(Effective(facts, w), Effective(facts + extra, w))
  {
    var e := Effective(facts, w);
    forall n | n in e ensures n in Effective(facts + extra, w) && Effective(facts + extra, w)[n] == e[n] {
      assert n !in extra;
      assert Reading(facts + extra, w, n) == Reading(facts, w, n);
    }
  }

  /** New facts never change a matched or failed policy. */
  lemma ProvenStaysProven(lib: Lib, p: Policy, e: map<string, Scalar>, f: map<string, Scalar>)
    requires Extends(e, f) && StatusOf(lib, p, e) != Undeterminable
    ensures StatusOf(lib, p, f) == StatusOf(lib, p, e)
  {
    if AnyIs(lib, p.conditions, e, Fail) {
      var c :| c in p.conditions && OutcomeOf(lib, c, e) == Fail;
      assert OutcomeOf(lib, c, f) == Fail;
    } else {
      forall c | c in p.conditions ensures OutcomeOf(lib, c, f) == Pass {
        assert OutcomeOf(lib, c, e) != Missing && OutcomeOf(lib, c, e) != Fail;
      }
    }
  }

  /** An unproven policy that would unseat the governing one if it matched: it overrides it, or
      it reaches its rank and no matched policy overrides it. */
  ghost predicate Threat(lib: Lib, ps: seq<Policy>, e: map<string, Scalar>, p: Policy, u: Policy) {
    && StatusOf(lib, u, e) == Undeterminable
    && (p.id in u.overrides || (!Beats(AsContender(p), AsContender(u)) && Unchallenged(lib, ps, e, u)))
  }

  ghost predicate Unthreatened(lib: Lib, ps: seq<Policy>, e: map<string, Scalar>, p: Policy) {
    forall u :: u in ps ==> !Threat(lib, ps, e, p, u)
  }

  ghost predicate GovernsSafely(lib: Lib, ps: seq<Policy>, e: map<string, Scalar>, p: Policy) {
    Governs(lib, ps, e, p) && Unthreatened(lib, ps, e, p)
  }

  lemma StillGoverns(lib: Lib, ps: seq<Policy>, e: map<string, Scalar>, f: map<string, Scalar>, p: Policy)
    requires GovernsSafely(lib, ps, e, p) && Extends(e, f)
    ensures Governs(lib, ps, f, p)
  {
    ProvenStaysProven(lib, p, e, f);
    forall q | q in ps && IsMatched(lib, q, f)
      ensures p.id !in q.overrides
      ensures q.id != p.id && Unchallenged(lib, ps, f, q) ==> Beats(AsContender(p), AsContender(q))
    {
      assert !Threat(lib, ps, e, p, q);
      if StatusOf(lib, q, e) != Undeterminable { ProvenStaysProven(lib, q, e, f); }
      if Unchallenged(lib, ps, f, q) {
        forall r | r in ps && IsMatched(lib, r, e) ensures q.id !in r.overrides { ProvenStaysProven(lib, r, e, f); }
      }
    }
    forall u | u in ps && StatusOf(lib, u, f) == Undeterminable ensures u.priority <= p.priority {
      if StatusOf(lib, u, e) != Undeterminable { ProvenStaysProven(lib, u, e, f); }
    }
  }

  /** Main result: a decision survives every extension of the facts as long as no unproven policy
      threatens its policy. */
  lemma DecisionIsStable(lib: Lib, facts: map<string, Json>, more: map<string, Json>, b: Bundle,
                         workflow: string, w: WorkflowSpec, p: Policy)
    requires EvaluatesIn(lib, b, workflow, w, facts) && EvaluatesIn(lib, b, workflow, w, more)
    requires Extends(Effective(facts, w), Effective(more, w))
    requires GovernsSafely(lib, PoliciesFor(b.policies, workflow), Effective(facts, w), p)
    ensures OutcomeOn(lib, more, b, workflow) == OutcomeOn(lib, facts, b, workflow)
    ensures WinnerOn(lib, more, b, workflow) == Some(p.id)
  {
    StillGoverns(lib, PoliciesFor(b.policies, workflow), Effective(facts, w), Effective(more, w), p);
    GovernorDecides(lib, facts, b, workflow, w, p);
    GovernorDecides(lib, more, b, workflow, w, p);
  }

  lemma UnmatchedDoesNotWin(lib: Lib, ps: seq<Policy>, e: map<string, Scalar>, p: Policy)
    requires DistinctIds(ps) && !Stuck(MatchedField(Ballots(lib, ps, e)))
    requires p in ps && !IsMatched(lib, p, e)
    ensures Judge(Ballots(lib, ps, e)).winner != Some(p.id)
  {
    if Judge(Ballots(lib, ps, e)).winner == Some(p.id) {
      var q := WinnerGoverns(lib, ps, e, p.id);
      SameIdSamePolicy(ps, p, q);
    }
  }

  /** A policy cannot govern once one of its condition fields loses its value. */
  lemma LosingAFactDethrones(lib: Lib, facts: map<string, Json>, b: Bundle, workflow: string, w: WorkflowSpec,
                             p: Policy, c: Condition)
    requires EvaluatesIn(lib, b, workflow, w, facts)
    requires p in PoliciesFor(b.policies, workflow) && c in p.conditions && c.field !in Effective(facts, w)
    ensures WinnerOn(lib, facts, b, workflow) != Some(p.id)
  {
    hide EvaluatesIn, VerdictOn, Judge;
    Judged(lib, facts, b, workflow, w);
    assert OutcomeOf(lib, c, Effective(facts, w)) == Missing;
    UnmatchedDoesNotWin(lib, PoliciesFor(b.policies, workflow), Effective(facts, w), p);
  }
}
