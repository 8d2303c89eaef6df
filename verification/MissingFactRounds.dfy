/** What a missing_facts escalation asks for, and how many times it can ask. */
module MissingFactRounds {
  import opened Options
  import opened Text
  import opened Schema
  import opened Precedence
  import opened Judgement
  import opened Tally
  import opened Evaluator
  import opened DecisionLaws

  /** The facts an evaluation escalates for; empty when it does not ask. */
  ghost function AskedFor(lib: Lib, facts: map<string, Json>, b: Bundle, workflow: string): seq<string> {
    match OutcomeOn(lib, facts, b, workflow)
    case Some(o) => if o.reason == Some(MissingFacts) then o.missingFacts else []
    case None => []
  }

  ghost predicate Asks(lib: Lib, facts: map<string, Json>, b: Bundle, workflow: string) {
    match OutcomeOn(lib, facts, b, workflow)
    case Some(o) => o.reason == Some(MissingFacts)
    case None => false
  }

  /** An unproven policy misses some declared fact. */
  lemma UnprovenMissesSomething(lib: Lib, p: Policy, e: map<string, Scalar>)
    requires StatusOf(lib, p, e) == Undeterminable
    ensures MissingFields(p, e) != {}
  {
    var c :| c in p.conditions && OutcomeOf(lib, c, e) == Missing;
    assert c.field in MissingFields(p, e);
  }

  lemma MissingIsDeclared(b: Bundle, workflow: string, w: WorkflowSpec, p: Policy, e: map<string, Scalar>, x: string)
    requires ValidBundle(b) && WorkflowNamed(b.workflows, workflow) == Some(w)
    requires p in PoliciesFor(b.policies, workflow) && x in MissingFields(p, e)
    ensures Declared(w, x)
  {
    assert PolicyPlaced(p, b);
    var c :| c in p.conditions && c.field == x;
    assert ConditionDeclared(c, w);
  }

  /** Asking is always about the missing fields of a nonempty set of unproven ballots. */
  lemma AsksFromUnproven(ballots: set<Ballot>) returns (asking: set<Ballot>)
    requires !Stuck(MatchedField(ballots)) && Judge(ballots).outcome.reason == Some(MissingFacts)
    requires DistinctBallots(ballots)
    ensures asking != {} && asking <= Unproven(ballots)
    ensures Judge(ballots).outcome.missingFacts == SortedSet(MissingOf(asking))
  {
    var m := MatchedField(ballots);
    if m == {} {
      asking := Unproven(ballots);
    } else {
      SomebodyWins(ballots);
      var b :| WinningBallot(ballots, b);
      JudgeWinner(ballots, b);
      asking := Blockers(ballots, b.contender);
    }
  }

  /** Every missing_facts escalation names at least one fact, all of them declared and without
      a value. */
  lemma AsksForAbsentFacts(lib: Lib, facts: map<string, Json>, b: Bundle, workflow: string, w: WorkflowSpec)
    requires EvaluatesIn(lib, b, workflow, w, facts) && Asks(lib, facts, b, workflow)
    ensures AskedFor(lib, facts, b, workflow) != []
    ensures forall x :: x in AskedFor(lib, facts, b, workflow) ==> x in FactNames(w) && x !in Effective(facts, w)
  {
    hide VerdictOn, ValidBundle, FactNames, Effective;
    Judged(lib, facts, b, workflow, w);
    var ps, e := PoliciesFor(b.policies, workflow), Effective(facts, w);
    var ballots := Ballots(lib, ps, e);
    CastDistinct(Votes(lib, e), ps);
    var asking := AsksFromUnproven(ballots);
    forall x | x in MissingOf(asking) ensures x in FactNames(w) && x !in e {
      var a :| a in asking && x in a.missing;
      var p :| p in ps && Votes(lib, e)(p) == a;
      MissingIsDeclared(b, workflow, w, p, e, x);
      DeclaredIsNamed(w, x);
    }
    var a :| a in asking;
    var p :| p in ps && Votes(lib, e)(p) == a;
    UnprovenMissesSomething(lib, p, e);
    var x :| x in MissingFields(p, e);
    assert x in MissingOf(asking);
    assert x in SortedSet(MissingOf(asking));
  }

  /** Declared facts without a value. */
  ghost function Unvalued(facts: map<string, Json>, w: WorkflowSpec): set<string> {
    FactNames(w) - Effective(facts, w).Keys
  }

  /** The next request keeps every value and supplies each fact that was asked for. */
  ghost predicate Answers(lib: Lib, b: Bundle, workflow: string, w: WorkflowSpec, facts: map<string, Json>,
                          next: map<string, Json>) {
    && EvaluatesIn(lib, b, workflow, w, next)
    && Extends(Effective(facts, w), Effective(next, w))
    && forall x :: x in AskedFor(lib, facts, b, workflow) ==> x in Effective(next, w)
  }

  lemma RoundMakesProgress(lib: Lib, b: Bundle, workflow: string, w: WorkflowSpec, facts: map<string, Json>,
                           next: map<string, Json>)
    requires EvaluatesIn(lib, b, workflow, w, facts) && Asks(lib, facts, b, workflow)
    requires Answers(lib, b, workflow, w, facts, next)
    ensures |Unvalued(next, w)| < |Unvalued(facts, w)|
  {
    AsksForAbsentFacts(lib, facts, b, workflow, w);
    var x := AskedFor(lib, facts, b, workflow)[0];
    FewerUnvalued(facts, next, w, x);
  }

  lemma FewerUnvalued(facts: map<string, Json>, next: map<string, Json>, w: WorkflowSpec, x: string)
    requires Extends(Effective(facts, w), Effective(next, w))
    requires x in FactNames(w) && x !in Effective(facts, w) && x in Effective(next, w)
    ensures |Unvalued(next, w)| < |Unvalued(facts, w)|
  {
    var before, after := Unvalued(facts, w), Unvalued(next, w);
    var e, f := Effective(facts, w), Effective(next, w);
    forall y | y in after ensures y in before - {x} { assert y !in f && y !in e; }
    SmallerSet(after, before, x);
  }

  /** A dialogue: every request but the last is answered by asking for more facts. */
  ghost predicate Dialogue(lib: Lib, b: Bundle, workflow: string, w: WorkflowSpec, requests: seq<map<string, Json>>) {
    && requests != [] && EvaluatesIn(lib, b, workflow, w, requests[0])
    && (|requests| > 1 ==>
          && Asks(lib, requests[0], b, workflow)
          && Answers(lib, b, workflow, w, requests[0], requests[1])
          && Dialogue(lib, b, workflow, w, requests[1..]))
  }

  /** Main result: the evaluator asks at most as many times as there are unvalued facts. */
  lemma {:induction false} DialogueIsShort(lib: Lib, b: Bundle, workflow: string, w: WorkflowSpec,
          requests: seq<map<string, Json>>)
    requires Dialogue(lib, b, workflow, w, requests)
    ensures |requests| - 1 <= |Unvalued(requests[0], w)|
  {
    if |requests| > 1 {
      RoundMakesProgress(lib, b, workflow, w, requests[0], requests[1]);
      DialogueIsShort(lib, b, workflow, w, requests[1..]);
    }
  }

  lemma AnsweredIsProven(lib: Lib, p: Policy, e: map<string, Scalar>, f: map<string, Scalar>)
    requires Extends(e, f)
    requires StatusOf(lib, p, e) == Undeterminable ==> forall x :: x in MissingFields(p, e) ==> x in f
    ensures StatusOf(lib, p, f) != Undeterminable
  {
    if StatusOf(lib, p, e) != Undeterminable {
      ProvenStaysProven(lib, p, e, f);
    } else {
      forall c | c in p.conditions ensures OutcomeOf(lib, c, f) != Missing {
        if c.field !in e { assert c.field in MissingFields(p, e); }
      }
    }
  }

  /** When no policy matched, the evaluator asks for everything any unproven policy misses. */
  lemma AsksForEverything(lib: Lib, b: Bundle, workflow: string, w: WorkflowSpec, facts: map<string, Json>, p: Policy,
                          x: string)
    requires EvaluatesIn(lib, b, workflow, w, facts)
    requires MatchedField(Ballots(lib, PoliciesFor(b.policies, workflow), Effective(facts, w))) == {}
    requires p in PoliciesFor(b.policies, workflow) && StatusOf(lib, p, Effective(facts, w)) == Undeterminable
    requires x in MissingFields(p, Effective(facts, w))
    ensures x in AskedFor(lib, facts, b, workflow)
  {
    hide EvaluatesIn, ValidBundle, StatusOf, Ballots;
    var ps, e := PoliciesFor(b.policies, workflow), Effective(facts, w);
    Judged(lib, facts, b, workflow, w);
    JudgeNobody(Ballots(lib, ps, e));
    BallotMember(lib, ps, e, p);
    var a := BallotOf(lib, p, e);
    assert a in Unproven(Ballots(lib, ps, e)) && x in a.missing;
    assert x in MissingOf(Unproven(Ballots(lib, ps, e)));
    assert x in SortedSet(MissingOf(Unproven(Ballots(lib, ps, e))));
  }

  lemma NothingUnprovenNeverAsks(lib: Lib, facts: map<string, Json>, b: Bundle, workflow: string, w: WorkflowSpec)
    requires EvaluatesIn(lib, b, workflow, w, facts)
    requires Unproven(Ballots(lib, PoliciesFor(b.policies, workflow), Effective(facts, w))) == {}
    ensures !Asks(lib, facts, b, workflow)
  {
    var ps, e := PoliciesFor(b.policies, workflow), Effective(facts, w);
    Judged(lib, facts, b, workflow, w);
    if Judge(Ballots(lib, ps, e)).outcome.reason == Some(MissingFacts) {
      CastDistinct(Votes(lib, e), ps);
      var asking := AsksFromUnproven(Ballots(lib, ps, e));
    }
  }

  /** When no policy matched, one answered round settles it. */
  lemma OneRoundSuffices(lib: Lib, b: Bundle, workflow: string, w: WorkflowSpec, facts: map<string, Json>,
                         next: map<string, Json>)
    requires EvaluatesIn(lib, b, workflow, w, facts) && Answers(lib, b, workflow, w, facts, next)
    requires MatchedField(Ballots(lib, PoliciesFor(b.policies, workflow), Effective(facts, w))) == {}
    ensures !Asks(lib, next, b, workflow)
  {
    var ps, e, f := PoliciesFor(b.policies, workflow), Effective(facts, w), Effective(next, w);
    forall p | p in ps ensures StatusOf(lib, p, f) != Undeterminable {
      if StatusOf(lib, p, e) == Undeterminable {
        forall x | x in MissingFields(p, e) ensures x in f {
          AsksForEverything(lib, b, workflow, w, facts, p, x);
        }
      }
      AnsweredIsProven(lib, p, e, f);
    }
    NothingUnproven(lib, ps, f);
    NothingUnprovenNeverAsks(lib, next, b, workflow, w);
  }

  lemma NothingUnproven(lib: Lib, ps: seq<Policy>, e: map<string, Scalar>)
    requires forall p :: p in ps ==> StatusOf(lib, p, e) != Undeterminable
    ensures Unproven(Ballots(lib, ps, e)) == {}
  {
    forall b | b in Ballots(lib, ps, e) ensures b.status != Undeterminable {
      var p :| p in ps && Votes(lib, e)(p) == b;
    }
  }
}
