/** The decision as a function of a set of ballots, one per policy. Neither the order of the
    policies nor anything outside a ballot can reach the outcome. */
module Judgement {
  import opened Options
  import opened Text
  import opened Schema
  import opened Precedence

  datatype PolicyStatus = Matched | Failed | Undeterminable
  datatype EscalationReason = MissingFacts | NoMatchingPolicy | Conflict

  datatype Outcome = Outcome(kind: OutcomeKind, action: Option<string>, policyId: Option<string>,
                             approvalRequired: bool, approverRole: Option<string>,
                             reason: Option<EscalationReason>,
                             missingFacts: seq<string>, conflictBetween: seq<string>)

  /** Everything about one policy's evaluation that can influence the decision. */
  datatype Ballot = Ballot(contender: Contender, status: PolicyStatus, missing: set<string>,
                           effect: Effect, authority: Authority)

  /** The outcome together with the order-independent part of the precedence trace. */
  datatype Verdict = Verdict(outcome: Outcome, rules: seq<Rule>, winner: Option<string>,
                             tie: seq<string>, blockedBy: seq<string>)

  function Escalation(reason: EscalationReason, missing: seq<string>, conflict: seq<string>): Outcome {
    Outcome(Escalate, None, None, false, None, Some(reason), missing, conflict)
  }

  function Decisive(id: string, effect: Effect, authority: Authority): Outcome {
    Outcome(effect.kind, Some(effect.action), Some(id), authority.approvalRequired,
            authority.approverRole, None, [], [])
  }

  ghost function MatchedField(ballots: set<Ballot>): set<Contender> {
    set b | b in ballots && b.status == Matched :: b.contender
  }

  ghost function Unproven(ballots: set<Ballot>): set<Ballot> {
    set b | b in ballots && b.status == Undeterminable
  }

  ghost function MissingOf(ballots: set<Ballot>): set<string> {
    set b, f | b in ballots && f in b.missing :: f
  }

  ghost function IdsOfBallots(ballots: set<Ballot>): set<string> {
    set b | b in ballots :: b.contender.id
  }

  /** The dominance rule: unproven policies of strictly higher priority than the winner. */
  ghost function Blockers(ballots: set<Ballot>, w: Contender): set<Ballot> {
    set b | b in Unproven(ballots) && b.contender.priority > w.priority
  }

  ghost predicate WinningBallot(ballots: set<Ballot>, b: Ballot) {
    b in ballots && b.status == Matched && Finalists(MatchedField(ballots)) == {b.contender}
  }

  ghost predicate DistinctBallots(ballots: set<Ballot>) {
    forall a, b :: a in ballots && b in ballots && a.contender.id == b.contender.id ==> a == b
  }

  ghost function NoWinner(ballots: set<Ballot>, rules: seq<Rule>): Verdict {
    var unproven := Unproven(ballots);
    var outcome := if unproven != {} then Escalation(MissingFacts, SortedSet(MissingOf(unproven)), [])
                   else Escalation(NoMatchingPolicy, [], []);
    Verdict(outcome, rules, None, [], [])
  }

  ghost function WithWinner(ballots: set<Ballot>, b: Ballot, rules: seq<Rule>): Verdict {
    var blockers := Blockers(ballots, b.contender);
    if blockers != {} then
      Verdict(Escalation(MissingFacts, SortedSet(MissingOf(blockers)), []), rules + [DominanceRule],
              None, [], SortedSet(IdsOfBallots(blockers)))
    else
      Verdict(Decisive(b.contender.id, b.effect, b.authority), rules, Some(b.contender.id), [], [])
  }

  lemma SomebodyWins(ballots: set<Ballot>)
    requires MatchedField(ballots) != {} && !Stuck(MatchedField(ballots))
    requires |Finalists(MatchedField(ballots))| <= 1
    ensures exists b :: WinningBallot(ballots, b)
  {
    var m := MatchedField(ballots);
    NoFinalists(m);
    var c :| c in Finalists(m);
    assert |Finalists(m) - {c}| == 0;
    assert Finalists(m) == {c};
    assert c in m;
    var b :| b in ballots && b.status == Matched && b.contender == c;
    assert WinningBallot(ballots, b);
  }

  ghost function Judge(ballots: set<Ballot>): Verdict
    requires !Stuck(MatchedField(ballots))
  {
    var m := MatchedField(ballots);
    if |Finalists(m)| > 1 then
      var tie := SortedSet(Ids(Finalists(m)));
      Verdict(Escalation(Conflict, [], tie), RulesOf(m), None, tie, [])
    else if m == {} then
      NoWinner(ballots, RulesOf(m))
    else
      SomebodyWins(ballots);
      var b :| WinningBallot(ballots, b);
      WithWinner(ballots, b, RulesOf(m))
  }

  lemma JudgeTie(ballots: set<Ballot>)
    requires |Finalists(MatchedField(ballots))| > 1
    ensures !Stuck(MatchedField(ballots))
    ensures var tie := SortedSet(Ids(Finalists(MatchedField(ballots))));
            Judge(ballots) == Verdict(Escalation(Conflict, [], tie), RulesOf(MatchedField(ballots)), None, tie, [])
  {
    NoFinalists(MatchedField(ballots));
  }

  lemma JudgeNobody(ballots: set<Ballot>)
    requires MatchedField(ballots) == {}
    ensures !Stuck(MatchedField(ballots)) && Judge(ballots) == NoWinner(ballots, RulesOf({}))
  {
    NoFinalists({});
    assert |Finalists({})| == 0;
  }

  lemma JudgeWinner(ballots: set<Ballot>, b: Ballot)
    requires DistinctBallots(ballots) && WinningBallot(ballots, b)
    ensures !Stuck(MatchedField(ballots)) && MatchedField(ballots) != {}
    ensures Judge(ballots) == WithWinner(ballots, b, RulesOf(MatchedField(ballots)))
  {
    var m := MatchedField(ballots);
    assert b.contender in Finalists(m);
    assert |Finalists(m)| == 1;
    forall c | WinningBallot(ballots, c) ensures c == b {
      assert c.contender in {b.contender};
    }
  }
}
