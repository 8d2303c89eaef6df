/** From a list of evaluated policies to the set of ballots the judgement reads. A voter is
    one evaluator's way of casting a policy's ballot; both evaluators share what follows. */
module Tally {
  import opened Options
  import opened Text
  import opened Schema
  import opened Precedence
  import opened Selection
  import opened Judgement

  type Voter = Policy -> Ballot

  /** Only status and missing fields are the voter's own; the rest is the policy's. */
  ghost predicate Honest(vote: Voter) {
    forall p: Policy :: vote(p).contender == AsContender(p) && vote(p).effect == p.effect
        && vote(p).authority == p.authority
  }

  ghost function Cast(vote: Voter, ps: seq<Policy>): set<Ballot> {
    set p | p in ps :: vote(p)
  }

  /** The policies of one status, in source order. */
  ghost function Having(vote: Voter, ps: seq<Policy>, st: PolicyStatus): (r: seq<Policy>)
    ensures forall p :: p in r <==> p in ps && vote(p).status == st
  {
    if ps == [] then []
    else
      var last := ps[|ps| - 1];
      assert ps == ps[..|ps| - 1] + [last];
      Having(vote, ps[..|ps| - 1], st) + (if vote(last).status == st then [last] else [])
  }

  lemma HavingStep(vote: Voter, ps: seq<Policy>, i: nat, st: PolicyStatus)
    requires i < |ps|
    ensures Having(vote, ps[..i + 1], st) == Having(vote, ps[..i], st)
            + (if vote(ps[i]).status == st then [ps[i]] else [])
  {
    assert ps[..i + 1][..i] == ps[..i];
  }

  lemma {:induction false} HavingDistinct(vote: Voter, ps: seq<Policy>, st: PolicyStatus)
    requires DistinctIds(ps)
    ensures DistinctIds(Having(vote, ps, st))
  {
    if ps != [] {
      var front, last := ps[..|ps| - 1], ps[|ps| - 1];
      DistinctPrefix(ps, |ps| - 1);
      HavingDistinct(vote, front, st);
      var r := Having(vote, front, st);
      forall p | p in r ensures p.id != last.id {
        var k :| 0 <= k < |front| && front[k] == p;
        DistinctAt(ps, k, |ps| - 1);
      }
      DistinctAppend(r, last);
      assert Having(vote, ps, st) == r || Having(vote, ps, st) == r + [last];
    }
  }

  lemma CastMember(vote: Voter, ps: seq<Policy>, p: Policy)
    requires p in ps
    ensures vote(p) in Cast(vote, ps)
  {
  }

  lemma CastDistinct(vote: Voter, ps: seq<Policy>)
    requires DistinctIds(ps) && Honest(vote)
    ensures DistinctBallots(Cast(vote, ps))
  {
    var ballots := Cast(vote, ps);
    forall a, b | a in ballots && b in ballots && a.contender.id == b.contender.id ensures a == b {
      var p :| p in ps && vote(p) == a;
      var q :| q in ps && vote(q) == b;
      SameIdSamePolicy(ps, p, q);
    }
  }

  lemma MatchedAre(vote: Voter, ps: seq<Policy>)
    requires Honest(vote)
    ensures Field(Having(vote, ps, Matched)) == MatchedField(Cast(vote, ps))
  {
    var matched := Having(vote, ps, Matched);
    forall c | c in Field(matched) ensures c in MatchedField(Cast(vote, ps)) {
      var p :| p in matched && AsContender(p) == c;
      CastMember(vote, ps, p);
    }
    forall c | c in MatchedField(Cast(vote, ps)) ensures c in Field(matched) {
      var b :| b in Cast(vote, ps) && b.status == Matched && b.contender == c;
      var p :| p in ps && vote(p) == b;
      FieldMember(matched, p);
    }
  }

  lemma UnprovenAre(vote: Voter, ps: seq<Policy>)
    ensures Cast(vote, Having(vote, ps, Undeterminable)) == Unproven(Cast(vote, ps))
  {
    var us := Having(vote, ps, Undeterminable);
    forall b | b in Unproven(Cast(vote, ps)) ensures b in Cast(vote, us) {
      var p :| p in ps && vote(p) == b;
      CastMember(vote, us, p);
    }
  }

  ghost function Above(ps: seq<Policy>, floor: int): (r: seq<Policy>)
    ensures forall p :: p in r <==> p in ps && p.priority > floor
  {
    if ps == [] then []
    else
      var front, last := ps[..|ps| - 1], ps[|ps| - 1];
      assert ps == front + [last];
      Above(front, floor) + (if last.priority > floor then [last] else [])
  }

  lemma BlockersAre(vote: Voter, ps: seq<Policy>, us: seq<Policy>, w: Policy)
    requires Honest(vote) && Cast(vote, us) == Unproven(Cast(vote, ps))
    ensures Cast(vote, Above(us, w.priority)) == Blockers(Cast(vote, ps), AsContender(w))
  {
    var above := Above(us, w.priority);
    var blockers := Blockers(Cast(vote, ps), AsContender(w));
    forall b | b in blockers ensures b in Cast(vote, above) {
      assert b in Cast(vote, us);
      var p :| p in us && b == vote(p);
      CastMember(vote, above, p);
    }
    forall b | b in Cast(vote, above) ensures b in blockers {
      var p :| p in above && b == vote(p);
      CastMember(vote, us, p);
    }
  }

  /** A list naming every missing field of the given policies sorts to the asked-for set. */
  lemma NamesAsked(vote: Voter, ps: seq<Policy>, names: seq<string>)
    requires forall x :: x in names <==> exists p :: p in ps && x in vote(p).missing
    ensures SortedUnique(names) == SortedSet(MissingOf(Cast(vote, ps)))
  {
    forall x | x in MissingOf(Cast(vote, ps)) ensures x in names {
      var b :| b in Cast(vote, ps) && x in b.missing;
      var p :| p in ps && b == vote(p);
    }
    forall x | x in names ensures x in MissingOf(Cast(vote, ps)) {
      var p :| p in ps && x in vote(p).missing;
      CastMember(vote, ps, p);
    }
    SortedUniqueIsSortedSet(names, MissingOf(Cast(vote, ps)));
  }

  lemma IdsNamed(vote: Voter, ps: seq<Policy>, names: seq<string>)
    requires Honest(vote) && forall x :: x in names <==> exists p :: p in ps && x == p.id
    ensures SortedUnique(names) == SortedSet(IdsOfBallots(Cast(vote, ps)))
  {
    forall x | x in IdsOfBallots(Cast(vote, ps)) ensures x in names {
      var b :| b in Cast(vote, ps) && x == b.contender.id;
      var p :| p in ps && b == vote(p);
    }
    forall x | x in names ensures x in IdsOfBallots(Cast(vote, ps)) {
      var p :| p in ps && x == p.id;
      CastMember(vote, ps, p);
    }
    SortedUniqueIsSortedSet(names, IdsOfBallots(Cast(vote, ps)));
  }

  lemma CastNonempty(vote: Voter, ps: seq<Policy>)
    ensures ps == [] <==> Cast(vote, ps) == {}
  {
    if ps != [] { CastMember(vote, ps, ps[0]); }
  }

  /** What each selection result means for the judgement. */
  lemma SelectedJudgement(vote: Voter, ps: seq<Policy>, sel: Selected)
    requires DistinctIds(ps) && Honest(vote) && Selects(Having(vote, ps, Matched), sel)
    ensures var ballots := Cast(vote, ps); var m := MatchedField(ballots);
            && (Stuck(m) <==> sel == IndexError)
            && (sel == Nobody ==> m == {} && Judge(ballots) == NoWinner(ballots, RulesOf(m)))
            && (sel.Winner? ==> Judge(ballots) == WithWinner(ballots, vote(sel.policy), RulesOf(m)))
            && (sel.Tie? ==>
                Judge(ballots) == Verdict(Escalation(Conflict, [], sel.ids), RulesOf(m), None, sel.ids, []))
  {
    var ballots := Cast(vote, ps);
    var m := MatchedField(ballots);
    var matched := Having(vote, ps, Matched);
    MatchedAre(vote, ps);
    NoFinalists(m);
    match sel {
      case IndexError =>
      case Nobody =>
        assert Field(matched) == {};
        assert |Finalists(m)| == 0;
      case Tie(ids) =>
      case Winner(w) =>
        CastDistinct(vote, ps);
        CastMember(vote, ps, w);
        assert WinningBallot(ballots, vote(w));
        JudgeWinner(ballots, vote(w));
    }
  }
}
