/** Winner selection as a statement about sets: overrides, then specificity, then
    priority. Both evaluators are measured against this reference. */
module Precedence {

  /** What selection looks at in a matched policy. */
  datatype Contender = Contender(id: string, specificity: nat, priority: int, overrides: set<string>)

  datatype Rule = OverridesRule | SpecificityRule | PriorityRule | SingleMatchRule | DominanceRule

  ghost predicate Distinct(m: set<Contender>) {
    forall p, q :: p in m && q in m && p.id == q.id ==> p == q
  }

  ghost function Ids(m: set<Contender>): set<string> {
    set p | p in m :: p.id
  }

  ghost predicate Overridden(m: set<Contender>, p: Contender) {
    exists q :: q in m && p.id in q.overrides
  }

  /** Stage 1: nothing in the field overrides them. */
  ghost function Standing(m: set<Contender>): set<Contender> {
    set p | p in m && !Overridden(m, p)
  }

  /** Stage 2: as many conditions as any survivor. */
  ghost function MostSpecific(s: set<Contender>): set<Contender> {
    set p | p in s && forall q :: q in s ==> q.specificity <= p.specificity
  }

  /** Stage 3: as high a priority as any survivor. */
  ghost function TopPriority(s: set<Contender>): set<Contender> {
    set p | p in s && forall q :: q in s ==> q.priority <= p.priority
  }

  ghost function Finalists(m: set<Contender>): set<Contender> {
    TopPriority(MostSpecific(Standing(m)))
  }

  ghost function RuleIf(before: set<Contender>, after: set<Contender>, rule: Rule): seq<Rule> {
    if after != before then [rule] else []
  }

  /** The rules that removed somebody, in stage order. */
  ghost function Removing(m: set<Contender>): seq<Rule> {
    var s := Standing(m);
    RuleIf(m, s, OverridesRule)
    + RuleIf(s, MostSpecific(s), SpecificityRule)
    + RuleIf(MostSpecific(s), Finalists(m), PriorityRule)
  }

  ghost function RulesOf(m: set<Contender>): seq<Rule> {
    if Removing(m) == [] && |Finalists(m)| == 1 then [SingleMatchRule] else Removing(m)
  }

  /** Everybody was overridden: possible only on a cyclic field. */
  ghost predicate Stuck(m: set<Contender>) {
    m != {} && Standing(m) == {}
  }

  /** `q` comes strictly before `p` by (specificity, priority). */
  predicate Beats(q: Contender, p: Contender) {
    q.specificity > p.specificity || (q.specificity == p.specificity && q.priority > p.priority)
  }

  /** The finalists are the lexicographic maxima among the contenders nobody overrides. */
  lemma FinalistsAreMaxima(m: set<Contender>, p: Contender)
    ensures p in Finalists(m) <==> p in Standing(m) && forall q :: q in Standing(m) ==> !Beats(q, p)
  {
    var s := Standing(m);
    if p in s && forall q :: q in s ==> !Beats(q, p) {
      assert p in MostSpecific(s);
      forall q | q in MostSpecific(s) ensures q.priority <= p.priority { assert !Beats(q, p); }
    }
    if p in Finalists(m) {
      forall q | q in s ensures !Beats(q, p) {
        if q.specificity == p.specificity { assert q in MostSpecific(s); }
      }
    }
  }

  predicate IsMaximum(s: set<Contender>, f: Contender -> int, p: Contender) {
    p in s && forall q :: q in s ==> f(q) <= f(p)
  }

  lemma HasMaximum(s: set<Contender>, f: Contender -> int) returns (p: Contender)
    requires s != {}
    ensures IsMaximum(s, f, p)
  {
    var x :| x in s;
    var rest := s - {x};
    assert forall q :: q in s ==> q == x || q in rest;
    if rest == {} {
      p := x;
    } else {
      p := HasMaximum(rest, f);
      if f(p) < f(x) { p := x; }
    }
  }

  /** The two ranking stages never empty a nonempty set. */
  lemma RankingKeepsSomebody(s: set<Contender>)
    requires s != {}
    ensures MostSpecific(s) != {} && TopPriority(s) != {}
  {
    var p := HasMaximum(s, (c: Contender) => c.specificity as int);
    var r := HasMaximum(s, (c: Contender) => c.priority);
    assert forall q :: q in s ==> q.specificity <= p.specificity && q.priority <= r.priority;
    assert p in MostSpecific(s) && r in TopPriority(s);
  }

  /** Nobody is left exactly when the override stage removed everybody. */
  lemma NoFinalists(m: set<Contender>)
    ensures Finalists(m) == {} <==> m == {} || Stuck(m)
  {
    var s := Standing(m);
    if s != {} {
      RankingKeepsSomebody(s);
      RankingKeepsSomebody(MostSpecific(s));
    }
  }

  ghost predicate Ranked(m: set<Contender>, rank: map<string, nat>) {
    && (forall p :: p in m ==> p.id in rank)
    && (forall p, q :: p in m && q in m && p.id in q.overrides ==> rank[p.id] < rank[q.id])
  }

  /** On an acyclic field somebody always stands: the highest-ranked contender. */
  lemma AcyclicFieldStands(m: set<Contender>, rank: map<string, nat>)
    requires m != {} && Ranked(m, rank)
    ensures !Stuck(m) && Finalists(m) != {}
  {
    var p := HasMaximum(m, (c: Contender) => if c.id in rank then rank[c.id] else 0);
    assert !Overridden(m, p);
    assert p in Standing(m);
    NoFinalists(m);
  }

  /** A finalist set of one is the unique undefeated maximum. */
  lemma SoleFinalist(m: set<Contender>, w: Contender)
    requires Finalists(m) == {w}
    ensures w in Standing(m) && forall q :: q in Standing(m) && q != w ==> Beats(w, q)
  {
    assert w in Finalists(m);
    FinalistsAreMaxima(m, w);
    forall q | q in Standing(m) && q != w ensures Beats(w, q) {
      assert q !in Finalists(m);
      FinalistsAreMaxima(m, q);
      var r :| r in Standing(m) && Beats(r, q);
      assert !Beats(r, w);
    }
  }

  /** The converse: an undefeated contender that beats every other one is the only finalist. */
  lemma UniqueMaximumWins(m: set<Contender>, w: Contender)
    requires w in Standing(m) && forall q :: q in Standing(m) && q != w ==> Beats(w, q)
    ensures Finalists(m) == {w}
  {
    forall p ensures p in Finalists(m) <==> p == w {
      FinalistsAreMaxima(m, p);
    }
  }
}
