/** What a replay run tells its reader, stated on the results alone: which cases pass, which flip, and that
    the summary counts exactly those. */
module ReplayLaws {
  import opened Options
  import opened Text
  import opened Schema
  import opened Judgement
  import opened Evaluator
  import opened Canonical
  import opened Addressing
  import opened Replay

  // ------------------------------------------------------------------ one case

  predicate KindSpelled(k: OutcomeKind, s: string) {
    match k
    case Approve => s == "approve"
    case Deny => s == "deny"
    case Route => s == "route"
    case Escalate => s == "escalate"
  }

  predicate ReasonSpelled(r: EscalationReason, s: string) {
    match r
    case MissingFacts => s == "missing_facts"
    case NoMatchingPolicy => s == "no_matching_policy"
    case Conflict => s == "conflict"
  }

  /** The outcome is of the expected kind, and has the action and the escalation reason that are expected, if any. */
  predicate AsExpected(o: Outcome, e: Expected) {
    && KindSpelled(o.kind, e.kind)
    && (e.action.Some? ==> o.action == e.action)
    && (e.escalationReason.Some? ==> o.reason.Some? && ReasonSpelled(o.reason.value, e.escalationReason.value))
  }

  /** The bundle rules on the case. */
  ghost predicate RulesOn(lib: Lib, b: Bundle, c: GoldenCase) {
    Evaluate(lib, c.facts, b, c.workflow).Ruling?
  }

  ghost function RulingOn(lib: Lib, b: Bundle, c: GoldenCase): Outcome
    requires RulesOn(lib, b, c)
  {
    Evaluate(lib, c.facts, b, c.workflow).outcome
  }

  predicate Agree(o: Outcome, r: Outcome) {
    o.kind == r.kind && o.action == r.action
  }

  ghost predicate CaseAccounted(lib: Lib, candidate: Bundle, reference: Option<Bundle>, c: GoldenCase, r: CaseResult) {
    var ruled := RulesOn(lib, candidate, c);
    var compared := ruled && reference.Some? && RulesOn(lib, reference.value, c);
    && r.caseId == c.caseId && r.workflow == c.workflow && r.error == !ruled
    && r.candidate == (if ruled then Some(RulingOn(lib, candidate, c)) else None)
    && r.reference == (if compared then Some(RulingOn(lib, reference.value, c)) else None)
    && (r.goldenPass.Some? <==> ruled) && (r.flipped.Some? <==> compared)
    && (r.goldenPass.Some? ==> (r.goldenPass.value <==> AsExpected(r.candidate.value, c.expected)))
    && (r.flipped.Some? ==> (r.flipped.value <==> !Agree(r.candidate.value, r.reference.value)))
  }

  lemma SpelledExactly(o: Outcome, e: Expected)
    ensures GoldenPass(o, e) <==> AsExpected(o, e)
  {
  }

  lemma CaseIsAccounted(lib: Lib, candidate: Bundle, reference: Option<Bundle>, c: GoldenCase)
    ensures CaseAccounted(lib, candidate, reference, c, CaseResultOf(lib, candidate, reference, c))
  {
    hide Evaluate, GoldenPass, AsExpected;
    var r := CaseResultOf(lib, candidate, reference, c);
    if r.candidate.Some? { SpelledExactly(r.candidate.value, c.expected); }
  }

  lemma {:induction false} ResultIs(lib: Lib, candidate: Bundle, reference: Option<Bundle>, cases: seq<GoldenCase>,
                                    i: nat)
    requires i < |cases|
    ensures |CaseResults(lib, candidate, reference, cases)| == |cases|
    ensures CaseResults(lib, candidate, reference, cases)[i] == CaseResultOf(lib, candidate, reference, cases[i])
  {
    hide CaseResultOf;
    var front := cases[..|cases| - 1];
    if i < |front| {
      ResultIs(lib, candidate, reference, front, i);
    } else if front != [] {
      ResultIs(lib, candidate, reference, front, 0);
    }
  }

  // ------------------------------------------------------------------ the summary

  predicate PassMark(r: CaseResult) { r.goldenPass == Some(true) }

  predicate FailMark(r: CaseResult) { r.goldenPass == Some(false) }

  predicate FlipMark(r: CaseResult) { r.flipped == Some(true) }

  predicate ErrorMark(r: CaseResult) { r.error }

  /** Flipped to an escalation where the reference decided. */
  predicate EscalationMark(r: CaseResult) {
    && r.flipped == Some(true) && r.candidate.Some? && r.reference.Some?
    && r.candidate.value.kind == Escalate && r.reference.value.kind != Escalate
  }

  /** The positions of the results that carry the mark. */
  function At(rs: seq<CaseResult>, mark: CaseResult -> bool): set<int> {
    set i | 0 <= i < |rs| && mark(rs[i])
  }

  ghost predicate SummaryAccounted(rs: seq<CaseResult>, s: ReplaySummary) {
    && s.total == |rs| && s.goldenPassed == |At(rs, PassMark)| && s.goldenFailed == |At(rs, FailMark)|
    && s.flips == |At(rs, FlipMark)| && s.newEscalations == |At(rs, EscalationMark)|
    && s.errors == |At(rs, ErrorMark)|
  }

  lemma AtGrows(front: seq<CaseResult>, r: CaseResult, mark: CaseResult -> bool)
    ensures |At(front + [r], mark)| == |At(front, mark)| + (if mark(r) then 1 else 0)
  {
    var more := if mark(r) then {|front|} else {};
    assert At(front + [r], mark) == At(front, mark) + more;
    assert |front| !in At(front, mark);
  }

  lemma SummaryStep(front: seq<CaseResult>, r: CaseResult)
    requires SummaryAccounted(front, SummaryOf(front))
    ensures SummaryAccounted(front + [r], SummaryOf(front + [r]))
  {
    SummaryAppend(front, r);
    hide SummaryOf, At;
    AtGrows(front, r, PassMark);
    AtGrows(front, r, FailMark);
    AtGrows(front, r, FlipMark);
    AtGrows(front, r, EscalationMark);
    AtGrows(front, r, ErrorMark);
  }

  lemma NobodyMarked(mark: CaseResult -> bool)
    ensures |At([], mark)| == 0
  {
    assert At([], mark) == {};
  }

  lemma NothingCounted()
    ensures SummaryAccounted([], SummaryOf([]))
  {
    hide At;
    NobodyMarked(PassMark);
    NobodyMarked(FailMark);
    NobodyMarked(FlipMark);
    NobodyMarked(EscalationMark);
    NobodyMarked(ErrorMark);
  }

  lemma {:induction false} SummaryIs(rs: seq<CaseResult>)
    ensures SummaryAccounted(rs, SummaryOf(rs))
  {
    hide SummaryOf, SummaryAccounted;
    if rs == [] {
      NothingCounted();
    } else {
      SummaryIs(rs[..|rs| - 1]);
      SummaryStep(rs[..|rs| - 1], rs[|rs| - 1]);
      assert rs[..|rs| - 1] + [rs[|rs| - 1]] == rs;
    }
  }

  // ------------------------------------------------------------------ the run

  /** Main result: the results of a replay say of every case what the two bundles rule on it, whether that is
      as expected and whether they agree, and the summary counts exactly those cases. */
  lemma RunIsAccounted(lib: Lib, candidate: Bundle, reference: Option<Bundle>, cases: seq<GoldenCase>)
    ensures var rs := CaseResults(lib, candidate, reference, cases);
            && |rs| == |cases| && SummaryAccounted(rs, SummaryOf(rs))
            && forall i :: 0 <= i < |cases| ==> CaseAccounted(lib, candidate, reference, cases[i], rs[i])
  {
    hide CaseAccounted, SummaryAccounted, CaseResultOf;
    var rs := CaseResults(lib, candidate, reference, cases);
    SummaryIs(rs);
    if cases != [] { ResultIs(lib, candidate, reference, cases, 0); }
    forall i | 0 <= i < |cases| ensures CaseAccounted(lib, candidate, reference, cases[i], rs[i]) {
      ResultIs(lib, candidate, reference, cases, i);
      CaseIsAccounted(lib, candidate, reference, cases[i]);
    }
  }

  /** Main result: no flips are reported exactly when the bundles decide alike every case both rule on. */
  lemma NoFlipsExactly(lib: Lib, candidate: Bundle, reference: Bundle, cases: seq<GoldenCase>)
    ensures SummaryOf(CaseResults(lib, candidate, Some(reference), cases)).flips == 0 <==>
              forall c :: c in cases && RulesOn(lib, candidate, c) && RulesOn(lib, reference, c)
                          ==> Agree(RulingOn(lib, candidate, c), RulingOn(lib, reference, c))
  {
    hide RulesOn, Agree, RulingOn;
    RunIsAccounted(lib, candidate, Some(reference), cases);
    var rs := CaseResults(lib, candidate, Some(reference), cases);
    if At(rs, FlipMark) == {} {
      forall c | c in cases && RulesOn(lib, candidate, c) && RulesOn(lib, reference, c)
        ensures Agree(RulingOn(lib, candidate, c), RulingOn(lib, reference, c))
      {
        var i :| 0 <= i < |cases| && cases[i] == c;
        assert i !in At(rs, FlipMark);
      }
    } else {
      var i :| i in At(rs, FlipMark);
      assert cases[i] in cases;
    }
  }

  /** Main result: nothing failed and nothing errored exactly when every case is ruled on as expected. */
  lemma CleanExactly(lib: Lib, candidate: Bundle, reference: Option<Bundle>, cases: seq<GoldenCase>)
    ensures var s := SummaryOf(CaseResults(lib, candidate, reference, cases));
            s.goldenFailed == 0 && s.errors == 0 <==>
              forall c :: c in cases ==> RulesOn(lib, candidate, c)
                                         && AsExpected(RulingOn(lib, candidate, c), c.expected)
  {
    hide RulesOn, Agree, RulingOn, AsExpected;
    RunIsAccounted(lib, candidate, reference, cases);
    var rs := CaseResults(lib, candidate, reference, cases);
    if At(rs, FailMark) == {} && At(rs, ErrorMark) == {} {
      forall c | c in cases ensures RulesOn(lib, candidate, c) && AsExpected(RulingOn(lib, candidate, c), c.expected) {
        var i :| 0 <= i < |cases| && cases[i] == c;
        assert i !in At(rs, FailMark) && i !in At(rs, ErrorMark);
      }
    } else {
      var i :| i in At(rs, FailMark) || i in At(rs, ErrorMark);
      assert cases[i] in cases;
    }
  }

  // ------------------------------------------------------------------ the case set

  predicate SameCase(c: GoldenCase, d: GoldenCase) {
    && c.caseId == d.caseId && c.companyId == d.companyId && c.workflow == d.workflow && SameFacts(c.facts, d.facts)
    && c.expected.kind == d.expected.kind && c.expected.action == d.expected.action
    && c.expected.escalationReason == d.expected.escalationReason
    && c.provenance == d.provenance && c.synthetic == d.synthetic && c.notes == d.notes
  }

  predicate CaseCounterparts(cs: seq<GoldenCase>, ds: seq<GoldenCase>) {
    forall c :: c in cs ==> exists d :: d in ds && SameCase(c, d)
  }

  lemma NormalCaseExactly(c: GoldenCase, d: GoldenCase)
    ensures NormalCase(c) == NormalCase(d) <==> SameCase(c, d)
  {
    hide NormalFacts, SameFacts;
    NormalFactsExactly(c.facts, d.facts);
  }

  ghost predicate Within(xs: seq<GoldenCase>, ys: seq<GoldenCase>) {
    forall x :: x in xs ==> x in ys
  }

  lemma CounterpartsSort(cs: seq<GoldenCase>, ds: seq<GoldenCase>)
    requires CaseCounterparts(cs, ds)
    ensures Within(SortedCases(cs), SortedCases(ds))
  {
    hide NormalCase, SameCase;
    forall x | x in SortedCases(cs) ensures x in SortedCases(ds) {
      var c :| c in cs && x == NormalCase(c);
      var d :| d in ds && SameCase(c, d);
      NormalCaseExactly(c, d);
    }
  }

  lemma SortedCounterparts(cs: seq<GoldenCase>, ds: seq<GoldenCase>)
    requires Within(SortedCases(cs), SortedCases(ds))
    ensures CaseCounterparts(cs, ds)
  {
    hide NormalCase, SameCase;
    forall c | c in cs ensures exists d :: d in ds && SameCase(c, d) {
      assert NormalCase(c) in SortedCases(cs);
      var d :| d in ds && NormalCase(c) == NormalCase(d);
      NormalCaseExactly(c, d);
    }
  }

  /** Main result: the case-set hash pins the cases, all their fields up to the spelling of integral
      numbers, and nothing of their order. */
  lemma SameCaseSetExactly(digest: CaseDigest, cs: seq<GoldenCase>, ds: seq<GoldenCase>)
    requires (forall x, y :: digest(x) == digest(y) ==> x == y) && DistinctCases(cs) && DistinctCases(ds)
    ensures CaseSetHash(digest, cs) == CaseSetHash(digest, ds)
            <==> |cs| == |ds| && CaseCounterparts(cs, ds) && CaseCounterparts(ds, cs)
    ensures |CaseSetHash(digest, cs)| >= 7 && CaseSetHash(digest, cs)[..7] == "sha256:"
  {
    hide CaseCounterparts, DistinctCases;
    if CaseSetHash(digest, cs) == CaseSetHash(digest, ds) {
      assert CaseSetHash(digest, cs)[7..] == digest(SortedCases(cs));
      assert CaseSetHash(digest, ds)[7..] == digest(SortedCases(ds));
      assert |cs| == |SortedCases(cs)| == |ds|;
      SortedCounterparts(cs, ds);
      SortedCounterparts(ds, cs);
    }
    if |cs| == |ds| && CaseCounterparts(cs, ds) && CaseCounterparts(ds, cs) {
      CounterpartsSort(cs, ds);
      CounterpartsSort(ds, cs);
      SortedCasesAscend(cs);
      SortedCasesAscend(ds);
      AscendingCasesUnique(SortedCases(cs), SortedCases(ds));
    }
  }
}
