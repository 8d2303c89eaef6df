/** Replay runs (backend/replay/engine.py): scoring a case list against a candidate bundle,
    and the store whose acknowledged runs gate every publish. */
module Replay {
  import opened Options
  import opened Text
  import opened Schema
  import opened Judgement
  import opened Evaluator
  import opened Likeness
  import opened Canonical
  import opened BundleDiffs

  datatype Expected = Expected(kind: string, action: Option<string>, escalationReason: Option<string>)
  datatype GoldenCase = GoldenCase(caseId: string, companyId: string, workflow: string,
                                   facts: map<string, Json>, expected: Expected,
                                   provenance: string, synthetic: bool, notes: string)

  datatype CaseResult = CaseResult(caseId: string, workflow: string,
                                   candidate: Option<Outcome>, reference: Option<Outcome>,
                                   goldenPass: Option<bool>, flipped: Option<bool>, error: bool)

  datatype ReplaySummary = ReplaySummary(total: nat, goldenPassed: nat, goldenFailed: nat,
                                         flips: nat, newEscalations: nat, errors: nat)

  datatype ReplayRun = ReplayRun(runId: string, companyId: string, candidateHash: string,
                                 referenceHash: Option<string>, caseSetHash: string, createdAt: int,
                                 summary: ReplaySummary, results: seq<CaseResult>,
                                 acknowledgedBy: Option<string>)

  function KindName(k: OutcomeKind): string {
    match k
    case Approve => "approve"
    case Deny => "deny"
    case Route => "route"
    case Escalate => "escalate"
  }

  function ReasonName(r: EscalationReason): string {
    match r
    case MissingFacts => "missing_facts"
    case NoMatchingPolicy => "no_matching_policy"
    case Conflict => "conflict"
  }

  // ------------------------------------------------------------------ the case set

  function NormalCase(c: GoldenCase): GoldenCase {
    c.(facts := NormalFacts(c.facts))
  }

  /** `sorted(..., key=lambda c: c["case_id"])`, stable, by insertion. */
  function InsertCase(c: GoldenCase, cs: seq<GoldenCase>): (r: seq<GoldenCase>)
    ensures |r| == |cs| + 1 && forall d :: d in r <==> d == c || d in cs
  {
    if cs == [] || !Less(cs[0].caseId, c.caseId) then [c] + cs
    else
      assert cs == [cs[0]] + cs[1..];
      [cs[0]] + InsertCase(c, cs[1..])
  }

  function SortedCases(cs: seq<GoldenCase>): (r: seq<GoldenCase>)
    ensures |r| == |cs| && forall d :: d in r <==> exists c :: c in cs && d == NormalCase(c)
  {
    if cs == [] then []
    else
      assert cs == [cs[0]] + cs[1..];
      InsertCase(NormalCase(cs[0]), SortedCases(cs[1..]))
  }

  type CaseDigest = seq<GoldenCase> -> string

  /** `case_set_hash` */
  function CaseSetHash(digest: CaseDigest, cases: seq<GoldenCase>): string {
    "sha256:" + digest(SortedCases(cases))
  }

  ghost predicate CasesAscend(cs: seq<GoldenCase>) {
    forall i, j :: 0 <= i < j < |cs| ==> Less(cs[i].caseId, cs[j].caseId)
  }

  ghost predicate DistinctCases(cs: seq<GoldenCase>) {
    forall i, j :: 0 <= i < j < |cs| ==> cs[i].caseId != cs[j].caseId
  }

  lemma {:induction false} InsertCaseAscends(c: GoldenCase, cs: seq<GoldenCase>)
    requires CasesAscend(cs) && forall d :: d in cs ==> d.caseId != c.caseId
    ensures CasesAscend(InsertCase(c, cs))
  {
    if cs != [] {
      LessTotal(cs[0].caseId, c.caseId);
      if Less(cs[0].caseId, c.caseId) {
        InsertCaseAscends(c, cs[1..]);
        var rest := InsertCase(c, cs[1..]);
        forall k | 0 <= k < |rest| ensures Less(cs[0].caseId, rest[k].caseId) {
          assert rest[k] == c || rest[k] in cs[1..];
        }
      } else {
        forall k | 0 < k < |cs| ensures Less(c.caseId, cs[k].caseId) {
          LessTransitive(c.caseId, cs[0].caseId, cs[k].caseId);
        }
      }
    }
  }

  lemma {:induction false} SortedCasesAscend(cs: seq<GoldenCase>)
    requires DistinctCases(cs)
    ensures CasesAscend(SortedCases(cs))
  {
    if cs != [] {
      SortedCasesAscend(cs[1..]);
      forall d | d in SortedCases(cs[1..]) ensures d.caseId != cs[0].caseId {
        var c :| c in cs[1..] && d == NormalCase(c);
        var k :| 0 <= k < |cs[1..]| && cs[1..][k] == c;
        assert cs[k + 1] == c;
      }
      InsertCaseAscends(NormalCase(cs[0]), SortedCases(cs[1..]));
    }
  }

  lemma {:induction false} AscendingCasesUnique(xs: seq<GoldenCase>, ys: seq<GoldenCase>)
    requires CasesAscend(xs) && CasesAscend(ys) && |xs| == |ys| && forall c :: c in xs <==> c in ys
    ensures xs == ys
  {
    if xs != [] {
      assert xs[0] in ys && ys[0] in xs;
      var i :| 0 <= i < |ys| && ys[i] == xs[0];
      var j :| 0 <= j < |xs| && xs[j] == ys[0];
      if i > 0 {
        assert j > 0 ==> Less(xs[0].caseId, ys[0].caseId);
        if j > 0 { LessTransitive(xs[0].caseId, ys[0].caseId, xs[0].caseId); }
        LessIrreflexive(xs[0].caseId);
      }
      LessIrreflexive(xs[0].caseId);
      forall c ensures c in xs[1..] <==> c in ys[1..] {
        assert c in xs <==> c == xs[0] || c in xs[1..];
        assert c in ys <==> c == ys[0] || c in ys[1..];
      }
      AscendingCasesUnique(xs[1..], ys[1..]);
    }
  }

  /** The case set hash does not depend on the order of the cases. */
  lemma CaseSetHashIgnoresOrder(digest: CaseDigest, cs: seq<GoldenCase>, ds: seq<GoldenCase>)
    requires DistinctCases(cs) && DistinctCases(ds) && |cs| == |ds| && forall c :: c in cs <==> c in ds
    ensures CaseSetHash(digest, cs) == CaseSetHash(digest, ds)
  {
    SortedCasesAscend(cs);
    SortedCasesAscend(ds);
    AscendingCasesUnique(SortedCases(cs), SortedCases(ds));
  }

  // ------------------------------------------------------------------ one case

  /** The OverflowError that `_outcome_of` does not catch. */
  ghost predicate CaseOverflows(lib: Lib, b: Bundle, c: GoldenCase) {
    Evaluate(lib, c.facts, b, c.workflow).Overflow?
  }

  /** The round of this case raises: the candidate overflows, or the reference it is compared with. */
  ghost predicate CaseAborts(lib: Lib, candidate: Bundle, reference: Option<Bundle>, c: GoldenCase) {
    CaseOverflows(lib, candidate, c) ||
    (reference.Some? && OutcomeOfCase(lib, candidate, c).Some? && CaseOverflows(lib, reference.value, c))
  }

  ghost predicate ReplayAborts(lib: Lib, candidate: Bundle, reference: Option<Bundle>, cases: seq<GoldenCase>) {
    exists c :: c in cases && CaseAborts(lib, candidate, reference, c)
  }

  /** `_outcome_of`: None is a request error. */
  ghost function OutcomeOfCase(lib: Lib, b: Bundle, c: GoldenCase): Option<Outcome> {
    match Evaluate(lib, c.facts, b, c.workflow)
    case Ruling(o, _) => Some(o)
    case _ => None
  }

  predicate GoldenPass(o: Outcome, e: Expected) {
    && KindName(o.kind) == e.kind
    && (e.action == None || o.action == e.action)
    && (e.escalationReason == None || (o.reason.Some? && ReasonName(o.reason.value) == e.escalationReason.value))
  }

  predicate Flips(candidate: Outcome, reference: Outcome) {
    candidate.kind != reference.kind || candidate.action != reference.action
  }

  /** The result of one case. A reference that errors counts as no reference. */
  ghost function CaseResultOf(lib: Lib, candidate: Bundle, reference: Option<Bundle>, c: GoldenCase): CaseResult {
    var o := OutcomeOfCase(lib, candidate, c);
    if o.None? then CaseResult(c.caseId, c.workflow, None, None, None, None, true)
    else
      var r := if reference.Some? then OutcomeOfCase(lib, reference.value, c) else None;
      CaseResult(c.caseId, c.workflow, o, r, Some(GoldenPass(o.value, c.expected)),
                 if r.Some? then Some(Flips(o.value, r.value)) else None, false)
  }

  ghost function CaseResults(lib: Lib, candidate: Bundle, reference: Option<Bundle>,
                             cases: seq<GoldenCase>): seq<CaseResult> {
    if cases == [] then []
    else CaseResults(lib, candidate, reference, cases[..|cases| - 1]) +
         [CaseResultOf(lib, candidate, reference, cases[|cases| - 1])]
  }

  lemma CaseResultsStep(lib: Lib, candidate: Bundle, reference: Option<Bundle>, cases: seq<GoldenCase>, i: nat)
    requires i < |cases|
    ensures CaseResults(lib, candidate, reference, cases[..i + 1]) ==
            CaseResults(lib, candidate, reference, cases[..i]) + [CaseResultOf(lib, candidate, reference, cases[i])]
  {
    assert cases[..i + 1][..i] == cases[..i];
  }

  lemma AbortsStep(lib: Lib, candidate: Bundle, reference: Option<Bundle>, cases: seq<GoldenCase>, i: nat)
    requires i < |cases|
    ensures ReplayAborts(lib, candidate, reference, cases[..i + 1]) <==>
            ReplayAborts(lib, candidate, reference, cases[..i]) || CaseAborts(lib, candidate, reference, cases[i])
    ensures ReplayAborts(lib, candidate, reference, cases[..i + 1]) ==> ReplayAborts(lib, candidate, reference, cases)
  {
    hide CaseAborts;
    assert cases[..i + 1] == cases[..i] + [cases[i]];
  }

  /** Results line up one to one with the cases. */
  lemma {:induction false} ResultsAlign(lib: Lib, candidate: Bundle, reference: Option<Bundle>, cases: seq<GoldenCase>,
          i: nat)
    requires i < |cases|
    ensures |CaseResults(lib, candidate, reference, cases)| == |cases|
    ensures CaseResults(lib, candidate, reference, cases)[i].caseId == cases[i].caseId
    ensures CaseResults(lib, candidate, reference, cases)[i].workflow == cases[i].workflow
  {
    hide OutcomeOfCase;
    var front := cases[..|cases| - 1];
    if i < |front| {
      ResultsAlign(lib, candidate, reference, front, i);
    } else if front != [] {
      ResultsAlign(lib, candidate, reference, front, 0);
    }
  }

  // ------------------------------------------------------------------ what the counters count

  predicate Passed(r: CaseResult) { r.goldenPass == Some(true) }
  predicate FailedGolden(r: CaseResult) { r.goldenPass == Some(false) }
  predicate Flipped(r: CaseResult) { r.flipped == Some(true) }
  predicate Errored(r: CaseResult) { r.error }
  predicate NewlyEscalated(r: CaseResult) {
    Flipped(r) && r.candidate.Some? && r.candidate.value.kind == Escalate
    && r.reference.Some? && r.reference.value.kind != Escalate
  }

  datatype Flag = PassedFlag | FailedFlag | FlippedFlag | EscalatedFlag | ErroredFlag

  predicate Carries(r: CaseResult, flag: Flag) {
    match flag
    case PassedFlag => Passed(r)
    case FailedFlag => FailedGolden(r)
    case FlippedFlag => Flipped(r)
    case EscalatedFlag => NewlyEscalated(r)
    case ErroredFlag => Errored(r)
  }

  /** How many results carry the flag. */
  function Count(rs: seq<CaseResult>, flag: Flag): nat {
    if rs == [] then 0 else Count(rs[..|rs| - 1], flag) + One(Carries(rs[|rs| - 1], flag))
  }

  function One(b: bool): nat { if b then 1 else 0 }

  /** What one result adds to the six accumulators. */
  function GainOf(r: CaseResult): ReplaySummary {
    ReplaySummary(1, One(Passed(r)), One(FailedGolden(r)), One(Flipped(r)), One(NewlyEscalated(r)), One(Errored(r)))
  }

  function Plus(a: ReplaySummary, b: ReplaySummary): ReplaySummary {
    ReplaySummary(a.total + b.total, a.goldenPassed + b.goldenPassed, a.goldenFailed + b.goldenFailed,
                  a.flips + b.flips, a.newEscalations + b.newEscalations, a.errors + b.errors)
  }

  function SummaryOf(rs: seq<CaseResult>): ReplaySummary {
    if rs == [] then ReplaySummary(0, 0, 0, 0, 0, 0)
    else Plus(SummaryOf(rs[..|rs| - 1]), GainOf(rs[|rs| - 1]))
  }

  lemma SummaryAppend(rs: seq<CaseResult>, r: CaseResult)
    ensures SummaryOf(rs + [r]) == Plus(SummaryOf(rs), GainOf(r))
  {
    assert (rs + [r])[..|rs|] == rs;
  }

  function Counter(s: ReplaySummary, flag: Flag): nat {
    match flag
    case PassedFlag => s.goldenPassed
    case FailedFlag => s.goldenFailed
    case FlippedFlag => s.flips
    case EscalatedFlag => s.newEscalations
    case ErroredFlag => s.errors
  }

  /** Each counter is the number of results that carry its flag. */
  lemma {:induction false} CountersCount(rs: seq<CaseResult>, flag: Flag)
    ensures SummaryOf(rs).total == |rs| && Counter(SummaryOf(rs), flag) == Count(rs, flag)
  {
    if rs != [] { CountersCount(rs[..|rs| - 1], flag); }
  }

  lemma ResultGains(lib: Lib, candidate: Bundle, reference: Option<Bundle>, c: GoldenCase)
    ensures var g := GainOf(CaseResultOf(lib, candidate, reference, c));
            g.total == 1 == g.goldenPassed + g.goldenFailed + g.errors && g.newEscalations <= g.flips <= 1 - g.errors
  {
    hide OutcomeOfCase;
  }

  /** The counters add up: every case passed, failed or errored, and a new escalation is a flip. */
  lemma {:induction false} CountersAddUp(lib: Lib, candidate: Bundle, reference: Option<Bundle>, cases: seq<GoldenCase>)
    ensures var s := SummaryOf(CaseResults(lib, candidate, reference, cases));
            && s.total == |cases| == s.goldenPassed + s.goldenFailed + s.errors
            && s.newEscalations <= s.flips <= s.total - s.errors
  {
    if cases != [] {
      var front, last := cases[..|cases| - 1], cases[|cases| - 1];
      CountersAddUp(lib, candidate, reference, front);
      assert CaseResults(lib, candidate, reference, cases) ==
             CaseResults(lib, candidate, reference, front) + [CaseResultOf(lib, candidate, reference, last)];
      hide CaseResultOf, CaseResults, SummaryOf, GainOf;
      ResultGains(lib, candidate, reference, last);
      SummaryAppend(CaseResults(lib, candidate, reference, front), CaseResultOf(lib, candidate, reference, last));
    }
  }

  lemma SameViewNoFlip(lib: Lib, candidate: Bundle, reference: Bundle, c: GoldenCase)
    requires ViewOf(Evaluate(lib, c.facts, candidate, c.workflow))
             == ViewOf(Evaluate(lib, c.facts, reference, c.workflow))
    ensures !Flipped(CaseResultOf(lib, candidate, Some(reference), c))
  {
  }

  lemma {:induction false} NoFlips(lib: Lib, candidate: Bundle, reference: Bundle, cases: seq<GoldenCase>)
    requires forall c :: c in cases ==> !Flipped(CaseResultOf(lib, candidate, Some(reference), c))
    ensures SummaryOf(CaseResults(lib, candidate, Some(reference), cases)).flips == 0
  {
    if cases != [] {
      var front, last := cases[..|cases| - 1], cases[|cases| - 1];
      assert last in cases && forall c :: c in front ==> c in cases;
      NoFlips(lib, candidate, reference, front);
      SummaryAppend(CaseResults(lib, candidate, Some(reference), front),
          CaseResultOf(lib, candidate, Some(reference), last));
    }
  }

  /** Replaying a bundle against one with the same content hash reports no flips. */
  lemma SameContentNoFlips(digest: Content -> string, lib: Lib, candidate: Bundle, reference: Bundle,
                           cases: seq<GoldenCase>)
    requires CollisionFree(digest) && Settled(lib, candidate) && Settled(lib, reference)
             && StringsPrintOneWay(lib, candidate)
    requires ContentHash(digest, candidate) == ContentHash(digest, reference)
    ensures SummaryOf(CaseResults(lib, candidate, Some(reference), cases)).flips == 0
  {
    forall c | c in cases ensures !Flipped(CaseResultOf(lib, candidate, Some(reference), c)) {
      HashDeterminesDecision(digest, lib, candidate, reference, c.facts, c.workflow);
      SameViewNoFlip(lib, candidate, reference, c);
    }
    NoFlips(lib, candidate, reference, cases);
  }

  /** Replay flags no flip in a workflow the diff touches only cosmetically. */
  lemma CosmeticDiffNoFlips(digest: Content -> string, lib: Lib, candidate: Bundle, reference: Bundle,
                            cases: seq<GoldenCase>)
    requires Settled(lib, candidate) && Settled(lib, reference)
    requires forall c :: c in cases ==>
               && PairsPrintAlike(lib, reference, candidate, c.workflow)
               && WorkflowNamed(reference.workflows, c.workflow) == WorkflowNamed(candidate.workflows, c.workflow)
               && CosmeticIn(DiffBundles(digest, Some(reference), candidate), c.workflow)
    ensures SummaryOf(CaseResults(lib, candidate, Some(reference), cases)).flips == 0
  {
    forall c | c in cases ensures !Flipped(CaseResultOf(lib, candidate, Some(reference), c)) {
      CosmeticDiffKeepsDecisions(digest, lib, reference, candidate, c.workflow, c.facts);
      SameViewNoFlip(lib, candidate, reference, c);
    }
    NoFlips(lib, candidate, reference, cases);
  }

  // ------------------------------------------------------------------ the engine

  method EvaluateCase(lib: Lib, b: Bundle, c: GoldenCase) returns (overflow: bool, o: Option<Outcome>)
    requires ValidBundle(b)
    ensures overflow <==> CaseOverflows(lib, b, c)
    ensures o == OutcomeOfCase(lib, b, c)
  {
    hide ValidBundle, Evaluate;
    var r := EvaluateFacts(lib, c.facts, b, c.workflow);
    overflow := r.Overflow?;
    o := if r.Ruling? then Some(r.outcome) else None;
  }

  /** One round of the loop of `run`: the result and what the accumulators gain, or an OverflowError. */
  method ScoreCase(lib: Lib, candidate: Bundle, reference: Option<Bundle>, c: GoldenCase)
    returns (ok: bool, result: CaseResult, gain: ReplaySummary)
    requires ValidBundle(candidate) && (reference.Some? ==> ValidBundle(reference.value))
    ensures ok <==> !CaseAborts(lib, candidate, reference, c)
    ensures ok ==> result == CaseResultOf(lib, candidate, reference, c) && gain == GainOf(result)
  {
    hide OutcomeOfCase, CaseOverflows, ValidBundle;
    result, gain := CaseResult(c.caseId, c.workflow, None, None, None, None, true), ReplaySummary(1, 0, 0, 0, 0, 1);
    var passed, failed, flips, newEscalations, errors := 0, 0, 0, 0, 0;
    var overflow, o := EvaluateCase(lib, candidate, c);
    if overflow { return false, result, gain; }
    var r: Option<Outcome> := None;
    if reference.Some? && o.Some? {
      overflow, r := EvaluateCase(lib, reference.value, c);
      if overflow { return false, result, gain; }
    }
    if o.None? {
      errors := 1;
    } else {
      var pass := GoldenPass(o.value, c.expected);
      if pass { passed := 1; } else { failed := 1; }
      var flipped: Option<bool> := None;
      if r.Some? {
        flipped := Some(Flips(o.value, r.value));
        if Flips(o.value, r.value) {
          flips := 1;
          if o.value.kind == Escalate && r.value.kind != Escalate { newEscalations := 1; }
        }
      }
      result := CaseResult(c.caseId, c.workflow, o, r, Some(pass), flipped, false);
    }
    ok, gain := true, ReplaySummary(1, passed, failed, flips, newEscalations, errors);
  }

  /** The loop of `run`; its accumulators are kept in one summary. An overflowing case ends it. */
  method Score(lib: Lib, candidate: Bundle, reference: Option<Bundle>, cases: seq<GoldenCase>)
    returns (ok: bool, results: seq<CaseResult>, summary: ReplaySummary)
    requires ValidBundle(candidate) && (reference.Some? ==> ValidBundle(reference.value))
    ensures ok <==> !ReplayAborts(lib, candidate, reference, cases)
    ensures ok ==> results == CaseResults(lib, candidate, reference, cases) && summary == SummaryOf(results)
  {
    results, summary := [], ReplaySummary(0, 0, 0, 0, 0, 0);
    assert CaseResults(lib, candidate, reference, cases[..0]) == [] && SummaryOf([]) == summary;
    hide ReplayAborts, CaseAborts, CaseResults, CaseResultOf, SummaryOf, ValidBundle, Evaluate, Plus;
    ok := true;
    for i := 0 to |cases|
      invariant ok && !ReplayAborts(lib, candidate, reference, cases[..i])
      invariant results == CaseResults(lib, candidate, reference, cases[..i])
      invariant summary == SummaryOf(results)
    {
      var result, gain;
      ok, result, gain := ScoreCase(lib, candidate, reference, cases[i]);
      AbortsStep(lib, candidate, reference, cases, i);
      if !ok { return; }
      CaseResultsStep(lib, candidate, reference, cases, i);
      SummaryAppend(results, result);
      results, summary := results + [result], Plus(summary, gain);
    }
    assert cases[..|cases|] == cases;
  }

  /** The run is what replaying the candidate on these cases gives. */
  ghost predicate Records(digest: Content -> string, caseDigest: CaseDigest, lib: Lib, cases: seq<GoldenCase>,
                          candidate: Bundle, reference: Option<Bundle>, run: ReplayRun) {
    && run.candidateHash == ContentHash(digest, candidate)
    && run.referenceHash == (if reference.Some? then Some(ContentHash(digest, reference.value)) else None)
    && run.caseSetHash == CaseSetHash(caseDigest, cases)
    && run.results == CaseResults(lib, candidate, reference, cases) && run.summary == SummaryOf(run.results)
  }

  type Runs = map<(string, string), ReplayRun>

  /** An acknowledged run of the company for exactly this content hash. */
  predicate Gates(runs: Runs, company: string, runId: string, hash: string) {
    (company, runId) in runs && runs[(company, runId)].companyId == company && runs[(company, runId)].runId == runId &&
    runs[(company, runId)].candidateHash == hash && runs[(company, runId)].acknowledgedBy.Some?
  }

  /** The company's run of exactly this content, with a name under its acknowledgement. */
  predicate AcknowledgedFor(run: ReplayRun, company: string, hash: string) {
    run.companyId == company && run.candidateHash == hash && run.acknowledgedBy != None
  }

  predicate KeyedRuns(runs: Runs) {
    forall k :: k in runs ==> runs[k].companyId == k.0 && runs[k].runId == k.1
  }

  class ReplayRunStore {
    var rows: Runs

    constructor ()
      ensures rows == map[]
    {
      rows := map[];
    }

    /** `latest_acknowledged_for`: a matching run no matching run is newer than. */
    method LatestAcknowledgedFor(company: string, hash: string) returns (r: Option<ReplayRun>)
      requires KeyedRuns(rows)
      ensures r.Some? ==> Gates(rows, company, r.value.runId, hash) && rows[(company, r.value.runId)] == r.value
      ensures r.Some? ==> forall id :: Gates(rows, company, id, hash)
                                       ==> rows[(company, id)].createdAt <= r.value.createdAt
      ensures r.None? ==> forall id :: !Gates(rows, company, id, hash)
      ensures r.Some? ==> AcknowledgedFor(r.value, company, hash) && exists k :: k in rows && rows[k] == r.value
      ensures forall k :: k in rows && AcknowledgedFor(rows[k], company, hash)
                          ==> r.Some? && rows[k].createdAt <= r.value.createdAt
    {
      r := None;
      var todo := rows.Keys;
      while todo != {}
        invariant todo <= rows.Keys
        invariant r.Some? ==> Gates(rows, company, r.value.runId, hash) && rows[(company, r.value.runId)] == r.value
        invariant forall id :: (company, id) !in todo && Gates(rows, company, id, hash) ==>
                    r.Some? && rows[(company, id)].createdAt <= r.value.createdAt
        decreases todo
      {
        var k :| k in todo;
        todo := todo - {k};
        var run := rows[k];
        if k.0 == company && run.candidateHash == hash && run.acknowledgedBy.Some? {
          if r.None? || run.createdAt > r.value.createdAt { r := Some(run); }
        }
      }
    }
  }

  class ReplayEngine {
    const runs: ReplayRunStore

    constructor (store: ReplayRunStore)
      ensures runs == store
    {
      runs := store;
    }

    /** `run`: one new unacknowledged row that records the replay, or OverflowError and no row. */
    method Run(digest: Content -> string, caseDigest: CaseDigest, lib: Lib, company: string, cases: seq<GoldenCase>,
               candidate: Bundle, reference: Option<Bundle>, freshId: string, now: int) returns (run: Option<ReplayRun>)
      requires ValidBundle(candidate) && (reference.Some? ==> ValidBundle(reference.value))
      requires (company, freshId) !in runs.rows
      modifies runs
      ensures run.None? <==> ReplayAborts(lib, candidate, reference, cases)
      ensures run.None? ==> runs.rows == old(runs.rows)
      ensures run.Some? ==> runs.rows == old(runs.rows)[(company, freshId) := run.value]
      ensures run.Some? ==> run.value.runId == freshId && run.value.companyId == company && run.value.createdAt == now
      ensures run.Some? ==> run.value.acknowledgedBy == None
      ensures run.Some? ==> Records(digest, caseDigest, lib, cases, candidate, reference, run.value)
      ensures run.Some? ==>
                && run.value.candidateHash == ContentHash(digest, candidate)
                && run.value.referenceHash == (if reference.None? then None
                                               else Some(ContentHash(digest, reference.value)))
                && run.value.caseSetHash == CaseSetHash(caseDigest, cases)
                && run.value.results == CaseResults(lib, candidate, reference, cases)
                && run.value.summary == SummaryOf(run.value.results)
    {
      var ok, results, summary := Score(lib, candidate, reference, cases);
      if !ok { return None; }
      var row := ReplayRun(freshId, company, ContentHash(digest, candidate),
                           if reference.Some? then Some(ContentHash(digest, reference.value)) else None,
                           CaseSetHash(caseDigest, cases), now, summary, results, None);
      runs.rows := runs.rows[(company, freshId) := row];
      run := Some(row);
    }

    /** `acknowledge`; None is KeyError. */
    method Acknowledge(company: string, runId: string, who: string) returns (run: Option<ReplayRun>)
      requires KeyedRuns(runs.rows)
      modifies runs
      ensures run.None? <==> (company, runId) !in old(runs.rows)
      ensures run.None? ==> runs.rows == old(runs.rows)
      ensures run.Some? ==> run.value == old(runs.rows)[(company, runId)].(acknowledgedBy := Some(who))
      ensures run.Some? ==> runs.rows == old(runs.rows)[(company, runId) := run.value]
    {
      if (company, runId) !in runs.rows { return None; }
      var acknowledged := runs.rows[(company, runId)].(acknowledgedBy := Some(who));
      runs.rows := runs.rows[(company, runId) := acknowledged];
      run := Some(acknowledged);
    }
  }
}
