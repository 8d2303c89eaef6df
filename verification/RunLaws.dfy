/** What holds in every state of every run of the governed system, told outright: on the records, events and cases
    themselves. */
module RunLaws {
  import opened Options
  import opened Schema
  import opened Canonical
  import opened Replay
  import opened Lifecycle
  import opened LedgerEvents
  import opened ChainLaws
  import opened LedgerStores
  import opened LedgerProtocol
  import opened Escalations
  import opened Governance

  /** One company's stream: verified and linked, with keys and ids of its own for each event. */
  ghost predicate StreamOutright(digest: Digest, company: string, s: seq<Event>) {
    && (forall i :: 0 <= i < |s| ==> s[i].body.entry.companyId == company && LinkedAt(digest, s, i))
    && (forall i, j :: 0 <= i < j < |s| ==>
          s[i].body.entry.key != s[j].body.entry.key && s[i].body.id != s[j].body.id)
  }

  /** A record: filed under its key, addressing its accepted bundle, and once published behind an acknowledged
      run of exactly its content. */
  ghost predicate RecordOutright(env: Env, runs: Runs, k: (string, string), r: BundleRecord) {
    && r.companyId == k.0 && r.recordId == k.1
    && r.contentHash == ContentHash(env.content, r.bundle) && ValidBundle(r.bundle)
    && (r.status == Draft <==> r.publishedAt == None)
    && (r.publishedAt != None ==>
          r.replayRunId.Some? && (k.0, r.replayRunId.value) in runs
          && AcknowledgedFor(runs[(k.0, r.replayRunId.value)], k.0, r.contentHash))
  }

  ghost predicate RecordsApart(rows: Rows) {
    forall j, k :: j in rows && k in rows && j.0 == k.0
                   && (rows[j].status == rows[k].status == Published || rows[j].contentHash == rows[k].contentHash)
                   ==> j == k
  }

  /** A case: about a decision in the ledger, telling what its outcome says, and once resolved naming an event in
      the ledger under the case's own key. */
  ghost predicate CaseOutright(l: Ledger, k: (string, string), esc: Escalation) {
    && esc.companyId == k.0 && esc.escalationId == k.1 && (esc.status == Resolved <==> esc.resolution != None)
    && (exists e :: e in StreamOf(l, k.0) && e.body.id == esc.decisionEventId && e.body.entry.eventType == DecisionType
                    && ToldTo(e.body.entry.outcome, esc.reason, esc.detail))
    && (esc.status == Resolved ==>
          exists e :: e in StreamOf(l, k.0) && e.body.entry.key == "adjudication:" + k.1
                      && e.body.id == esc.resolution.value.adjudicationEventId)
  }

  ghost predicate CasesApart(rows: map<(string, string), Escalation>) {
    forall j, k :: j in rows && k in rows && j.0 == k.0 && rows[j].decisionEventId == rows[k].decisionEventId ==> j == k
  }

  ghost predicate Outright(env: Env, s: State) {
    && (forall company :: StreamOutright(env.digest, company, StreamOf(s.system.ledger, company)))
    && (forall k :: k in s.registry.rows ==> RecordOutright(env, s.runs, k, s.registry.rows[k]))
    && RecordsApart(s.registry.rows)
    && (forall k :: k in s.desk.rows ==> CaseOutright(s.system.ledger, k, s.desk.rows[k]))
    && CasesApart(s.desk.rows)
  }

  // ------------------------------------------------------------------ from the invariant

  lemma StreamsOutright(digest: Digest, l: Ledger, company: string)
    requires LedgerOk(digest, l)
    ensures StreamOutright(digest, company, StreamOf(l, company))
  {
    hide LinkedAt, ChainOk;
    var s := StreamOf(l, company);
    ChainIsLinked(digest, s);
    assert ChainOk(digest, s) && KeysDistinct(s);
    forall i | 0 <= i < |s| ensures s[i].body.entry.companyId == company && Filed(l, company, s[i]) {
      assert s[i] in s;
    }
    forall i, j | 0 <= i < j < |s| ensures s[i].body.entry.key != s[j].body.entry.key && s[i].body.id != s[j].body.id {
      assert KeyOf(s[i]) != KeyOf(s[j]);
      assert l.byId[IdOf(s[i])] == s[i] && l.byId[IdOf(s[j])] == s[j];
    }
  }

  lemma RecordIsOutright(env: Env, s: State, k: (string, string))
    requires RegistryOk(env.content, s.runs, s.registry) && BundlesValid(s.registry.rows) && k in s.registry.rows
    ensures RecordOutright(env, s.runs, k, s.registry.rows[k])
  {
    hide ContentHash, ValidBundle, HashesDistinct, ActiveIsPublished;
    assert GoodRecord(env.content, s.runs, k, s.registry.rows[k]);
  }

  lemma RecordsAreApart(env: Env, s: State)
    requires RegistryOk(env.content, s.runs, s.registry)
    ensures RecordsApart(s.registry.rows)
  {
    hide GoodRecords;
    var rows := s.registry.rows;
    forall j, k | j in rows && k in rows && j.0 == k.0
                  && (rows[j].status == rows[k].status == Published || rows[j].contentHash == rows[k].contentHash)
      ensures j == k
    {
      assert (k.0, j.1) == j && (k.0, k.1) == k;
    }
  }

  lemma CaseIsOutright(l: Ledger, d: Desk, k: (string, string))
    requires DeskOk(d) && RowsGrounded(l, d) && k in d.rows
    ensures CaseOutright(l, k, d.rows[k])
  {
    hide ReasonFor, ToldTo;
    var esc := d.rows[k];
    assert RowOk(d, k, esc) && Grounded(l, esc);
    var e :| e in StreamOf(l, esc.companyId) && DecisionOf(esc, e);
    ToldExactly(e.body.entry.outcome, esc.reason, esc.detail);
    if esc.status == Resolved {
      var f := ResolvedAt(l, d, k);
      assert f in StreamOf(l, k.0) && f.body.entry.key == "adjudication:" + k.1;
    }
  }

  lemma CasesAreApart(d: Desk)
    requires DeskOk(d)
    ensures CasesApart(d.rows)
  {
    hide DeskOk;
    forall j, k | j in d.rows && k in d.rows && j.0 == k.0 && d.rows[j].decisionEventId == d.rows[k].decisionEventId
      ensures j == k
    {
      assert (k.0, j.1) == j && (k.0, k.1) == k;
      OneEscalationPerDecision(d, k.0, j.1, k.1);
    }
  }

  /** Main result: in every state of every run, each stream is a verified chain of events with their own keys and
      ids, each record stands behind its replay, and each case is about a recorded decision. */
  lemma EveryRunOutright(env: Env, states: seq<State>, acts: seq<Act>, i: nat)
    requires Run(env, states, acts) && i <= |acts|
    ensures Outright(env, states[i])
  {
    hide Next, StreamOutright, RecordOutright, RecordsApart, CaseOutright, CasesApart, RegistryOk, LedgerOk, DeskOk,
        RowsGrounded, BundlesValid, RunsGenuine, CallsLawful, CasesOk, CallsOk, IdsApart, OneCreator, EveryEventCreated;
    EveryRunIsGoverned(env, states, acts, i);
    var s := states[i];
    forall company ensures StreamOutright(env.digest, company, StreamOf(s.system.ledger, company)) {
      StreamsOutright(env.digest, s.system.ledger, company);
    }
    forall k | k in s.registry.rows ensures RecordOutright(env, s.runs, k, s.registry.rows[k]) {
      RecordIsOutright(env, s, k);
    }
    RecordsAreApart(env, s);
    forall k | k in s.desk.rows ensures CaseOutright(s.system.ledger, k, s.desk.rows[k]) {
      CaseIsOutright(s.system.ledger, s.desk, k);
    }
    CasesAreApart(s.desk);
  }

  // ------------------------------------------------------------------ what stays

  /** From one state to a later one. */
  ghost predicate Kept(s: State, t: State) {
    && (forall company :: StreamOf(s.system.ledger, company) <= StreamOf(t.system.ledger, company))
    && (forall k :: k in s.registry.rows ==>
          && k in t.registry.rows && var r, q := s.registry.rows[k], t.registry.rows[k];
          && q.recordId == r.recordId && q.companyId == r.companyId && q.contentHash == r.contentHash
          && q.bundle == r.bundle && q.createdAt == r.createdAt && q.createdBy == r.createdBy
          && (r.publishedAt != None ==> q.publishedAt != None))
    && (forall k :: k in s.desk.rows ==>
          && k in t.desk.rows && var a, b := s.desk.rows[k], t.desk.rows[k];
          && b.escalationId == a.escalationId && b.companyId == a.companyId && b.workflow == a.workflow
          && b.decisionEventId == a.decisionEventId && b.reason == a.reason && b.detail == a.detail
          && b.createdAt == a.createdAt && (a.status == Resolved ==> b.status == Resolved))
  }

  /** Main result: nothing recorded is ever lost, rewritten or undone. */
  lemma NothingIsLost(env: Env, states: seq<State>, acts: seq<Act>, i: nat, j: nat)
    requires Run(env, states, acts) && i <= j <= |acts|
    ensures Kept(states[i], states[j])
  {
    hide Next, GovOk, Gates;
    RunsProgress(env, states, acts, i, j);
    var s, t := states[i], states[j];
    forall k | k in s.registry.rows ensures k in t.registry.rows && KeepsRow(s.registry.rows[k], t.registry.rows[k]) { }
    forall k | k in s.desk.rows ensures k in t.desk.rows && SameCase(s.desk.rows[k], t.desk.rows[k]) { }
  }
}
