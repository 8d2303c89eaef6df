/** Bundle registry and lifecycle (backend/bundle/lifecycle.py): draft, published, retired,
    and the replay gate in front of every publish. */
module Lifecycle {
  import opened Options
  import opened Schema
  import opened Canonical
  import opened Replay

  datatype BundleStatus = Draft | Published | Retired

  datatype BundleRecord = BundleRecord(recordId: string, companyId: string, contentHash: string,
                                       status: BundleStatus, bundle: Bundle, createdAt: int, createdBy: string,
                                       publishedAt: Option<int>, publishedBy: Option<string>,
                                       replayRunId: Option<string>)

  type Rows = map<(string, string), BundleRecord>

  /** The whole state of the bundle store: rows and the active pointer of each company. */
  datatype Registry = Registry(rows: Rows, active: map<string, string>)

  /** `active(company)` */
  function ActiveOf(reg: Registry, company: string): Option<BundleRecord> {
    if company in reg.active && (company, reg.active[company]) in reg.rows
    then Some(reg.rows[(company, reg.active[company])]) else None
  }

  predicate HashTaken(rows: Rows, company: string, hash: string, id: string) {
    (company, id) in rows && rows[(company, id)].contentHash == hash
  }

  // ------------------------------------------------------------------ the invariant

  /** A record is stored under its own key, addresses its own bundle, is a draft exactly
      while it was never published, and once published keeps its acknowledged run. */
  ghost predicate GoodRecord(digest: Content -> string, runs: Runs, key: (string, string), r: BundleRecord) {
    && r.companyId == key.0 && r.recordId == key.1
    && r.contentHash == ContentHash(digest, r.bundle)
    && (r.status == Draft <==> r.publishedAt.None?)
    && (r.publishedAt.Some? ==> r.replayRunId.Some? && Gates(runs, key.0, r.replayRunId.value, r.contentHash))
  }

  ghost predicate GoodRecords(digest: Content -> string, runs: Runs, rows: Rows) {
    forall k :: k in rows ==> GoodRecord(digest, runs, k, rows[k])
  }

  ghost predicate HashesDistinct(rows: Rows) {
    forall c, i, j :: (c, i) in rows && (c, j) in rows && rows[(c, i)].contentHash == rows[(c, j)].contentHash
        ==> i == j
  }

  /** The published record of a company is its active one, and there is only that one. */
  ghost predicate ActiveIsPublished(reg: Registry) {
    && (forall c :: c in reg.active
                    ==> (c, reg.active[c]) in reg.rows && reg.rows[(c, reg.active[c])].status == Published)
    && (forall k :: k in reg.rows && reg.rows[k].status == Published ==> k.0 in reg.active && reg.active[k.0] == k.1)
  }

  ghost predicate RegistryOk(digest: Content -> string, runs: Runs, reg: Registry) {
    GoodRecords(digest, runs, reg.rows) && HashesDistinct(reg.rows) && ActiveIsPublished(reg) && KeyedRuns(runs)
  }

  /** What no operation may do to history: lose a row, change its bundle, or unpublish it. */
  ghost predicate KeepsRow(before: BundleRecord, after: BundleRecord) {
    && after.recordId == before.recordId && after.companyId == before.companyId
    && after.contentHash == before.contentHash && after.bundle == before.bundle
    && after.createdAt == before.createdAt && after.createdBy == before.createdBy
    && (before.publishedAt.Some? ==> after.publishedAt.Some?)
  }

  ghost predicate KeepsRows(before: Rows, after: Rows) {
    forall k :: k in before ==> k in after && KeepsRow(before[k], after[k])
  }

  /** Runs are added or acknowledged; an acknowledged run stays one for the same hash. */
  ghost predicate KeepsRuns(before: Runs, after: Runs) {
    && KeyedRuns(after)
    && forall c, id, hash :: Gates(before, c, id, hash) ==> Gates(after, c, id, hash)
  }

  // ------------------------------------------------------------------ operations on values

  predicate AlreadyLive(reg: Registry, company: string, id: string) {
    var active := ActiveOf(reg, company);
    (company, id) in reg.rows && active.Some? && active.value.contentHash == reg.rows[(company, id)].contentHash
  }

  function WithDraft(digest: Content -> string, reg: Registry, company: string, b: Bundle, who: string,
                     freshId: string, now: int): Registry {
    reg.(rows := reg.rows[(company, freshId) :=
           BundleRecord(freshId, company, ContentHash(digest, b), Draft, b, now, who, None, None, None)])
  }

  /** The three successive writes of `publish`, as one step. */
  function WithPublished(reg: Registry, company: string, id: string, runId: string, who: string, now: int): Registry
    requires (company, id) in reg.rows
  {
    var published := reg.rows[(company, id)].(status := Published, publishedAt := Some(now),
                                              publishedBy := Some(who), replayRunId := Some(runId));
    var rows := reg.rows[(company, id) := published];
    var active := ActiveOf(reg, company);
    Registry(if active.Some? then rows[(company, active.value.recordId) := active.value.(status := Retired)] else rows,
             reg.active[company := id])
  }

  function WithActivated(reg: Registry, company: string, id: string): Registry
    requires (company, id) in reg.rows
  {
    var current := ActiveOf(reg, company);
    var rows := if current.Some? && current.value.recordId != id
                then reg.rows[(company, current.value.recordId) := current.value.(status := Retired)] else reg.rows;
    Registry(rows[(company, id) := reg.rows[(company, id)].(status := Published)], reg.active[company := id])
  }

  ghost predicate DraftStep(digest: Content -> string, reg: Registry, next: Registry, company: string, b: Bundle,
                            who: string, freshId: string, now: int) {
    var hash := ContentHash(digest, b);
    if exists id :: HashTaken(reg.rows, company, hash, id) then next == reg
    else (company, freshId) !in reg.rows && next == WithDraft(digest, reg, company, b, who, freshId, now)
  }

  ghost predicate PublishStep(runs: Runs, reg: Registry, next: Registry, company: string, id: string, runId: string,
                              who: string, now: int) {
    && (company, id) in reg.rows
    && (if AlreadyLive(reg, company, id) then next == reg
        else Gates(runs, company, runId, reg.rows[(company, id)].contentHash) &&
             next == WithPublished(reg, company, id, runId, who, now))
  }

  ghost predicate ActivateStep(reg: Registry, next: Registry, company: string, id: string) {
    (company, id) in reg.rows && reg.rows[(company, id)].publishedAt.Some? && next == WithActivated(reg, company, id)
  }

  lemma DraftKeeps(digest: Content -> string, runs: Runs, reg: Registry, next: Registry, company: string, b: Bundle,
                   who: string, freshId: string, now: int)
    requires RegistryOk(digest, runs, reg) && DraftStep(digest, reg, next, company, b, who, freshId, now)
    ensures RegistryOk(digest, runs, next) && KeepsRows(reg.rows, next.rows)
  {
    hide ContentHash;
    if !exists id :: HashTaken(reg.rows, company, ContentHash(digest, b), id) {
      DraftKeepsHashes(reg.rows, next.rows[(company, freshId)], (company, freshId));
      forall k | k in next.rows ensures GoodRecord(digest, runs, k, next.rows[k]) {
        if k != (company, freshId) { assert GoodRecord(digest, runs, k, reg.rows[k]); }
      }
    }
  }

  lemma DraftKeepsHashes(rows: Rows, r: BundleRecord, key: (string, string))
    requires HashesDistinct(rows) && forall id :: !HashTaken(rows, key.0, r.contentHash, id)
    ensures HashesDistinct(rows[key := r])
  {
    var more := rows[key := r];
    forall c, i, j | (c, i) in more && (c, j) in more && more[(c, i)].contentHash == more[(c, j)].contentHash
      ensures i == j
    {
      assert c == key.0 && (c, i) != key ==> !HashTaken(rows, c, r.contentHash, i);
      assert c == key.0 && (c, j) != key ==> !HashTaken(rows, c, r.contentHash, j);
    }
  }

  ghost predicate SameAddresses(before: Rows, after: Rows) {
    before.Keys == after.Keys && forall k :: k in before ==> after[k].contentHash == before[k].contentHash
  }

  lemma SameAddressesDistinct(before: Rows, after: Rows)
    requires HashesDistinct(before) && SameAddresses(before, after)
    ensures HashesDistinct(after)
  {
  }

  /** The current active record is stored under its own id. */
  lemma ActiveKey(digest: Content -> string, runs: Runs, reg: Registry, company: string)
    requires RegistryOk(digest, runs, reg)
    ensures company in reg.active
            ==> ActiveOf(reg, company).Some? && ActiveOf(reg, company).value.recordId == reg.active[company]
    ensures company in reg.active ==> ActiveOf(reg, company).value.status == Published
  {
    if company in reg.active {
      assert GoodRecord(digest, runs, (company, reg.active[company]), reg.rows[(company, reg.active[company])]);
    }
  }

  lemma PublishKeepsRow(digest: Content -> string, runs: Runs, reg: Registry, company: string, id: string,
                        runId: string, who: string, now: int, k: (string, string))
    requires RegistryOk(digest, runs, reg) && (company, id) in reg.rows && k in reg.rows
    requires Gates(runs, company, runId, reg.rows[(company, id)].contentHash)
    ensures var next := WithPublished(reg, company, id, runId, who, now);
            && next.rows.Keys == reg.rows.Keys && KeepsRow(reg.rows[k], next.rows[k])
            && (company in reg.active && reg.active[company] != id ==> GoodRecord(digest, runs, k, next.rows[k]))
            && (company !in reg.active ==> GoodRecord(digest, runs, k, next.rows[k]))
            && (k.0 == company && company in reg.active && k.1 == reg.active[company]
                ==> next.rows[k].status == Retired)
            && (k == (company, id) && !(company in reg.active && id == reg.active[company])
                ==> next.rows[k].status == Published)
            && (k != (company, id) && !(k.0 == company && company in reg.active && k.1 == reg.active[company])
                ==> next.rows[k] == reg.rows[k])
  {
    hide ContentHash, HashesDistinct, ActiveIsPublished;
    ActiveKey(digest, runs, reg, company);
    assert GoodRecord(digest, runs, k, reg.rows[k]);
  }

  lemma PublishKeeps(digest: Content -> string, runs: Runs, reg: Registry, next: Registry, company: string, id: string,
                     runId: string, who: string, now: int)
    requires RegistryOk(digest, runs, reg) && PublishStep(runs, reg, next, company, id, runId, who, now)
    ensures RegistryOk(digest, runs, next) && KeepsRows(reg.rows, next.rows)
  {
    if next != reg {
      ActiveKey(digest, runs, reg, company);
      forall k | k in reg.rows
        ensures k in next.rows && KeepsRow(reg.rows[k], next.rows[k]) && GoodRecord(digest, runs, k, next.rows[k])
        ensures k.0 != company ==> next.rows[k].status == reg.rows[k].status
        ensures k.0 == company && k.1 != id ==>
                  next.rows[k].status ==
                  if company in reg.active && reg.active[company] == k.1 then Retired else reg.rows[k].status
      {
        PublishKeepsRow(digest, runs, reg, company, id, runId, who, now, k);
      }
      PublishKeepsRow(digest, runs, reg, company, id, runId, who, now, (company, id));
      SameAddressesDistinct(reg.rows, next.rows);
      PointerMoves(reg, next, company, id);
    }
  }

  /** Retiring the old active record, publishing the new one and moving the pointer keeps
      "published" and "active" the same thing. */
  lemma PointerMoves(reg: Registry, next: Registry, company: string, id: string)
    requires ActiveIsPublished(reg) && (company, id) in reg.rows && next.rows.Keys == reg.rows.Keys
    requires next.active == reg.active[company := id] && next.rows[(company, id)].status == Published
    requires forall k :: k in reg.rows && k.0 != company ==> next.rows[k].status == reg.rows[k].status
    requires forall k :: k in reg.rows && k.0 == company && k.1 != id ==>
               next.rows[k].status ==
               if company in reg.active && reg.active[company] == k.1 then Retired else reg.rows[k].status
    ensures ActiveIsPublished(next)
  {
  }

  lemma ActivateKeepsRow(digest: Content -> string, runs: Runs, reg: Registry, company: string, id: string,
                         k: (string, string))
    requires RegistryOk(digest, runs, reg) && (company, id) in reg.rows && k in reg.rows
    requires reg.rows[(company, id)].publishedAt.Some?
    ensures var next := WithActivated(reg, company, id);
            && next.rows.Keys == reg.rows.Keys && KeepsRow(reg.rows[k], next.rows[k])
               && GoodRecord(digest, runs, k, next.rows[k])
            && (k == (company, id) ==> next.rows[k].status == Published)
            && (k.0 == company && k.1 != id && company in reg.active && k.1 == reg.active[company]
                ==> next.rows[k].status == Retired)
            && (k != (company, id) && !(k.0 == company && company in reg.active && k.1 == reg.active[company])
                ==> next.rows[k] == reg.rows[k])
  {
    hide ContentHash, HashesDistinct, ActiveIsPublished;
    ActiveKey(digest, runs, reg, company);
    assert GoodRecord(digest, runs, k, reg.rows[k]);
  }

  lemma ActivateKeeps(digest: Content -> string, runs: Runs, reg: Registry, next: Registry, company: string, id: string)
    requires RegistryOk(digest, runs, reg) && ActivateStep(reg, next, company, id)
    ensures RegistryOk(digest, runs, next) && KeepsRows(reg.rows, next.rows)
  {
    forall k | k in reg.rows
      ensures k in next.rows && KeepsRow(reg.rows[k], next.rows[k]) && GoodRecord(digest, runs, k, next.rows[k])
      ensures k.0 != company ==> next.rows[k].status == reg.rows[k].status
      ensures k.0 == company && k.1 != id ==>
                next.rows[k].status ==
                if company in reg.active && reg.active[company] == k.1 then Retired else reg.rows[k].status
    {
      ActivateKeepsRow(digest, runs, reg, company, id, k);
    }
    ActivateKeepsRow(digest, runs, reg, company, id, (company, id));
    SameAddressesDistinct(reg.rows, next.rows);
    PointerMoves(reg, next, company, id);
  }

  /** New or newly acknowledged runs leave the registry invariant alone. */
  lemma RunsKeep(digest: Content -> string, runs: Runs, more: Runs, reg: Registry)
    requires RegistryOk(digest, runs, reg) && KeepsRuns(runs, more)
    ensures RegistryOk(digest, more, reg)
  {
    forall k | k in reg.rows ensures GoodRecord(digest, more, k, reg.rows[k]) {
      assert GoodRecord(digest, runs, k, reg.rows[k]);
    }
  }

  lemma NewRunKeeps(runs: Runs, run: ReplayRun)
    requires KeyedRuns(runs) && (run.companyId, run.runId) !in runs
    ensures KeepsRuns(runs, runs[(run.companyId, run.runId) := run])
  {
  }

  lemma AcknowledgeKeeps(runs: Runs, company: string, id: string, who: string)
    requires KeyedRuns(runs) && (company, id) in runs
    ensures KeepsRuns(runs, runs[(company, id) := runs[(company, id)].(acknowledgedBy := Some(who))])
  {
  }

  /** Between the first write of a publish and the retirement of the active record, two records
      are published: only the three writes together keep the invariant. */
  lemma HalfPublishedBreaksInvariant(digest: Content -> string, runs: Runs, reg: Registry, company: string, id: string,
                                     runId: string, who: string, now: int)
    requires RegistryOk(digest, runs, reg) && (company, id) in reg.rows && company in reg.active
             && reg.active[company] != id
    ensures var first := reg.rows[(company, id)].(status := Published, publishedAt := Some(now),
                                                  publishedBy := Some(who), replayRunId := Some(runId));
            !ActiveIsPublished(reg.(rows := reg.rows[(company, id) := first]))
  {
    var first := reg.rows[(company, id)].(status := Published, publishedAt := Some(now),
                                          publishedBy := Some(who), replayRunId := Some(runId));
    var half := reg.(rows := reg.rows[(company, id) := first]);
    assert half.rows[(company, id)].status == Published && half.active[company] != id;
  }

  /** Rolling back to a published record and forward again restores every row's status. */
  lemma RollbackRoundTrip(digest: Content -> string, runs: Runs, reg: Registry, company: string, id: string)
    requires RegistryOk(digest, runs, reg) && company in reg.active
    requires (company, id) in reg.rows && reg.rows[(company, id)].publishedAt.Some?
    requires reg.rows[(company, id)].status == Retired
    ensures var there := WithActivated(reg, company, id);
            (company, reg.active[company]) in there.rows && WithActivated(there, company, reg.active[company]) == reg
  {
    hide ContentHash, HashesDistinct, KeyedRuns, Gates;
    var current := reg.active[company];
    assert GoodRecord(digest, runs, (company, current), reg.rows[(company, current)]);
    assert GoodRecord(digest, runs, (company, id), reg.rows[(company, id)]);
    var there := WithActivated(reg, company, id);
    assert ActiveOf(there, company) == Some(there.rows[(company, id)]);
    var back := WithActivated(there, company, current);
    assert back.rows == reg.rows && back.active == reg.active;
  }

  // ------------------------------------------------------------------ what a reader of the registry sees

  /** The company's pointer names this record, and every other record stands as before, except that the one
      the pointer left is retired. */
  ghost predicate MovesTo(before: Registry, after: Registry, company: string, id: string) {
    && after.active == before.active[company := id] && after.rows.Keys == before.rows.Keys
    && forall k :: k in before.rows && k != (company, id) ==>
         after.rows[k] == if company in before.active && k == (company, before.active[company])
                          then before.rows[k].(status := Retired) else before.rows[k]
  }

  /** The company's pointer names a record of this content. */
  predicate IsLive(reg: Registry, company: string, hash: string) {
    && company in reg.active && (company, reg.active[company]) in reg.rows
    && reg.rows[(company, reg.active[company])].contentHash == hash
  }

  /** The record is published now, by this person, behind some run; nothing else of it changed. */
  predicate PublishedFrom(before: BundleRecord, after: BundleRecord, who: string, now: int) {
    && after.status == Published && after.publishedAt == Some(now) && after.publishedBy == Some(who)
    && after.replayRunId.Some? && after.recordId == before.recordId && after.companyId == before.companyId
    && after.contentHash == before.contentHash && after.bundle == before.bundle
    && after.createdAt == before.createdAt && after.createdBy == before.createdBy
  }

  predicate DraftOf(r: BundleRecord, company: string, b: Bundle, hash: string, who: string, id: string, now: int) {
    && r.recordId == id && r.companyId == company && r.contentHash == hash && r.status == Draft && r.bundle == b
    && r.createdAt == now && r.createdBy == who
    && r.publishedAt == None && r.publishedBy == None && r.replayRunId == None
  }

  lemma LiveExactly(digest: Content -> string, runs: Runs, reg: Registry, company: string, id: string)
    requires RegistryOk(digest, runs, reg) && (company, id) in reg.rows
    ensures AlreadyLive(reg, company, id) <==> IsLive(reg, company, reg.rows[(company, id)].contentHash)
    ensures ActiveOf(reg, company) ==
            if company in reg.active then Some(reg.rows[(company, reg.active[company])]) else None
  {
    hide GoodRecords, HashesDistinct;
  }

  lemma PublishMoves(digest: Content -> string, runs: Runs, reg: Registry, company: string, id: string, runId: string,
                     who: string, now: int)
    requires RegistryOk(digest, runs, reg) && (company, id) in reg.rows && !AlreadyLive(reg, company, id)
    ensures var next := WithPublished(reg, company, id, runId, who, now);
            && MovesTo(reg, next, company, id)
            && PublishedFrom(reg.rows[(company, id)], next.rows[(company, id)], who, now)
  {
    hide GoodRecords, HashesDistinct, ActiveIsPublished;
    ActiveKey(digest, runs, reg, company);
  }

  lemma ActivateMoves(digest: Content -> string, runs: Runs, reg: Registry, company: string, id: string)
    requires RegistryOk(digest, runs, reg) && (company, id) in reg.rows
    ensures var next := WithActivated(reg, company, id);
            MovesTo(reg, next, company, id) && next.rows[(company, id)] == reg.rows[(company, id)].(status := Published)
  {
    hide GoodRecords, HashesDistinct, ActiveIsPublished;
    ActiveKey(digest, runs, reg, company);
  }

  // ------------------------------------------------------------------ the classes

  class BundleStore {
    var rows: Rows
    var active: map<string, string>

    constructor ()
      ensures rows == map[] && active == map[]
    {
      rows, active := map[], map[];
    }

    function State(): Registry
      reads this
    {
      Registry(rows, active)
    }

    /** `by_hash`: any row of the company with that content. */
    method ByHash(company: string, hash: string) returns (r: Option<BundleRecord>)
      ensures r.Some? <==> exists id :: HashTaken(rows, company, hash, id)
      ensures r.Some? ==> exists id :: HashTaken(rows, company, hash, id) && rows[(company, id)] == r.value
    {
      r := None;
      var todo := rows.Keys;
      while todo != {}
        invariant todo <= rows.Keys
        invariant forall id :: (company, id) !in todo ==> !HashTaken(rows, company, hash, id)
        decreases todo
      {
        var k :| k in todo;
        todo := todo - {k};
        if k.0 == company && rows[k].contentHash == hash {
          assert HashTaken(rows, company, hash, k.1);
          return Some(rows[k]);
        }
      }
    }
  }

  datatype LifecycleResult = Done(record: BundleRecord) | UnknownRecord | GateClosed

  class BundleLifecycle {
    const store: BundleStore
    const replays: ReplayRunStore

    constructor (store: BundleStore, replays: ReplayRunStore)
      ensures this.store == store && this.replays == replays
    {
      this.store, this.replays := store, replays;
    }

    /** `save_draft`: identical content is already registered, anything else becomes a draft. */
    method SaveDraft(digest: Content -> string, company: string, b: Bundle, who: string, freshId: string, now: int)
      returns (record: BundleRecord)
      requires RegistryOk(digest, replays.rows, store.State()) && (company, freshId) !in store.rows
      modifies store
      ensures DraftStep(digest, old(store.State()), store.State(), company, b, who, freshId, now)
      ensures RegistryOk(digest, replays.rows, store.State()) && KeepsRows(old(store.rows), store.rows)
      ensures (company, record.recordId) in store.rows && store.rows[(company, record.recordId)] == record
      ensures record.contentHash == ContentHash(digest, b)
      ensures (exists id :: (company, id) in old(store.rows)
                            && old(store.rows)[(company, id)].contentHash == ContentHash(digest, b))
              ==> store.State() == old(store.State())
      ensures (forall id :: (company, id) in old(store.rows)
                            ==> old(store.rows)[(company, id)].contentHash != ContentHash(digest, b))
              ==> DraftOf(record, company, b, ContentHash(digest, b), who, freshId, now)
                  && store.rows == old(store.rows)[(company, freshId) := record] && store.active == old(store.active)
    {
      ghost var before := store.State();
      var hash := ContentHash(digest, b);
      var existing := store.ByHash(company, hash);
      if existing.Some? {
        record := existing.value;
        assert GoodRecords(digest, replays.rows, store.rows);
      } else {
        record := BundleRecord(freshId, company, hash, Draft, b, now, who, None, None, None);
        store.rows := store.rows[(company, freshId) := record];
        DraftKeeps(digest, replays.rows, before, store.State(), company, b, who, freshId, now);
      }
    }

    /** `publish`. */
    method Publish(ghost digest: Content -> string, company: string, id: string, who: string, now: int)
      returns (r: LifecycleResult)
      requires RegistryOk(digest, replays.rows, store.State())
      modifies store
      ensures r == UnknownRecord <==> (company, id) !in old(store.rows)
      ensures r.Done? ==>
                exists runId ::
                  PublishStep(replays.rows, old(store.State()), store.State(), company, id, runId, who, now)
      ensures r.Done? ==> ActiveOf(store.State(), company) == Some(r.record)
                          && r.record.contentHash == old(store.rows)[(company, id)].contentHash
      ensures !r.Done? ==> store.State() == old(store.State())
      ensures r.Done? && !AlreadyLive(old(store.State()), company, id) ==>
                && r.record.replayRunId.Some?
                   && Gates(replays.rows, company, r.record.replayRunId.value, r.record.contentHash)
                && forall run :: Gates(replays.rows, company, run, r.record.contentHash) ==>
                     replays.rows[(company, run)].createdAt
                     <= replays.rows[(company, r.record.replayRunId.value)].createdAt
      ensures r == GateClosed <==>
                && (company, id) in old(store.rows) && !AlreadyLive(old(store.State()), company, id)
                && forall run :: !Gates(replays.rows, company, run, old(store.rows)[(company, id)].contentHash)
      ensures r == GateClosed ==> forall k :: k in replays.rows ==>
                !AcknowledgedFor(replays.rows[k], company, old(store.rows)[(company, id)].contentHash)
      ensures r.Done? && IsLive(old(store.State()), company, old(store.rows)[(company, id)].contentHash) ==>
                store.State() == old(store.State())
                && r.record == old(store.rows)[(company, old(store.active)[company])]
      ensures r.Done? && !IsLive(old(store.State()), company, old(store.rows)[(company, id)].contentHash) ==>
                && (company, id) in store.rows && r.record == store.rows[(company, id)]
                && PublishedFrom(old(store.rows)[(company, id)], r.record, who, now)
                && (company, r.record.replayRunId.value) in replays.rows
                && AcknowledgedFor(replays.rows[(company, r.record.replayRunId.value)], company, r.record.contentHash)
                && MovesTo(old(store.State()), store.State(), company, id)
      ensures RegistryOk(digest, replays.rows, store.State()) && KeepsRows(old(store.rows), store.rows)
    {
      hide GoodRecords, HashesDistinct, ActiveIsPublished, ContentHash;
      ghost var before := store.State();
      if (company, id) !in store.rows { return UnknownRecord; }
      LiveExactly(digest, replays.rows, before, company, id);
      var record := store.rows[(company, id)];
      var active := ActiveOf(store.State(), company);
      if active.Some? && active.value.contentHash == record.contentHash {
        assert PublishStep(replays.rows, before, store.State(), company, id, "", who, now);
        return Done(active.value);
      }
      var gate := replays.LatestAcknowledgedFor(company, record.contentHash);
      if gate.None? { return GateClosed; }
      PublishMoves(digest, replays.rows, before, company, id, gate.value.runId, who, now);
      var published := record.(status := Published, publishedAt := Some(now), publishedBy := Some(who),
                               replayRunId := Some(gate.value.runId));
      store.rows := store.rows[(company, id) := published];
      if active.Some? {
        store.rows := store.rows[(company, active.value.recordId) := active.value.(status := Retired)];
      }
      store.active := store.active[company := id];
      assert PublishStep(replays.rows, before, store.State(), company, id, gate.value.runId, who, now);
      PublishKeeps(digest, replays.rows, before, store.State(), company, id, gate.value.runId, who, now);
      r := Done(published);
      ActiveStays(digest, replays.rows, before, company, active, id);
    }

    /** The record being retired by a publish is not the one being published. */
    lemma ActiveStays(digest: Content -> string, runs: Runs, before: Registry, company: string,
                      active: Option<BundleRecord>, id: string)
      requires RegistryOk(digest, runs, before) && active == ActiveOf(before, company) && (company, id) in before.rows
      requires active.Some? ==> active.value.contentHash != before.rows[(company, id)].contentHash
      ensures active.Some? ==> active.value.recordId != id
    {
      if active.Some? {
        assert GoodRecord(digest, runs, (company, before.active[company]), active.value);
      }
    }

    /** `activate`: rollback or forward to a record that was published before. */
    method Activate(ghost digest: Content -> string, company: string, id: string) returns (r: LifecycleResult)
      requires RegistryOk(digest, replays.rows, store.State())
      modifies store
      ensures r == UnknownRecord <==> (company, id) !in old(store.rows)
      ensures r == GateClosed <==> (company, id) in old(store.rows) && old(store.rows)[(company, id)].publishedAt.None?
      ensures r.Done? ==> ActivateStep(old(store.State()), store.State(), company, id)
                          && ActiveOf(store.State(), company) == Some(r.record)
      ensures !r.Done? ==> store.State() == old(store.State())
      ensures r.Done? ==>
                && (company, id) in store.rows && r.record == store.rows[(company, id)]
                && r.record == old(store.rows)[(company, id)].(status := Published)
                && MovesTo(old(store.State()), store.State(), company, id)
      ensures RegistryOk(digest, replays.rows, store.State()) && KeepsRows(old(store.rows), store.rows)
    {
      hide GoodRecords, HashesDistinct, ActiveIsPublished, ContentHash;
      ghost var before := store.State();
      if (company, id) !in store.rows { return UnknownRecord; }
      ActivateMoves(digest, replays.rows, before, company, id);
      var record := store.rows[(company, id)];
      if record.publishedAt.None? { return GateClosed; }
      var current := ActiveOf(store.State(), company);
      if current.Some? && current.value.recordId != id {
        store.rows := store.rows[(company, current.value.recordId) := current.value.(status := Retired)];
      }
      var restored := record.(status := Published);
      store.rows := store.rows[(company, id) := restored];
      store.active := store.active[company := id];
      assert store.State() == WithActivated(before, company, id);
      ActivateKeeps(digest, replays.rows, before, store.State(), company, id);
      r := Done(restored);
    }
  }
}
