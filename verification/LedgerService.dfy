/** The write-ahead orchestration around the evaluator (backend/ledger/service.py): look the
    key up, evaluate, seal against the current head, append, retry on a lost race. What other
    writers append in the meantime is an input of every operation. */
module LedgerService {
  import opened Options
  import opened Schema
  import opened Evaluator
  import opened LedgerEvents
  import opened LedgerStores
  import opened LedgerProtocol

  /** One attempt's surroundings: the appends of other writers before its head read, its
      fresh event id, its clock, and the appends of others between its head read and its own. */
  datatype Tick = Tick(earlier: seq<Event>, id: string, now: int, rivals: seq<Event>)

  datatype Answer =
    | Recorded(event: Event, created: bool)
    | LedgerUnavailable
    | RefusedEvent
    | NotEvaluated(error: EvalResult)
    | BlankRationale

  // ------------------------------------------------------------------ entries

  function DecisionEntry(company: string, workflow: string, facts: map<string, Json>, actor: Actor, key: string,
                         ruling: EvalResult, bundleHash: string): Entry
    requires ruling.Ruling?
  {
    Entry(DecisionType, company, workflow, actor, key, facts, ByPolicy(ruling.outcome), Derivation(ruling.trace),
          bundleHash, None)
  }

  /** The human's ruling keeps the original's workflow, facts and bundle hash, and links to it. */
  function AdjudicationEntry(company: string, original: Event, actor: Actor, action: string, kind: string,
                             rationale: string, key: string): Entry {
    var e := original.body.entry;
    Entry(AdjudicationType, company, e.workflow, actor, key, e.facts, ByHuman(kind, action, rationale),
          Adjudicated(original.body.id, e.outcome), e.bundleHash, Some(original.body.id))
  }

  /** The recorded decision: the request, the ruling with its trace, and the bundle it was made under. */
  predicate RecordsDecision(b: Body, company: string, workflow: string, facts: map<string, Json>, actor: Actor,
                            key: string, ruling: EvalResult, bundleHash: string)
    requires ruling.Ruling?
  {
    var e := b.entry;
    && e.eventType == DecisionType && e.companyId == company && e.workflow == workflow && e.actor == actor
    && e.key == key && e.facts == facts && e.outcome == ByPolicy(ruling.outcome)
    && e.trace == Derivation(ruling.trace) && e.bundleHash == bundleHash && e.linked == None
  }

  /** The recorded adjudication: the human's words, and everything else from the decision it rules on. */
  predicate RecordsAdjudication(b: Body, company: string, original: Event, actor: Actor, action: string, kind: string,
                                rationale: string, key: string) {
    var e, o := b.entry, original.body;
    && e.eventType == AdjudicationType && e.companyId == company && e.actor == actor && e.key == key
    && e.outcome.ByHuman? && e.outcome.kind == kind && e.outcome.action == action && e.outcome.rationale == rationale
    && e.workflow == o.entry.workflow && e.facts == o.entry.facts && e.bundleHash == o.entry.bundleHash
    && e.linked == Some(o.id) && e.trace.Adjudicated? && e.trace.originalEventId == o.id
    && e.trace.originalOutcome == o.entry.outcome
  }

  // ------------------------------------------------------------------ the retry loop

  /** The ledger after other writers' appends. */
  function Crowd(digest: Digest, l: Ledger, es: seq<Event>): Ledger {
    if es == [] then l else AfterAppend(digest, Crowd(digest, l, es[..|es| - 1]), es[|es| - 1])
  }

  function Attempt(digest: Digest, l: Ledger, entry: Entry, t: Tick): Event {
    Seal(digest, Body(t.id, entry, t.now, HeadOf(StreamOf(l, entry.companyId))))
  }

  /** `_append_sealed` as a function of the attempts it has left. */
  function Attempts(digest: Digest, l: Ledger, entry: Entry, ticks: seq<Tick>): (Answer, Ledger)
    decreases |ticks|
  {
    if ticks == [] then (LedgerUnavailable, l)
    else
      var read := Crowd(digest, l, ticks[0].earlier);
      var e := Attempt(digest, read, entry, ticks[0]);
      var met := Crowd(digest, read, ticks[0].rivals);
      var after := AfterAppend(digest, met, e);
      match AppendResultOf(digest, met, e)
      case Stored(event, created) => (Recorded(event, created), after)
      case Refused => (RefusedEvent, after)
      case ChainConflict => Attempts(digest, after, entry, ticks[1..])
  }

  lemma {:induction false} CrowdGrows(digest: Digest, l: Ledger, es: seq<Event>)
    ensures Grows(l, Crowd(digest, l, es))
    ensures Indexed(l) ==> Indexed(Crowd(digest, l, es))
  {
    if es != [] {
      var before := Crowd(digest, l, es[..|es| - 1]);
      CrowdGrows(digest, l, es[..|es| - 1]);
      AppendGrows(digest, before, es[|es| - 1]);
      GrowsTransitive(l, before, Crowd(digest, l, es));
      if Indexed(l) { AppendKeepsIndexes(digest, before, es[|es| - 1]); }
    }
  }

  /** A conflict against the head just read: somebody made the stream longer meanwhile. */
  lemma ConflictMeansLonger(digest: Digest, l: Ledger, entry: Entry, t: Tick)
    requires AppendResultOf(digest, Crowd(digest, l, t.rivals), Attempt(digest, l, entry, t)) == ChainConflict
    ensures |StreamOf(l, entry.companyId)| < |StreamOf(Crowd(digest, l, t.rivals), entry.companyId)|
  {
    CrowdGrows(digest, l, t.rivals);
    var s, u := StreamOf(l, entry.companyId), StreamOf(Crowd(digest, l, t.rivals), entry.companyId);
    assert s <= u && (|s| == |u| ==> s == u);
  }

  /** Main result: running out of attempts takes one successful rival append per attempt. */
  lemma {:induction false} UnavailableMeansRivals(digest: Digest, l: Ledger, entry: Entry, ticks: seq<Tick>)
    requires Attempts(digest, l, entry, ticks).0 == LedgerUnavailable
    ensures |StreamOf(l, entry.companyId)| + |ticks| <= |StreamOf(Attempts(digest, l, entry, ticks).1, entry.companyId)|
    decreases |ticks|
  {
    if ticks != [] {
      var read := Crowd(digest, l, ticks[0].earlier);
      var met := Crowd(digest, read, ticks[0].rivals);
      var e := Attempt(digest, read, entry, ticks[0]);
      CrowdGrows(digest, l, ticks[0].earlier);
      assert StreamOf(l, entry.companyId) <= StreamOf(read, entry.companyId);
      ConflictMeansLonger(digest, read, entry, ticks[0]);
      AppendKeepsStream(digest, met, e, entry.companyId);
      UnavailableMeansRivals(digest, AfterAppend(digest, met, e), entry, ticks[1..]);
    }
  }

  /** Whatever event is handed back is stored under the caller's key, so asking again with
      that key returns it again; it is the caller's own entry when newly created, and then
      the newest of its stream. */
  ghost predicate Answered(l: Ledger, entry: Entry, a: Answer) {
    && !a.RefusedEvent? && !a.NotEvaluated? && !a.BlankRationale?
    && (a.Recorded? ==>
          var s := StreamOf(l, entry.companyId);
          && (entry.companyId, entry.key) in l.byKey && l.byKey[(entry.companyId, entry.key)] == a.event
          && (a.created ==> a.event.body.entry == entry && s != [] && s[|s| - 1] == a.event))
  }

  lemma AttemptAnswered(digest: Digest, l: Ledger, met: Ledger, entry: Entry, t: Tick)
    ensures var e := Attempt(digest, l, entry, t);
            var r := AppendResultOf(digest, met, e);
            !r.Refused? && (r.Stored? ==> Answered(AfterAppend(digest, met, e), entry, Recorded(r.event, r.created)))
  {
    var e := Attempt(digest, l, entry, t);
    AppendKeepsStream(digest, met, e, entry.companyId);
    AppendKeepsMaps(digest, met, e);
  }

  lemma {:induction false} AttemptsAnswered(digest: Digest, l: Ledger, entry: Entry, ticks: seq<Tick>)
    ensures Answered(Attempts(digest, l, entry, ticks).1, entry, Attempts(digest, l, entry, ticks).0)
    ensures Grows(l, Attempts(digest, l, entry, ticks).1)
    ensures Indexed(l) ==> Indexed(Attempts(digest, l, entry, ticks).1)
    decreases |ticks|
  {
    if ticks != [] {
      var read := Crowd(digest, l, ticks[0].earlier);
      var met := Crowd(digest, read, ticks[0].rivals);
      var e := Attempt(digest, read, entry, ticks[0]);
      var after := AfterAppend(digest, met, e);
      AttemptAnswered(digest, read, met, entry, ticks[0]);
      CrowdGrows(digest, l, ticks[0].earlier);
      CrowdGrows(digest, read, ticks[0].rivals);
      GrowsTransitive(l, read, met);
      AppendGrows(digest, met, e);
      GrowsTransitive(l, met, after);
      if Indexed(l) { AppendKeepsIndexes(digest, met, e); }
      AttemptsAnswered(digest, after, entry, ticks[1..]);
      GrowsTransitive(l, after, Attempts(digest, after, entry, ticks[1..]).1);
    }
  }

  /** A created event carries the id and the time of one attempt, its own hash, and the hash of its
      predecessor in the stream it heads. */
  ghost predicate FreshlySealed(digest: Digest, l: Ledger, company: string, ticks: seq<Tick>, a: Answer) {
    a.Recorded? && a.created ==>
      var s, b := StreamOf(l, company), a.event.body;
      && (exists i :: 0 <= i < |ticks| && b.id == ticks[i].id && b.createdAt == ticks[i].now)
      && a.event.hash == HashOf(digest, b) && s != [] && s[|s| - 1] == a.event
      && b.prev == (if |s| == 1 then None else Some(s[|s| - 2].hash))
  }

  lemma AttemptSealed(digest: Digest, read: Ledger, met: Ledger, entry: Entry, ticks: seq<Tick>)
    requires ticks != []
    ensures var e := Attempt(digest, read, entry, ticks[0]);
            var r := AppendResultOf(digest, met, e);
            r.Stored? ==> FreshlySealed(digest, AfterAppend(digest, met, e), entry.companyId, ticks,
                                        Recorded(r.event, r.created))
  {
    AppendKeepsStream(digest, met, Attempt(digest, read, entry, ticks[0]), entry.companyId);
  }

  lemma LaterSealed(digest: Digest, l: Ledger, company: string, ticks: seq<Tick>, a: Answer)
    requires ticks != [] && FreshlySealed(digest, l, company, ticks[1..], a)
    ensures FreshlySealed(digest, l, company, ticks, a)
  {
    if a.Recorded? && a.created {
      var rest := ticks[1..];
      var i :| 0 <= i < |rest| && a.event.body.id == rest[i].id && a.event.body.createdAt == rest[i].now;
      assert ticks[i + 1] == rest[i];
    }
  }

  lemma {:induction false} AttemptsSealed(digest: Digest, l: Ledger, entry: Entry, ticks: seq<Tick>)
    ensures FreshlySealed(digest, Attempts(digest, l, entry, ticks).1, entry.companyId, ticks,
                          Attempts(digest, l, entry, ticks).0)
    decreases |ticks|
  {
    hide FreshlySealed, AppendResultOf, AfterAppend, Attempt;
    if ticks == [] {
      NothingSealed(digest, l, entry.companyId);
    } else {
      var read := Crowd(digest, l, ticks[0].earlier);
      var met := Crowd(digest, read, ticks[0].rivals);
      var e := Attempt(digest, read, entry, ticks[0]);
      AttemptSealed(digest, read, met, entry, ticks);
      var r := AppendResultOf(digest, met, e);
      if r.ChainConflict? {
        AttemptsSealed(digest, AfterAppend(digest, met, e), entry, ticks[1..]);
        LaterSealed(digest, Attempts(digest, l, entry, ticks).1, entry.companyId, ticks,
                    Attempts(digest, l, entry, ticks).0);
      } else if r.Refused? {
        RefusedSealed(digest, AfterAppend(digest, met, e), entry.companyId, ticks);
      }
    }
  }

  lemma NothingSealed(digest: Digest, l: Ledger, company: string)
    ensures FreshlySealed(digest, l, company, [], LedgerUnavailable)
  {
  }

  lemma RefusedSealed(digest: Digest, l: Ledger, company: string, ticks: seq<Tick>)
    ensures FreshlySealed(digest, l, company, ticks, RefusedEvent)
  {
  }

  /** Without rivals behind its head read the first attempt succeeds, and creates exactly
      when the key is unused by then. */
  lemma AloneFirstAttemptSucceeds(digest: Digest, l: Ledger, entry: Entry, ticks: seq<Tick>)
    requires ticks != [] && ticks[0].rivals == []
    ensures var a := Attempts(digest, l, entry, ticks).0;
            a.Recorded? && (a.created <==> (entry.companyId, entry.key) !in Crowd(digest, l, ticks[0].earlier).byKey)
  {
  }

  lemma {:induction false} CrowdKeepsKey(digest: Digest, l: Ledger, es: seq<Event>, k: Key)
    requires k in l.byKey
    ensures k in Crowd(digest, l, es).byKey && Crowd(digest, l, es).byKey[k] == l.byKey[k]
  {
    if es != [] {
      CrowdKeepsKey(digest, l, es[..|es| - 1], k);
      AppendKeepsMaps(digest, Crowd(digest, l, es[..|es| - 1]), es[|es| - 1]);
    }
  }

  /** Whatever is stored under the caller's key before the call is what the call returns. */
  lemma EarlierEventWins(digest: Digest, l: Ledger, entry: Entry, ticks: seq<Tick>)
    requires ticks != [] && (entry.companyId, entry.key) in l.byKey
    ensures Attempts(digest, l, entry, ticks).0 == Recorded(l.byKey[(entry.companyId, entry.key)], false)
  {
    CrowdKeepsKey(digest, l, ticks[0].earlier, (entry.companyId, entry.key));
    CrowdKeepsKey(digest, Crowd(digest, l, ticks[0].earlier), ticks[0].rivals, (entry.companyId, entry.key));
  }

  /** Main result: a second call under the key of a first one, with any other writers in between, gets the
      first one's event: a retried adjudication keeps the first ruling, whatever it now says. */
  lemma RetryReusesFirstEvent(digest: Digest, l: Ledger, first: Entry, second: Entry, ticks: seq<Tick>,
                              between: seq<Event>, more: seq<Tick>)
    requires more != [] && (second.companyId, second.key) == (first.companyId, first.key)
    requires Attempts(digest, l, first, ticks).0.Recorded?
    ensures Attempts(digest, Crowd(digest, Attempts(digest, l, first, ticks).1, between), second, more).0 ==
            Recorded(Attempts(digest, l, first, ticks).0.event, false)
  {
    AttemptsAnswered(digest, l, first, ticks);
    var stored := Attempts(digest, l, first, ticks).1;
    CrowdKeepsKey(digest, stored, between, (first.companyId, first.key));
    EarlierEventWins(digest, Crowd(digest, stored, between), second, more);
  }

  // ------------------------------------------------------------------ who wrote under the key

  /** Nobody else offers an event under this key during the call. */
  predicate KeyUndisturbed(ticks: seq<Tick>, k: Key) {
    forall i :: 0 <= i < |ticks| ==> NoneUnder(ticks[i].earlier, k) && NoneUnder(ticks[i].rivals, k)
  }

  predicate NoneUnder(es: seq<Event>, k: Key) {
    forall e :: e in es ==> KeyOf(e) != k
  }

  lemma {:induction false} CrowdLeavesKey(digest: Digest, l: Ledger, es: seq<Event>, k: Key)
    requires NoneUnder(es, k)
    ensures k in Crowd(digest, l, es).byKey <==> k in l.byKey
  {
    if es != [] {
      CrowdLeavesKey(digest, l, es[..|es| - 1], k);
      AppendKeepsMaps(digest, Crowd(digest, l, es[..|es| - 1]), es[|es| - 1]);
      assert es[|es| - 1] in es;
    }
  }

  /** Main result: the call creates its event exactly when the key was free before it. */
  lemma {:induction false} CreatesExactlyOnFreeKey(digest: Digest, l: Ledger, entry: Entry, ticks: seq<Tick>)
    requires KeyUndisturbed(ticks, (entry.companyId, entry.key)) && Attempts(digest, l, entry, ticks).0.Recorded?
    ensures var a := Attempts(digest, l, entry, ticks).0; var k := (entry.companyId, entry.key);
            && (a.created <==> k !in l.byKey)
            && (if a.created then a.event.body.entry == entry else a.event == l.byKey[k])
    decreases |ticks|
  {
    var k := (entry.companyId, entry.key);
    if k in l.byKey {
      EarlierEventWins(digest, l, entry, ticks);
    } else {
      var read := Crowd(digest, l, ticks[0].earlier);
      var met := Crowd(digest, read, ticks[0].rivals);
      CrowdLeavesKey(digest, l, ticks[0].earlier, k);
      CrowdLeavesKey(digest, read, ticks[0].rivals, k);
      var e := Attempt(digest, read, entry, ticks[0]);
      if AppendResultOf(digest, met, e) == ChainConflict {
        AppendKeepsMaps(digest, met, e);
        CreatesExactlyOnFreeKey(digest, AfterAppend(digest, met, e), entry, ticks[1..]);
      }
    }
  }

  // ------------------------------------------------------------------ the class

  class DecisionService {
    const store: InMemoryLedgerStore

    constructor (store: InMemoryLedgerStore)
      ensures this.store == store
    {
      this.store := store;
    }

    /** Other writers' appends, one after another. */
    method LetOthersAppend(es: seq<Event>)
      modifies store
      ensures store.State() == Crowd(store.digest, old(store.State()), es)
    {
      for i := 0 to |es|
        invariant store.State() == Crowd(store.digest, old(store.State()), es[..i])
      {
        var r := store.Append(es[i]);
        assert es[..i + 1][..i] == es[..i];
      }
      assert es[..|es|] == es;
    }

    /** `_append_sealed`: eight attempts, each against a freshly read head. */
    method AppendSealed(entry: Entry, ticks: seq<Tick>) returns (a: Answer)
      requires |ticks| == MAX_ATTEMPTS
      modifies store
      ensures (a, store.State()) == Attempts(store.digest, old(store.State()), entry, ticks)
      ensures Answered(store.State(), entry, a) && Grows(old(store.State()), store.State())
      ensures FreshlySealed(store.digest, store.State(), entry.companyId, ticks, a)
      ensures old(Indexed(store.State())) ==> Indexed(store.State())
      ensures a.LedgerUnavailable? ==> |StreamOf(old(store.State()), entry.companyId)| + MAX_ATTEMPTS <=
                                       |StreamOf(store.State(), entry.companyId)|
    {
      hide AppendResultOf, Crowd, StreamOf, AfterAppend, HeadOf;
      ghost var all := Attempts(store.digest, store.State(), entry, ticks);
      AttemptsAnswered(store.digest, store.State(), entry, ticks);
      AttemptsSealed(store.digest, store.State(), entry, ticks);
      hide FreshlySealed;
      if all.0.LedgerUnavailable? { UnavailableMeansRivals(store.digest, store.State(), entry, ticks); }
      for k := 0 to MAX_ATTEMPTS
        invariant Attempts(store.digest, store.State(), entry, ticks[k..]) == all
      {
        LetOthersAppend(ticks[k].earlier);
        ghost var before := store.State();
        var prev := store.ChainHead(entry.companyId);
        var e := Seal(store.digest, Body(ticks[k].id, entry, ticks[k].now, prev));
        LetOthersAppend(ticks[k].rivals);
        assert e == Attempt(store.digest, before, entry, ticks[k]);
        assert ticks[k..][0] == ticks[k] && ticks[k..][1..] == ticks[k + 1..];
        var r := store.Append(e);
        match r {
          case Stored(event, created) => return Recorded(event, created);
          case Refused => return RefusedEvent;
          case ChainConflict =>
        }
      }
      assert ticks[MAX_ATTEMPTS..] == [];
      a := LedgerUnavailable;
    }

    /** `decide`; what others append after the key lookup comes before the first head read. */
    method Decide(lib: Lib, company: string, workflow: string, facts: map<string, Json>, actor: Actor, key: string,
                  bundle: Bundle, bundleHash: string, ticks: seq<Tick>) returns (a: Answer)
      requires ValidBundle(bundle) && LedgerOk(store.digest, store.State()) && |ticks| == MAX_ATTEMPTS
      modifies store
      ensures (company, key) in old(store.byKey) ==>
                a == Recorded(old(store.byKey)[(company, key)], false) && store.State() == old(store.State())
      ensures (company, key) !in old(store.byKey) ==>
                var ruling := Evaluate(lib, facts, bundle, workflow);
                if !ruling.Ruling? then a == NotEvaluated(ruling) && store.State() == old(store.State())
                else
                  var entry := DecisionEntry(company, workflow, facts, actor, key, ruling, bundleHash);
                  && (a, store.State()) == Attempts(store.digest, old(store.State()), entry, ticks)
                  && Answered(store.State(), entry, a)
                  && (a.Recorded? && a.created ==>
                        RecordsDecision(a.event.body, company, workflow, facts, actor, key, ruling, bundleHash))
      ensures FreshlySealed(store.digest, store.State(), company, ticks, a)
      ensures Grows(old(store.State()), store.State()) && Indexed(store.State())
      ensures a.Recorded? ==> (company, key) in store.byKey && store.byKey[(company, key)] == a.event
    {
      var existing := store.ByIdempotencyKey(company, key);
      if existing.Some? { return Recorded(existing.value, false); }
      var ruling := EvaluateFacts(lib, facts, bundle, workflow);
      if !ruling.Ruling? { return NotEvaluated(ruling); }
      a := AppendSealed(DecisionEntry(company, workflow, facts, actor, key, ruling, bundleHash), ticks);
    }

    /** `record_adjudication` */
    method RecordAdjudication(company: string, original: Event, actor: Actor, action: string, kind: string,
                              rationale: string, key: string, ticks: seq<Tick>) returns (a: Answer)
      requires |ticks| == MAX_ATTEMPTS
      modifies store
      ensures a.BlankRationale? <==> IsBlank(rationale)
      ensures IsBlank(rationale) ==> store.State() == old(store.State())
      ensures !IsBlank(rationale) ==>
                var entry := AdjudicationEntry(company, original, actor, action, kind, rationale, key);
                && (a, store.State()) == Attempts(store.digest, old(store.State()), entry, ticks)
                && Answered(store.State(), entry, a)
                && (a.Recorded? && a.created ==>
                      RecordsAdjudication(a.event.body, company, original, actor, action, kind, rationale, key))
      ensures FreshlySealed(store.digest, store.State(), company, ticks, a)
      ensures Grows(old(store.State()), store.State()) && (old(Indexed(store.State())) ==> Indexed(store.State()))
    {
      if IsBlank(rationale) { return BlankRationale; }
      a := AppendSealed(AdjudicationEntry(company, original, actor, action, kind, rationale, key), ticks);
    }
  }
}
