/** The append-only ledger store (backend/ledger/store.py). */
module LedgerStores {
  import opened Options
  import opened LedgerEvents

  type Key = (string, string)

  /** Streams per company, with the idempotency and id indexes. */
  datatype Ledger = Ledger(streams: map<string, seq<Event>>, byKey: map<Key, Event>, byId: map<Key, Event>)

  function StreamOf(l: Ledger, company: string): seq<Event> {
    if company in l.streams then l.streams[company] else []
  }

  function KeyOf(e: Event): Key {
    (e.body.entry.companyId, e.body.entry.key)
  }

  function IdOf(e: Event): Key {
    (e.body.entry.companyId, e.body.id)
  }

  datatype AppendResult = Stored(event: Event, created: bool) | ChainConflict | Refused

  /** `append`, with its lock held: existing key first, then the head check. */
  function AppendResultOf(digest: Digest, l: Ledger, e: Event): AppendResult {
    if !Verifies(digest, e) then Refused
    else if KeyOf(e) in l.byKey then Stored(l.byKey[KeyOf(e)], false)
    else if e.body.prev != HeadOf(StreamOf(l, e.body.entry.companyId)) then ChainConflict
    else Stored(e, true)
  }

  /** `setdefault` leaves an empty stream behind even when the append then conflicts. */
  function AfterAppend(digest: Digest, l: Ledger, e: Event): Ledger {
    var company := e.body.entry.companyId;
    match AppendResultOf(digest, l, e)
    case Refused => l
    case ChainConflict => l.(streams := l.streams[company := StreamOf(l, company)])
    case Stored(_, created) =>
      if !created then l
      else Ledger(l.streams[company := StreamOf(l, company) + [e]], l.byKey[KeyOf(e) := e], l.byId[IdOf(e) := e])
  }

  // ------------------------------------------------------------------ the invariant

  ghost predicate Filed(l: Ledger, company: string, e: Event) {
    && e.body.entry.companyId == company
    && KeyOf(e) in l.byKey && l.byKey[KeyOf(e)] == e
    && IdOf(e) in l.byId && l.byId[IdOf(e)] == e
  }

  ghost predicate KeysDistinct(s: seq<Event>) {
    forall i, j :: 0 <= i < j < |s| ==> KeyOf(s[i]) != KeyOf(s[j])
  }

  ghost predicate StreamsChained(digest: Digest, l: Ledger) {
    forall c :: ChainOk(digest, StreamOf(l, c)) && KeysDistinct(StreamOf(l, c))
  }

  ghost predicate AllFiled(l: Ledger) {
    forall c, e :: e in StreamOf(l, c) ==> Filed(l, c, e)
  }

  ghost predicate Indexed(l: Ledger) {
    && (forall k :: k in l.byKey ==> KeyOf(l.byKey[k]) == k && l.byKey[k] in StreamOf(l, k.0))
    && (forall k :: k in l.byId ==> IdOf(l.byId[k]) == k && l.byId[k] in StreamOf(l, k.0))
  }

  /** Streams are verified chains without repeated keys, and both indexes agree with them. */
  ghost predicate LedgerOk(digest: Digest, l: Ledger) {
    StreamsChained(digest, l) && AllFiled(l) && Indexed(l)
  }

  /** Nothing stored is ever lost, changed or moved. */
  ghost predicate Grows(l: Ledger, m: Ledger) {
    forall c :: StreamOf(l, c) <= StreamOf(m, c)
  }

  lemma GrowsKeeps(l: Ledger, m: Ledger, c: string, e: Event)
    requires Grows(l, m) && e in StreamOf(l, c)
    ensures e in StreamOf(m, c)
  {
    assert StreamOf(m, c)[..|StreamOf(l, c)|] == StreamOf(l, c);
  }

  lemma GrowsTransitive(l: Ledger, m: Ledger, n: Ledger)
    requires Grows(l, m) && Grows(m, n)
    ensures Grows(l, n)
  {
    forall c ensures StreamOf(l, c) <= StreamOf(n, c) {
      assert StreamOf(l, c) <= StreamOf(m, c) <= StreamOf(n, c);
    }
  }

  predicate Creates(digest: Digest, l: Ledger, e: Event) {
    Verifies(digest, e) && KeyOf(e) !in l.byKey && e.body.prev == HeadOf(StreamOf(l, e.body.entry.companyId))
  }

  lemma AppendKeepsStream(digest: Digest, l: Ledger, e: Event, c: string)
    ensures StreamOf(AfterAppend(digest, l, e), c) ==
            StreamOf(l, c) + (if Creates(digest, l, e) && c == e.body.entry.companyId then [e] else [])
  {
  }

  lemma AppendGrows(digest: Digest, l: Ledger, e: Event)
    ensures Grows(l, AfterAppend(digest, l, e))
  {
    forall c ensures StreamOf(l, c) <= StreamOf(AfterAppend(digest, l, e), c) { AppendKeepsStream(digest, l, e, c); }
  }

  lemma NewKeyDistinct(s: seq<Event>, e: Event)
    requires KeysDistinct(s) && forall f :: f in s ==> KeyOf(f) != KeyOf(e)
    ensures KeysDistinct(s + [e])
  {
    forall i, j | 0 <= i < j < |s + [e]| ensures KeyOf((s + [e])[i]) != KeyOf((s + [e])[j]) {
      assert (s + [e])[i] in s;
    }
  }

  lemma AppendKeepsChains(digest: Digest, l: Ledger, e: Event)
    requires LedgerOk(digest, l)
    ensures StreamsChained(digest, AfterAppend(digest, l, e))
  {
    var m := AfterAppend(digest, l, e);
    forall c ensures ChainOk(digest, StreamOf(m, c)) && KeysDistinct(StreamOf(m, c)) {
      AppendKeepsStream(digest, l, e, c);
      var s := StreamOf(l, c);
      if Creates(digest, l, e) && c == e.body.entry.companyId {
        forall f | f in s ensures KeyOf(f) != KeyOf(e) { assert Filed(l, c, f); }
        NewKeyDistinct(s, e);
        ChainExtends(digest, s, e);
      } else {
        assert StreamOf(m, c) == s;
      }
    }
  }

  lemma AppendKeepsMaps(digest: Digest, l: Ledger, e: Event)
    ensures var m := AfterAppend(digest, l, e);
            && m.byKey == (if Creates(digest, l, e) then l.byKey[KeyOf(e) := e] else l.byKey)
            && m.byId == (if Creates(digest, l, e) then l.byId[IdOf(e) := e] else l.byId)
  {
  }

  lemma FiledStays(digest: Digest, l: Ledger, e: Event, c: string, f: Event)
    requires Filed(l, c, f) && IdOf(e) !in l.byId
    ensures Filed(AfterAppend(digest, l, e), c, f)
  {
    AppendKeepsMaps(digest, l, e);
  }

  lemma AppendKeepsFiled(digest: Digest, l: Ledger, e: Event)
    requires LedgerOk(digest, l) && IdOf(e) !in l.byId
    ensures AllFiled(AfterAppend(digest, l, e))
  {
    var m := AfterAppend(digest, l, e);
    forall c, f | f in StreamOf(m, c) ensures Filed(m, c, f) {
      AppendKeepsStream(digest, l, e, c);
      if f in StreamOf(l, c) {
        FiledStays(digest, l, e, c, f);
      } else {
        AppendKeepsMaps(digest, l, e);
      }
    }
  }

  lemma IndexStays(digest: Digest, l: Ledger, e: Event, c: string, f: Event)
    requires f in StreamOf(l, c)
    ensures f in StreamOf(AfterAppend(digest, l, e), c)
  {
    AppendKeepsStream(digest, l, e, c);
  }

  lemma AppendKeepsIndexes(digest: Digest, l: Ledger, e: Event)
    requires Indexed(l)
    ensures Indexed(AfterAppend(digest, l, e))
  {
    var m := AfterAppend(digest, l, e);
    AppendKeepsMaps(digest, l, e);
    AppendKeepsStream(digest, l, e, e.body.entry.companyId);
    forall k | k in m.byKey ensures KeyOf(m.byKey[k]) == k && m.byKey[k] in StreamOf(m, k.0) {
      if k in l.byKey && m.byKey[k] == l.byKey[k] { IndexStays(digest, l, e, k.0, l.byKey[k]); }
    }
    forall k | k in m.byId ensures IdOf(m.byId[k]) == k && m.byId[k] in StreamOf(m, k.0) {
      if k in l.byId && m.byId[k] == l.byId[k] { IndexStays(digest, l, e, k.0, l.byId[k]); }
    }
  }

  /** Every append of an event with a fresh id keeps the ledger consistent and growing. */
  lemma AppendKeeps(digest: Digest, l: Ledger, e: Event)
    requires LedgerOk(digest, l) && IdOf(e) !in l.byId
    ensures LedgerOk(digest, AfterAppend(digest, l, e)) && Grows(l, AfterAppend(digest, l, e))
  {
    AppendKeepsChains(digest, l, e);
    AppendKeepsFiled(digest, l, e);
    AppendKeepsIndexes(digest, l, e);
    AppendGrows(digest, l, e);
  }

  lemma AppendKeepsIfFresh(digest: Digest, l: Ledger, e: Event)
    ensures LedgerOk(digest, l) && IdOf(e) !in l.byId ==> LedgerOk(digest, AfterAppend(digest, l, e))
  {
    if LedgerOk(digest, l) && IdOf(e) !in l.byId { AppendKeeps(digest, l, e); }
  }

  lemma EmptyLedgerOk(digest: Digest)
    ensures LedgerOk(digest, Ledger(map[], map[], map[]))
  {
  }

  // ------------------------------------------------------------------ the class

  /** `append`, case by case on the indexes and the stream as they stand. */
  ghost predicate AppendsAs(digest: Digest, l: Ledger, e: Event, r: AppendResult, m: Ledger) {
    var company, s := e.body.entry.companyId, StreamOf(l, e.body.entry.companyId);
    var key := (company, e.body.entry.key);
    if e.hash == "" || e.hash != HashOf(digest, e.body) then r == Refused && m == l
    else if key in l.byKey then r == Stored(l.byKey[key], false) && m == l
    else if e.body.prev != (if s == [] then None else Some(s[|s| - 1].hash)) then
      && r == ChainConflict && m.byKey == l.byKey && m.byId == l.byId
      && forall c :: StreamOf(m, c) == StreamOf(l, c)
    else
      && r == Stored(e, true) && m.byKey == l.byKey[key := e] && m.byId == l.byId[(company, e.body.id) := e]
      && StreamOf(m, company) == s + [e] && forall c :: c != company ==> StreamOf(m, c) == StreamOf(l, c)
  }

  lemma AppendIsAs(digest: Digest, l: Ledger, e: Event)
    ensures AppendsAs(digest, l, e, AppendResultOf(digest, l, e), AfterAppend(digest, l, e))
  {
  }

  class InMemoryLedgerStore {
    const digest: Digest
    var events: map<string, seq<Event>>
    var byKey: map<Key, Event>
    var byId: map<Key, Event>

    constructor (d: Digest)
      ensures digest == d && State() == Ledger(map[], map[], map[]) && LedgerOk(d, State())
    {
      digest := d;
      events, byKey, byId := map[], map[], map[];
      new;
      EmptyLedgerOk(d);
    }

    function State(): Ledger
      reads this
    {
      Ledger(events, byKey, byId)
    }

    method Append(e: Event) returns (r: AppendResult)
      modifies this
      ensures r == AppendResultOf(digest, old(State()), e)
      ensures State() == AfterAppend(digest, old(State()), e) && Grows(old(State()), State())
      ensures AppendsAs(digest, old(State()), e, r, State())
      ensures old(LedgerOk(digest, State())) && IdOf(e) !in old(byId) ==> LedgerOk(digest, State())
    {
      hide LedgerOk, Grows, ChainOk;
      ghost var before := State();
      AppendGrows(digest, before, e);
      AppendKeepsIfFresh(digest, before, e);
      AppendIsAs(digest, before, e);
      hide AppendsAs;
      if !Verifies(digest, e) { return Refused; }
      var key := KeyOf(e);
      if key in byKey { return Stored(byKey[key], false); }
      var company := e.body.entry.companyId;
      var stream := if company in events then events[company] else [];
      events := events[company := stream];
      var expectedPrev := if stream != [] then Some(stream[|stream| - 1].hash) else None;
      if e.body.prev != expectedPrev { return ChainConflict; }
      events := events[company := stream + [e]];
      byKey := byKey[key := e];
      byId := byId[IdOf(e) := e];
      r := Stored(e, true);
    }

    method Get(company: string, id: string) returns (e: Option<Event>)
      requires LedgerOk(digest, State())
      ensures e.Some? ==> e.value in StreamOf(State(), company) && e.value.body.id == id
      ensures e.None? ==> forall f :: f in StreamOf(State(), company) ==> f.body.id != id
    {
      e := if (company, id) in byId then Some(byId[(company, id)]) else None;
      if e.None? {
        forall f | f in StreamOf(State(), company) ensures f.body.id != id { assert Filed(State(), company, f); }
      }
    }

    method ByIdempotencyKey(company: string, key: string) returns (e: Option<Event>)
      requires LedgerOk(digest, State())
      ensures e == if (company, key) in byKey then Some(byKey[(company, key)]) else None
      ensures e.Some? <==> exists f :: f in StreamOf(State(), company) && f.body.entry.key == key
    {
      e := if (company, key) in byKey then Some(byKey[(company, key)]) else None;
      if e.None? {
        forall f | f in StreamOf(State(), company) ensures f.body.entry.key != key {
          assert Filed(State(), company, f);
        }
      } else {
        assert KeyOf(e.value) == (company, key);
      }
    }

    method ChainHead(company: string) returns (h: Option<string>)
      ensures h == HeadOf(StreamOf(State(), company))
    {
      var stream := if company in events then events[company] else [];
      h := if stream != [] then Some(stream[|stream| - 1].hash) else None;
    }

    method VerifyChain(company: string) returns (ok: bool)
      ensures ok <==> ChainOk(digest, StreamOf(State(), company))
    {
      ok := VerifyStream(digest, if company in events then events[company] else []);
    }
  }
}
