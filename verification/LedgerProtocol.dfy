/** Any number of concurrent `decide` and `record_adjudication` calls on one ledger store.
    Reading the key index, reading the head and appending are separate atomic steps, taken in
    any order by any of the calls (backend/ledger/service.py, backend/ledger/store.py). */
module LedgerProtocol {
  import opened LedgerEvents
  import opened LedgerStores

  const MAX_ATTEMPTS: nat := 8

  /** Where a call stands. `attempts` counts the chain conflicts it has met. */
  datatype Pc =
    | Looking
    | Ready(attempts: nat)
    | Sealed(attempts: nat, event: Event)
    | Returned(event: Event, created: bool)
    | Aborted
    | Rejected

  /** `evaluates` is false when `evaluate` raises. `seen` and `lost` are histories: the length of
      the company's stream at each head read of the call, and at each append of it that met a conflict. */
  datatype Call = Call(entry: Entry, evaluates: bool, pc: Pc, seen: seq<nat>, lost: seq<nat>)

  datatype System = System(ledger: Ledger, calls: map<nat, Call>, ids: set<string>)

  /** One atomic step of one call. A decision starts by looking its key up, an adjudication
      starts ready; event ids are fresh. */
  datatype Action =
    | Begin(n: nat, entry: Entry, evaluates: bool, lookup: bool)
    | Lookup(n: nat)
    | ReadHead(n: nat, id: string, now: int)
    | TryAppend(n: nat)
    | GiveUp(n: nat)

  function CallKey(c: Call): Key {
    (c.entry.companyId, c.entry.key)
  }

  predicate Enabled(s: System, a: Action) {
    if a.Begin? then a.n !in s.calls && (a.lookup || a.evaluates)
    else a.n in s.calls && match a
      case Lookup(n) => s.calls[n].pc == Looking
      case ReadHead(n, id, _) => s.calls[n].pc.Ready? && s.calls[n].pc.attempts < MAX_ATTEMPTS && id !in s.ids
      case TryAppend(n) => s.calls[n].pc.Sealed?
      case GiveUp(n) => s.calls[n].pc.Ready? && s.calls[n].pc.attempts >= MAX_ATTEMPTS
      case Begin(_, _, _, _) => true
  }

  function At(s: System, n: nat, pc: Pc): System
    requires n in s.calls
  {
    s.(calls := s.calls[n := s.calls[n].(pc := pc)])
  }

  function SealedEvent(digest: Digest, s: System, c: Call, id: string, now: int): Event {
    Seal(digest, Body(id, c.entry, now, HeadOf(StreamOf(s.ledger, c.entry.companyId))))
  }

  function AfterTry(digest: Digest, l: Ledger, attempts: nat, e: Event): Pc {
    match AppendResultOf(digest, l, e)
    case Stored(stored, created) => Returned(stored, created)
    case ChainConflict => Ready(attempts + 1)
    case Refused => Rejected
  }

  /** The call after its append. */
  function Tried(digest: Digest, l: Ledger, c: Call): Call
    requires c.pc.Sealed?
  {
    var pc := AfterTry(digest, l, c.pc.attempts, c.pc.event);
    c.(pc := pc, lost := if pc.Ready? then c.lost + [|StreamOf(l, c.entry.companyId)|] else c.lost)
  }

  function Take(digest: Digest, s: System, a: Action): System {
    if !Enabled(s, a) then s else
    match a
    case Begin(n, entry, evaluates, lookup) =>
      s.(calls := s.calls[n := Call(entry, evaluates, if lookup then Looking else Ready(0), [], [])])
    case Lookup(n) =>
      var c := s.calls[n];
      At(s, n, if CallKey(c) in s.ledger.byKey then Returned(s.ledger.byKey[CallKey(c)], false)
               else if c.evaluates then Ready(0) else Rejected)
    case ReadHead(n, id, now) =>
      var c := s.calls[n];
      var read := Call(c.entry, c.evaluates, Sealed(c.pc.attempts, SealedEvent(digest, s, c, id, now)),
                       c.seen + [|StreamOf(s.ledger, c.entry.companyId)|], c.lost);
      System(s.ledger, s.calls[n := read], s.ids + {id})
    case TryAppend(n) =>
      var c := s.calls[n];
      System(AfterAppend(digest, s.ledger, c.pc.event), s.calls[n := Tried(digest, s.ledger, c)], s.ids)
    case GiveUp(n) => At(s, n, Aborted)
  }

  const EMPTY: System := System(Ledger(map[], map[], map[]), map[], {})

  /** The state after any sequence of steps; disabled ones change nothing. */
  function Reach(digest: Digest, actions: seq<Action>): System {
    if actions == [] then EMPTY else Take(digest, Reach(digest, actions[..|actions| - 1]), actions[|actions| - 1])
  }

  // ------------------------------------------------------------------ the invariant

  /** The call's attempts one after another: each head read comes after the conflict before it,
      and each conflict finds the stream longer than its own head read did. */
  ghost predicate RacesLost(seen: seq<nat>, lost: seq<nat>, length: nat) {
    && |lost| <= |seen| <= |lost| + 1
    && (forall i :: 0 <= i < |lost| ==> seen[i] < lost[i] <= length)
    && (forall i :: 0 < i < |seen| ==> lost[i - 1] <= seen[i])
    && (forall i :: 0 <= i < |seen| ==> seen[i] <= length)
  }

  /** A sealed event still waiting for its append, made from the head of a prefix. */
  ghost predicate Pending(digest: Digest, s: seq<Event>, c: Call, e: Event, at: nat) {
    && at <= |s| && Verifies(digest, e) && e.body.entry == c.entry && e.body.prev == HeadOf(s[..at])
  }

  ghost predicate CallOk(digest: Digest, l: Ledger, c: Call) {
    var s := StreamOf(l, c.entry.companyId);
    && (c.pc.Ready? || c.pc.Sealed? || (c.pc.Returned? && c.pc.created) ==> c.evaluates)
    && match c.pc
    case Looking => c.seen == [] && c.lost == []
    case Ready(k) => k <= MAX_ATTEMPTS && |c.seen| == |c.lost| == k && RacesLost(c.seen, c.lost, |s|)
    case Sealed(k, e) =>
      && k < MAX_ATTEMPTS && |c.seen| == k + 1 && |c.lost| == k && RacesLost(c.seen, c.lost, |s|)
      && Pending(digest, s, c, e, c.seen[k])
    case Returned(e, created) => e in s && KeyOf(e) == CallKey(c) && (created ==> e.body.entry == c.entry)
    case Aborted => |c.seen| == |c.lost| == MAX_ATTEMPTS && RacesLost(c.seen, c.lost, |s|)
    case Rejected => true
  }

  ghost predicate CallsOk(digest: Digest, l: Ledger, calls: map<nat, Call>) {
    forall n :: n in calls ==> CallOk(digest, l, calls[n])
  }

  /** Sealed events carry ids of their own, known to nobody else. */
  ghost predicate IdsApart(s: System) {
    && (forall k :: k in s.ledger.byId ==> k.1 in s.ids)
    && (forall n :: n in s.calls && s.calls[n].pc.Sealed? ==>
          s.calls[n].pc.event.body.id in s.ids && IdOf(s.calls[n].pc.event) !in s.ledger.byId)
    && (forall n, m :: n in s.calls && m in s.calls && n != m && s.calls[n].pc.Sealed? && s.calls[m].pc.Sealed? ==>
          s.calls[n].pc.event.body.id != s.calls[m].pc.event.body.id)
  }

  ghost predicate Created(calls: map<nat, Call>, n: nat, e: Event) {
    n in calls && calls[n].pc == Returned(e, true)
  }

  ghost predicate OneCreator(calls: map<nat, Call>) {
    forall n, m, e, f :: Created(calls, n, e) && Created(calls, m, f) && KeyOf(e) == KeyOf(f) ==> n == m
  }

  ghost predicate SomebodyCreated(calls: map<nat, Call>, e: Event) {
    exists n :: Created(calls, n, e)
  }

  ghost predicate EveryEventCreated(s: System) {
    forall c, e :: e in StreamOf(s.ledger, c) ==> SomebodyCreated(s.calls, e)
  }

  ghost predicate SystemOk(digest: Digest, s: System) {
    && LedgerOk(digest, s.ledger) && CallsOk(digest, s.ledger, s.calls) && IdsApart(s)
    && OneCreator(s.calls) && EveryEventCreated(s)
  }

  // ------------------------------------------------------------------ preservation

  lemma CallStays(digest: Digest, l: Ledger, m: Ledger, c: Call)
    requires CallOk(digest, l, c) && Grows(l, m)
    ensures CallOk(digest, m, c)
  {
    var s, t := StreamOf(l, c.entry.companyId), StreamOf(m, c.entry.companyId);
    assert s <= t;
    match c.pc {
      case Returned(e, _) => GrowsKeeps(l, m, c.entry.companyId, e);
      case Sealed(k, e) => assert t[..c.seen[k]] == s[..c.seen[k]];
      case _ =>
    }
  }

  /** A conflict means the stream has moved past the head this call read. */
  lemma ConflictLosesRace(digest: Digest, l: Ledger, c: Call)
    requires CallOk(digest, l, c) && c.pc.Sealed?
    requires AppendResultOf(digest, l, c.pc.event) == ChainConflict
    ensures var length := |StreamOf(l, c.entry.companyId)|; RacesLost(c.seen, c.lost + [length], length)
  {
    var s := StreamOf(l, c.entry.companyId);
    assert s[..|s|] == s;
    assert c.seen[c.pc.attempts] < |s|;
  }

  lemma TriedCallOk(digest: Digest, l: Ledger, c: Call)
    requires LedgerOk(digest, l) && CallOk(digest, l, c) && c.pc.Sealed?
    ensures CallOk(digest, AfterAppend(digest, l, c.pc.event), Tried(digest, l, c))
  {
    var e := c.pc.event;
    var m := AfterAppend(digest, l, e);
    AppendGrows(digest, l, e);
    AppendKeepsStream(digest, l, e, c.entry.companyId);
    match AppendResultOf(digest, l, e) {
      case Refused =>
      case ChainConflict => ConflictLosesRace(digest, l, c);
      case Stored(f, created) =>
        if !created { assert f in StreamOf(l, KeyOf(f).0); GrowsKeeps(l, m, c.entry.companyId, f); }
    }
  }

  lemma TryShape(digest: Digest, s: System, n: nat)
    requires n in s.calls && s.calls[n].pc.Sealed?
    ensures Take(digest, s, TryAppend(n)) ==
            System(AfterAppend(digest, s.ledger, s.calls[n].pc.event),
                s.calls[n := Tried(digest, s.ledger, s.calls[n])], s.ids)
  {
  }

  /** An append creates exactly when it stores the event its call sealed. */
  lemma TriedCreates(digest: Digest, l: Ledger, c: Call)
    requires c.pc.Sealed?
    ensures Creates(digest, l, c.pc.event) ==> Tried(digest, l, c).pc == Returned(c.pc.event, true)
    ensures forall e :: Tried(digest, l, c).pc == Returned(e, true) ==> e == c.pc.event && Creates(digest, l, e)
    ensures !Tried(digest, l, c).pc.Sealed?
  {
  }

  lemma TryKeepsIds(digest: Digest, s: System, n: nat)
    requires IdsApart(s) && n in s.calls && s.calls[n].pc.Sealed?
    ensures IdsApart(Take(digest, s, TryAppend(n)))
  {
    TryShape(digest, s, n);
    TriedCreates(digest, s.ledger, s.calls[n]);
    AppendKeepsMaps(digest, s.ledger, s.calls[n].pc.event);
  }

  /** Whoever created an event of a key, the key is in the index. */
  lemma CreatorHoldsKey(digest: Digest, l: Ledger, calls: map<nat, Call>, i: nat, e: Event)
    requires CallsOk(digest, l, calls) && AllFiled(l) && Created(calls, i, e)
    ensures KeyOf(e) in l.byKey
  {
    assert CallOk(digest, l, calls[i]);
    assert Filed(l, calls[i].entry.companyId, e);
  }

  /** An append that creates is the first for its key. */
  lemma TryKeepsOneCreator(digest: Digest, l: Ledger, calls: map<nat, Call>, n: nat)
    requires CallsOk(digest, l, calls) && AllFiled(l) && OneCreator(calls) && n in calls && calls[n].pc.Sealed?
    ensures OneCreator(calls[n := Tried(digest, l, calls[n])])
  {
    var after := calls[n := Tried(digest, l, calls[n])];
    TriedCreates(digest, l, calls[n]);
    forall i, j, e, f | Created(after, i, e) && Created(after, j, f) && KeyOf(e) == KeyOf(f) ensures i == j {
      if i != n { assert Created(calls, i, e); CreatorHoldsKey(digest, l, calls, i, e); }
      if j != n { assert Created(calls, j, f); CreatorHoldsKey(digest, l, calls, j, f); }
    }
  }

  lemma CreatorsStay(digest: Digest, l: Ledger, calls: map<nat, Call>, n: nat, e: Event)
    requires SomebodyCreated(calls, e) && n in calls && calls[n].pc.Sealed?
    ensures SomebodyCreated(calls[n := Tried(digest, l, calls[n])], e)
  {
    var m :| Created(calls, m, e);
    assert Created(calls[n := Tried(digest, l, calls[n])], m, e);
  }

  lemma TryKeepsCreators(digest: Digest, s: System, n: nat)
    requires EveryEventCreated(s) && n in s.calls && s.calls[n].pc.Sealed?
    ensures EveryEventCreated(Take(digest, s, TryAppend(n)))
  {
    TryShape(digest, s, n);
    var t := Take(digest, s, TryAppend(n));
    var sealed := s.calls[n].pc.event;
    forall c, e | e in StreamOf(t.ledger, c) ensures SomebodyCreated(t.calls, e) {
      AppendKeepsStream(digest, s.ledger, sealed, c);
      if e in StreamOf(s.ledger, c) {
        CreatorsStay(digest, s.ledger, s.calls, n, e);
      } else {
        TriedCreates(digest, s.ledger, s.calls[n]);
        assert Created(t.calls, n, e);
      }
    }
  }

  lemma TryKeepsCalls(digest: Digest, l: Ledger, calls: map<nat, Call>, n: nat)
    requires LedgerOk(digest, l) && CallsOk(digest, l, calls) && n in calls && calls[n].pc.Sealed?
    ensures CallsOk(digest, AfterAppend(digest, l, calls[n].pc.event), calls[n := Tried(digest, l, calls[n])])
  {
    var m := AfterAppend(digest, l, calls[n].pc.event);
    AppendGrows(digest, l, calls[n].pc.event);
    forall i | i in calls ensures CallOk(digest, m, calls[n := Tried(digest, l, calls[n])][i]) {
      assert CallOk(digest, l, calls[i]);
      if i == n { TriedCallOk(digest, l, calls[n]); } else { CallStays(digest, l, m, calls[i]); }
    }
  }

  lemma TryKeeps(digest: Digest, s: System, n: nat)
    requires SystemOk(digest, s) && n in s.calls && s.calls[n].pc.Sealed?
    ensures SystemOk(digest, Take(digest, s, TryAppend(n)))
  {
    TryShape(digest, s, n);
    AppendKeeps(digest, s.ledger, s.calls[n].pc.event);
    TryKeepsCalls(digest, s.ledger, s.calls, n);
    TryKeepsIds(digest, s, n);
    TryKeepsOneCreator(digest, s.ledger, s.calls, n);
    TryKeepsCreators(digest, s, n);
  }

  /** A step of one call that leaves the ledger alone and neither unmakes nor makes a creator. */
  ghost predicate QuietStep(s: System, n: nat, c: Call, ids: set<string>) {
    && s.ids <= ids
    && (n in s.calls ==> !(s.calls[n].pc.Returned? && s.calls[n].pc.created))
    && !(c.pc.Returned? && c.pc.created)
    && (c.pc.Sealed? ==> c.pc.event.body.id in ids && c.pc.event.body.id !in s.ids)
  }

  lemma QuietKeepsCreators(s: System, n: nat, c: Call, ids: set<string>)
    requires OneCreator(s.calls) && EveryEventCreated(s) && QuietStep(s, n, c, ids)
    ensures OneCreator(s.calls[n := c]) && EveryEventCreated(System(s.ledger, s.calls[n := c], ids))
  {
    var after := s.calls[n := c];
    forall i, e | Created(after, i, e) ensures Created(s.calls, i, e) { }
    forall x, e | e in StreamOf(s.ledger, x) ensures SomebodyCreated(after, e) {
      assert SomebodyCreated(s.calls, e);
      var i :| Created(s.calls, i, e);
      assert Created(after, i, e);
    }
  }

  lemma QuietKeepsIds(s: System, n: nat, c: Call, ids: set<string>)
    requires IdsApart(s) && QuietStep(s, n, c, ids)
    ensures IdsApart(System(s.ledger, s.calls[n := c], ids))
  {
  }

  lemma QuietKeeps(digest: Digest, s: System, n: nat, c: Call, ids: set<string>)
    requires SystemOk(digest, s) && QuietStep(s, n, c, ids) && CallOk(digest, s.ledger, c)
    ensures SystemOk(digest, System(s.ledger, s.calls[n := c], ids))
  {
    QuietKeepsCreators(s, n, c, ids);
    QuietKeepsIds(s, n, c, ids);
  }

  lemma ReadKeeps(digest: Digest, s: System, a: Action)
    requires SystemOk(digest, s) && a.ReadHead? && Enabled(s, a)
    ensures SystemOk(digest, Take(digest, s, a))
  {
    var c := s.calls[a.n];
    var stream := StreamOf(s.ledger, c.entry.companyId);
    assert CallOk(digest, s.ledger, c);
    assert stream[..|stream|] == stream;
    QuietKeeps(digest, s, a.n, Take(digest, s, a).calls[a.n], s.ids + {a.id});
  }

  lemma LookedUpOk(digest: Digest, s: System, n: nat)
    requires Indexed(s.ledger) && n in s.calls && s.calls[n].pc == Looking && CallOk(digest, s.ledger, s.calls[n])
    ensures CallOk(digest, s.ledger, Take(digest, s, Lookup(n)).calls[n])
  {
    var k := CallKey(s.calls[n]);
    if k in s.ledger.byKey { assert s.ledger.byKey[k] in StreamOf(s.ledger, k.0); }
  }

  lemma OtherStepKeeps(digest: Digest, s: System, a: Action)
    requires SystemOk(digest, s) && Enabled(s, a) && (a.Begin? || a.Lookup? || a.GiveUp?)
    ensures SystemOk(digest, Take(digest, s, a))
  {
    if !a.Begin? { assert CallOk(digest, s.ledger, s.calls[a.n]); }
    if a.Lookup? { LookedUpOk(digest, s, a.n); }
    QuietKeeps(digest, s, a.n, Take(digest, s, a).calls[a.n], s.ids);
  }

  lemma TakeKeeps(digest: Digest, s: System, a: Action)
    requires SystemOk(digest, s)
    ensures SystemOk(digest, Take(digest, s, a)) && Grows(s.ledger, Take(digest, s, a).ledger)
  {
    if Enabled(s, a) {
      if a.TryAppend? {
        TryKeeps(digest, s, a.n);
        AppendGrows(digest, s.ledger, s.calls[a.n].pc.event);
      } else if a.ReadHead? {
        ReadKeeps(digest, s, a);
      } else {
        OtherStepKeeps(digest, s, a);
      }
    }
  }

  /** Every event of a stream is the entry of the call that created it, and is filed. */
  lemma EventHasCreator(digest: Digest, s: System, company: string, e: Event) returns (n: nat)
    requires SystemOk(digest, s) && e in StreamOf(s.ledger, company)
    ensures Created(s.calls, n, e) && s.calls[n].evaluates && s.calls[n].entry == e.body.entry
            && Filed(s.ledger, company, e)
  {
    assert SomebodyCreated(s.calls, e);
    n :| Created(s.calls, n, e);
    assert CallOk(digest, s.ledger, s.calls[n]);
  }

  // ------------------------------------------------------------------ whole runs

  /** Main result: every interleaving keeps every company's stream verified, linked and free
      of repeated keys, in agreement with both indexes, with exactly one creator per event. */
  lemma {:induction false} EveryRunIsSafe(digest: Digest, actions: seq<Action>)
    ensures SystemOk(digest, Reach(digest, actions))
  {
    if actions == [] {
      EmptyLedgerOk(digest);
    } else {
      EveryRunIsSafe(digest, actions[..|actions| - 1]);
      TakeKeeps(digest, Reach(digest, actions[..|actions| - 1]), actions[|actions| - 1]);
    }
  }

  lemma NothingYetGrows(l: Ledger)
    ensures Grows(l, l)
  {
  }

  /** Streams only ever grow at the end. */
  lemma {:induction false} HistoryIsNeverRewritten(digest: Digest, actions: seq<Action>, more: seq<Action>)
    ensures Grows(Reach(digest, actions).ledger, Reach(digest, actions + more).ledger)
  {
    hide Take, SystemOk, Grows;
    if more == [] {
      assert actions + more == actions;
      NothingYetGrows(Reach(digest, actions).ledger);
    } else {
      var front := more[..|more| - 1];
      HistoryIsNeverRewritten(digest, actions, front);
      EveryRunIsSafe(digest, actions + front);
      assert (actions + more)[..|actions + more| - 1] == actions + front;
      TakeKeeps(digest, Reach(digest, actions + front), more[|more| - 1]);
      GrowsTransitive(Reach(digest, actions).ledger, Reach(digest, actions + front).ledger,
          Reach(digest, actions + more).ledger);
    }
  }

  /** Every event a caller was ever handed stays in the ledger through every later step. */
  lemma ReturnedEventsAreKept(digest: Digest, actions: seq<Action>, more: seq<Action>, n: nat)
    requires n in Reach(digest, actions).calls && Reach(digest, actions).calls[n].pc.Returned?
    ensures var c := Reach(digest, actions).calls[n];
            c.pc.event in StreamOf(Reach(digest, actions + more).ledger, c.entry.companyId)
  {
    var s := Reach(digest, actions);
    EveryRunIsSafe(digest, actions);
    HistoryIsNeverRewritten(digest, actions, more);
    assert CallOk(digest, s.ledger, s.calls[n]);
    GrowsKeeps(s.ledger, Reach(digest, actions + more).ledger, s.calls[n].entry.companyId, s.calls[n].pc.event);
  }

  /** Main result: every stored key was created by some call, ... */
  lemma EveryKeyHasACreator(digest: Digest, actions: seq<Action>, k: Key)
    requires k in Reach(digest, actions).ledger.byKey
    ensures SomebodyCreated(Reach(digest, actions).calls, Reach(digest, actions).ledger.byKey[k])
  {
    var s := Reach(digest, actions);
    EveryRunIsSafe(digest, actions);
    assert s.ledger.byKey[k] in StreamOf(s.ledger, k.0);
  }

  lemma ReturnedIsIndexed(digest: Digest, l: Ledger, c: Call)
    requires AllFiled(l) && CallOk(digest, l, c) && c.pc.Returned?
    ensures CallKey(c) in l.byKey && l.byKey[CallKey(c)] == c.pc.event
  {
    assert Filed(l, c.entry.companyId, c.pc.event);
  }

  /** ... and all callers sharing a key get the same event, exactly one of them as its creator. */
  lemma SameKeySameEvent(digest: Digest, actions: seq<Action>, n: nat, m: nat)
    requires n in Reach(digest, actions).calls && m in Reach(digest, actions).calls
    requires var calls := Reach(digest, actions).calls;
             calls[n].pc.Returned? && calls[m].pc.Returned? && CallKey(calls[n]) == CallKey(calls[m])
    ensures var calls := Reach(digest, actions).calls;
            && calls[n].pc.event == calls[m].pc.event
            && (calls[n].pc.created && calls[m].pc.created ==> n == m)
            && exists i :: i in calls && calls[i].pc == Returned(calls[n].pc.event, true)
  {
    var s := Reach(digest, actions);
    EveryRunIsSafe(digest, actions);
    ReturnedIsIndexed(digest, s.ledger, s.calls[n]);
    ReturnedIsIndexed(digest, s.ledger, s.calls[m]);
    EveryKeyHasACreator(digest, actions, CallKey(s.calls[n]));
    var i :| Created(s.calls, i, s.calls[n].pc.event);
    if s.calls[n].pc.created && s.calls[m].pc.created {
      assert Created(s.calls, n, s.calls[n].pc.event) && Created(s.calls, m, s.calls[n].pc.event);
    }
  }

  ghost predicate CreatedByAnother(calls: map<nat, Call>, n: nat, e: Event) {
    exists m :: m != n && Created(calls, m, e)
  }

  /** Main result: a call that ran out of attempts lost eight separate races: each time, between its
      head read and its own append, every event that reached the company's stream was another
      call's, and there was at least one. The eight stretches of the stream do not overlap. */
  lemma AbortMeansEightForeignAppends(digest: Digest, actions: seq<Action>, n: nat, i: nat)
    requires n in Reach(digest, actions).calls && Reach(digest, actions).calls[n].pc == Aborted && i < 8
    ensures var s := Reach(digest, actions); var c := s.calls[n]; var stream := StreamOf(s.ledger, c.entry.companyId);
            && |c.seen| == |c.lost| == 8
            && c.seen[i] < c.lost[i] <= |stream| && (i > 0 ==> c.lost[i - 1] <= c.seen[i])
            && forall at :: c.seen[i] <= at < c.lost[i] ==> CreatedByAnother(s.calls, n, stream[at])
  {
    var s := Reach(digest, actions);
    EveryRunIsSafe(digest, actions);
    var c := s.calls[n];
    var stream := StreamOf(s.ledger, c.entry.companyId);
    assert CallOk(digest, s.ledger, c);
    forall at | c.seen[i] <= at < c.lost[i] ensures CreatedByAnother(s.calls, n, stream[at]) {
      assert stream[at] in stream;
      assert SomebodyCreated(s.calls, stream[at]);
      var m :| Created(s.calls, m, stream[at]);
      assert m != n;
    }
  }

  /** Hence fewer than eight appends to the company since a call's first read never abort it. */
  lemma FewAppendsNeverAbort(digest: Digest, actions: seq<Action>, n: nat)
    requires n in Reach(digest, actions).calls
    requires var s := Reach(digest, actions); var c := s.calls[n];
             c.seen != [] && |StreamOf(s.ledger, c.entry.companyId)| < c.seen[0] + 8
    ensures Reach(digest, actions).calls[n].pc != Aborted
  {
    var s := Reach(digest, actions);
    if s.calls[n].pc == Aborted {
      EveryRunIsSafe(digest, actions);
      assert CallOk(digest, s.ledger, s.calls[n]);
      RacesAddUp(s.calls[n].seen, s.calls[n].lost, |StreamOf(s.ledger, s.calls[n].entry.companyId)|, 7);
    }
  }

  lemma {:induction false} RacesAddUp(seen: seq<nat>, lost: seq<nat>, length: nat, i: nat)
    requires RacesLost(seen, lost, length) && i < |lost|
    ensures seen[0] + i < lost[i]
  {
    if i > 0 { RacesAddUp(seen, lost, length, i - 1); }
  }
}
