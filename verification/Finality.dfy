/** What the desk may still come to say about a resolved case. Two rulings on one open case may be in
    flight at once: both find it open, both get the same ledger event, and the one that finishes
    last overwrites what the other wrote on the desk. */
module Finality {
  import opened Lifecycle
  import opened LedgerEvents
  import opened LedgerStores
  import opened LedgerProtocol
  import opened Escalations
  import opened Governance

  /** The call can still come back with an event. */
  predicate CanReturn(pc: Pc) {
    pc == Looking || pc.Returned? || pc.Sealed? || (pc.Ready? && pc.attempts < MAX_ATTEMPTS)
  }

  /** Another ruling on the case is in flight. */
  ghost predicate RulingOn(s: State, k: (string, string), n: nat) {
    n in s.resolving && RowKey(s.resolving[n].escalation) == k && n in s.system.calls && CanReturn(s.system.calls[n].pc)
  }

  ghost predicate InFlight(s: State, k: (string, string)) {
    exists n :: RulingOn(s, k, n)
  }

  /** The states of a continuation of `s`. */
  ghost predicate Continues(env: Env, s: State, states: seq<State>, acts: seq<Act>) {
    && |states| == |acts| + 1 && states[0] == s
    && forall i :: 0 <= i < |acts| ==> Next(env, states[i], acts[i], states[i + 1])
  }

  ghost predicate Keeps(s: State, k: (string, string), esc: Escalation) {
    k in s.desk.rows && s.desk.rows[k] == esc
  }

  ghost predicate Resolvable(env: Env, s: State, k: (string, string)) {
    GovOk(env, s) && k in s.desk.rows && s.desk.rows[k].status == Resolved
  }

  /** The row records these words. */
  predicate Worded(esc: Escalation, w: Words) {
    esc.resolution.Some? && WordsOf(esc.resolution.value) == w
  }

  ghost predicate Stands(s: State, k: (string, string), w: Words) {
    k in s.desk.rows && Worded(s.desk.rows[k], w)
  }

  /** Some continuation ends with these words on the desk. */
  ghost predicate CanStand(env: Env, s: State, k: (string, string), w: Words) {
    exists states, acts :: Continues(env, s, states, acts) && Stands(states[|acts|], k, w)
  }

  ghost predicate RulingSays(s: State, k: (string, string), n: nat, w: Words) {
    RulingOn(s, k, n) && Spoken(s.resolving[n]) == w
  }

  ghost predicate InFlightSays(s: State, k: (string, string), w: Words) {
    exists n :: RulingSays(s, k, n, w)
  }

  /** Every ruling in flight on the case says this. */
  ghost predicate Unanimous(s: State, k: (string, string), w: Words) {
    forall n :: RulingOn(s, k, n) ==> Spoken(s.resolving[n]) == w
  }

  /** No continuation changes the words of the row. */
  ghost predicate FinalWords(env: Env, s: State, k: (string, string), w: Words) {
    forall states, acts :: Continues(env, s, states, acts) ==> Stands(states[|acts|], k, w)
  }

  /** No continuation changes the row at all, its time of resolution included. */
  ghost predicate FinalRow(env: Env, s: State, k: (string, string)) {
    k in s.desk.rows &&
    forall states, acts :: Continues(env, s, states, acts) ==> Keeps(states[|acts|], k, s.desk.rows[k])
  }

  // ------------------------------------------------------------------ whatever comes was in flight

  /** The row is as it was, or says one of these things; whatever is in flight says one of them. */
  ghost predicate Closed(s: State, k: (string, string), esc: Escalation, ws: set<Words>) {
    && k in s.desk.rows && s.desk.rows[k].status == Resolved
    && (s.desk.rows[k] == esc || exists w :: w in ws && Worded(s.desk.rows[k], w))
    && forall n :: RulingOn(s, k, n) ==> Spoken(s.resolving[n]) in ws
  }

  /** A call that can no longer return never can again. */
  lemma DeadStaysDead(digest: Digest, s: System, a: Action, n: nat)
    requires n in s.calls && !CanReturn(s.calls[n].pc) && !a.Begin?
    ensures n in Take(digest, s, a).calls && !CanReturn(Take(digest, s, a).calls[n].pc)
  {
  }

  lemma LedgerStepKeepsClosed(env: Env, s: State, a: Act, t: State, k: (string, string), esc: Escalation,
                              ws: set<Words>)
    requires Closed(s, k, esc, ws) && a.LedgerStep? && Next(env, s, a, t)
    ensures Closed(t, k, esc, ws)
  {
    hide Take;
    StepKeepsEntries(env.digest, s.system, a.a);
    forall n | RulingOn(t, k, n) ensures Spoken(t.resolving[n]) in ws {
      if !RulingOn(s, k, n) { DeadStaysDead(env.digest, s.system, a.a, n); }
    }
  }

  lemma CasesHaveCalls(env: Env, s: State, n: nat)
    requires GovOk(env, s) && n in s.resolving
    ensures n in s.system.calls
  {
    hide RegistryOk, SystemOk, BundlesValid, RunsGenuine, CallsLawful, DeskOk, RowsGrounded;
  }

  lemma DeskIsOk(env: Env, s: State)
    requires GovOk(env, s)
    ensures DeskOk(s.desk)
  {
    hide RegistryOk, SystemOk, BundlesValid, RunsGenuine, CallsLawful, DeskOk, RowsGrounded, CasesOk;
  }

  /** A new call begins no ruling on the case. */
  lemma BeginKeepsClosed(s: State, n: nat, t: State, k: (string, string), esc: Escalation, ws: set<Words>)
    requires Closed(s, k, esc, ws) && n !in s.system.calls && t.desk == s.desk
    requires forall m :: m != n ==> (m in t.system.calls <==> m in s.system.calls)
    requires forall m :: m != n && m in s.system.calls ==> t.system.calls[m] == s.system.calls[m]
    requires forall m :: m != n ==> (m in t.resolving <==> m in s.resolving)
    requires forall m :: m != n && m in s.resolving ==> t.resolving[m] == s.resolving[m]
    requires n in t.resolving ==> RowKey(t.resolving[n].escalation) != k
    ensures Closed(t, k, esc, ws)
  {
    forall m | RulingOn(t, k, m) ensures Spoken(t.resolving[m]) in ws { assert RulingOn(s, k, m); }
  }

  lemma DecideKeepsClosed(env: Env, s: State, a: Act, t: State, k: (string, string), esc: Escalation, ws: set<Words>)
    requires GovOk(env, s) && Closed(s, k, esc, ws) && a.StartDecide? && Next(env, s, a, t)
    ensures Closed(t, k, esc, ws)
  {
    hide GovOk, ProposedEntry, Closed;
    if a.n in s.resolving { CasesHaveCalls(env, s, a.n); }
    BeginKeepsClosed(s, a.n, t, k, esc, ws);
  }

  lemma ResolveKeepsClosed(env: Env, s: State, a: Act, t: State, k: (string, string), esc: Escalation, ws: set<Words>)
    requires GovOk(env, s) && Closed(s, k, esc, ws) && a.StartResolve? && Next(env, s, a, t)
    ensures Closed(t, k, esc, ws)
  {
    hide GovOk, DeskOk;
    DeskIsOk(env, s);
    RowAt(s.desk, (a.company, a.id));
    BeginKeepsClosed(s, a.n, t, k, esc, ws);
  }

  /** A step that leaves the ledger and the row alone and starts no ruling. */
  lemma QuietKeepsClosed(s: State, t: State, k: (string, string), esc: Escalation, ws: set<Words>)
    requires Closed(s, k, esc, ws) && t.system == s.system && k in t.desk.rows && t.desk.rows[k] == s.desk.rows[k]
    requires forall n :: n in t.resolving ==> n in s.resolving && t.resolving[n] == s.resolving[n]
    ensures Closed(t, k, esc, ws)
  {
    forall n | RulingOn(t, k, n) ensures Spoken(t.resolving[n]) in ws { assert RulingOn(s, k, n); }
  }

  lemma OpenKeepsClosed(s: State, a: Act, t: State, k: (string, string), esc: Escalation, ws: set<Words>)
    requires Closed(s, k, esc, ws) && a.OpenCase? && CaseOpens(s, t, a)
    ensures Closed(t, k, esc, ws)
  {
    hide ReasonFor, Closed;
    assert k in s.desk.rows by { ClosedHasRow(s, k, esc, ws); }
    QuietKeepsClosed(s, t, k, esc, ws);
  }

  lemma ClosedHasRow(s: State, k: (string, string), esc: Escalation, ws: set<Words>)
    requires Closed(s, k, esc, ws)
    ensures k in s.desk.rows
  {
  }

  /** A ruling that finishes on the case was in flight, and says what it said. */
  lemma FinishKeepsClosed(s: State, a: Act, t: State, k: (string, string), esc: Escalation, ws: set<Words>)
    requires Closed(s, k, esc, ws) && a.FinishResolve? && ResolveFinishes(s, t, a)
    ensures Closed(t, k, esc, ws)
  {
    var c := s.resolving[a.n];
    if RowKey(c.escalation) == k {
      assert RulingOn(s, k, a.n);
      assert Worded(t.desk.rows[k], Spoken(c));
    }
    forall n | RulingOn(t, k, n) ensures Spoken(t.resolving[n]) in ws { assert RulingOn(s, k, n); }
  }

  lemma StepKeepsClosed(env: Env, s: State, a: Act, t: State, k: (string, string), esc: Escalation, ws: set<Words>)
    requires GovOk(env, s) && Closed(s, k, esc, ws) && Next(env, s, a, t)
    ensures Closed(t, k, esc, ws)
  {
    hide GovOk, Closed, DecideStarts, CaseOpens, ResolveStarts, ResolveFinishes, RegistryStep, RunsStep;
    ClosedHasRow(s, k, esc, ws);
    match a {
      case StartDecide(_, _, _, _, _, _) => DecideKeepsClosed(env, s, a, t, k, esc, ws);
      case LedgerStep(_) => LedgerStepKeepsClosed(env, s, a, t, k, esc, ws);
      case OpenCase(_, _, _) => OpenKeepsClosed(s, a, t, k, esc, ws);
      case StartResolve(_, _, _, _, _, _, _, _) => ResolveKeepsClosed(env, s, a, t, k, esc, ws);
      case FinishResolve(_, _) => FinishKeepsClosed(s, a, t, k, esc, ws);
      case _ => QuietKeepsClosed(s, t, k, esc, ws);
    }
  }

  lemma {:induction false} ContinuesWell(env: Env, s: State, states: seq<State>, acts: seq<Act>, i: nat)
    requires GovOk(env, s) && Continues(env, s, states, acts) && i <= |acts|
    ensures GovOk(env, states[i]) && Progress(s, states[i])
  {
    hide GovOk, Progress, Next;
    if i == 0 {
      ProgressReflexive(s);
    } else {
      ContinuesWell(env, s, states, acts, i - 1);
      NextKeeps(env, states[i - 1], acts[i - 1], states[i]);
      ProgressTransitive(s, states[i - 1], states[i]);
    }
  }

  lemma {:induction false} ClosedForGood(env: Env, s: State, states: seq<State>, acts: seq<Act>, i: nat,
                                         k: (string, string), esc: Escalation, ws: set<Words>)
    requires GovOk(env, s) && Closed(s, k, esc, ws) && Continues(env, s, states, acts) && i <= |acts|
    ensures Closed(states[i], k, esc, ws)
  {
    hide GovOk, Closed, Next;
    if i > 0 {
      ClosedForGood(env, s, states, acts, i - 1, k, esc, ws);
      ContinuesWell(env, s, states, acts, i - 1);
      StepKeepsClosed(env, states[i - 1], acts[i - 1], states[i], k, esc, ws);
    }
  }

  /** What the rulings in flight on the case say. */
  ghost function Voices(s: State, k: (string, string)): set<Words> {
    set n | n in s.resolving && RulingOn(s, k, n) :: Spoken(s.resolving[n])
  }

  lemma EndsClosed(env: Env, s: State, states: seq<State>, acts: seq<Act>, k: (string, string))
    requires Resolvable(env, s, k) && Continues(env, s, states, acts)
    ensures Closed(states[|acts|], k, s.desk.rows[k], Voices(s, k))
  {
    hide GovOk, Next;
    assert Closed(s, k, s.desk.rows[k], Voices(s, k));
    ClosedForGood(env, s, states, acts, |acts|, k, s.desk.rows[k], Voices(s, k));
  }

  // ------------------------------------------------------------------ whatever is in flight can come

  lemma {:induction false} LongerThanAll(ids: set<string>) returns (n: nat)
    ensures forall x :: x in ids ==> |x| < n
  {
    if ids == {} {
      n := 0;
    } else {
      var y :| y in ids;
      var m := LongerThanAll(ids - {y});
      n := if |y| < m then m else |y| + 1;
      forall x | x in ids ensures |x| < n { assert x == y || x in ids - {y}; }
    }
  }

  lemma SomeFreshId(ids: set<string>) returns (x: string)
    ensures x !in ids
  {
    var n := LongerThanAll(ids);
    x := seq(n, i => 'a');
  }

  /** A resolved case has an event under its adjudication key. */
  lemma KeyIsTaken(env: Env, s: State, k: (string, string))
    requires GovOk(env, s) && k in s.desk.rows && s.desk.rows[k].status == Resolved
    ensures (k.0, AdjudicationKey(k.1)) in s.system.ledger.byKey
  {
    hide RegistryOk, SystemOk, BundlesValid, RunsGenuine, CallsLawful, DeskOk, RowsGrounded, CasesOk;
    var e := ResolvedAt(s.system.ledger, s.desk, k);
    var n := EventHasCreator(env.digest, s.system, k.0, e);
  }

  lemma RulingKey(env: Env, s: State, k: (string, string), n: nat)
    requires GovOk(env, s) && RulingOn(s, k, n)
    ensures CallKey(s.system.calls[n]) == (k.0, AdjudicationKey(k.1))
  {
    hide RegistryOk, SystemOk, BundlesValid, RunsGenuine, CallsLawful, DeskOk, RowsGrounded, CasesOk;
    CaseAt(s.desk, s.system.calls, s.resolving, n);
  }

  lemma SealedVerifies(digest: Digest, s: System, n: nat)
    requires SystemOk(digest, s) && n in s.calls && s.calls[n].pc.Sealed?
    ensures var e := s.calls[n].pc.event; Verifies(digest, e) && KeyOf(e) == CallKey(s.calls[n])
  {
    assert CallOk(digest, s.ledger, s.calls[n]);
  }

  /** How many steps a ruling is from its event. */
  function Distance(pc: Pc): nat {
    if pc.Returned? then 0 else if pc.Ready? then 2 else 1
  }

  /** A call under a key that is taken has a step that brings it closer to its event. */
  lemma CallClosesIn(digest: Digest, s: System, n: nat) returns (step: Action)
    requires SystemOk(digest, s) && n in s.calls && CanReturn(s.calls[n].pc) && !s.calls[n].pc.Returned?
    requires CallKey(s.calls[n]) in s.ledger.byKey
    ensures !step.Begin? && n in Take(digest, s, step).calls
    ensures var pc := Take(digest, s, step).calls[n].pc; CanReturn(pc) && Distance(pc) < Distance(s.calls[n].pc)
  {
    hide SystemOk, SealedEvent;
    var pc := s.calls[n].pc;
    if pc.Ready? {
      var id := SomeFreshId(s.ids);
      step := ReadHead(n, id, 0);
    } else if pc.Sealed? {
      SealedVerifies(digest, s, n);
      step := TryAppend(n);
    } else {
      step := Lookup(n);
    }
  }

  /** The next step of a ruling in flight brings it closer to its event and touches nothing else. */
  lemma ClosesIn(env: Env, s: State, k: (string, string), n: nat) returns (a: Act, t: State)
    requires GovOk(env, s) && RulingOn(s, k, n) && !s.system.calls[n].pc.Returned?
    requires k in s.desk.rows && s.desk.rows[k].status == Resolved
    ensures Next(env, s, a, t) && GovOk(env, t) && t.desk == s.desk && t.resolving == s.resolving && RulingOn(t, k, n)
    ensures Distance(t.system.calls[n].pc) < Distance(s.system.calls[n].pc)
  {
    hide GovOk, SystemOk, Take, Distance, CanReturn;
    KeyIsTaken(env, s, k);
    RulingKey(env, s, k, n);
    SystemIsOk(env, s);
    var step := CallClosesIn(env.digest, s.system, n);
    a, t := LedgerStep(step), s.(system := Take(env.digest, s.system, step));
    NextKeeps(env, s, a, t);
  }

  lemma SystemIsOk(env: Env, s: State)
    requires GovOk(env, s)
    ensures SystemOk(env.digest, s.system)
  {
    hide RegistryOk, SystemOk, BundlesValid, RunsGenuine, CallsLawful, DeskOk, RowsGrounded, CasesOk;
  }

  /** A ruling with its event finishes and writes its words on the desk, at whatever time. */
  lemma FinishOverwrites(env: Env, s: State, k: (string, string), n: nat, now: int) returns (a: Act, t: State)
    requires RulingOn(s, k, n) && s.system.calls[n].pc.Returned?
    ensures Next(env, s, a, t) && Stands(t, k, Spoken(s.resolving[n]))
    ensures t.desk.rows[k].resolution.value.resolvedAt == now
  {
    a := FinishResolve(n, now);
    t := s.(desk := AfterUpdate(s.desk, SettledRow(s.resolving[n], s.system.calls[n].pc.event, now)),
            resolving := s.resolving - {n});
  }

  lemma ContinuesFrom(env: Env, s: State, a: Act, t: State, states: seq<State>, acts: seq<Act>)
    requires Next(env, s, a, t) && Continues(env, t, states, acts)
    ensures Continues(env, s, [s] + states, [a] + acts)
    ensures ([s] + states)[|[a] + acts|] == states[|acts|]
  {
    hide Next;
    var more, steps := [s] + states, [a] + acts;
    forall i | 0 <= i < |steps| ensures Next(env, more[i], steps[i], more[i + 1]) {
      if i > 0 { assert Next(env, states[i - 1], acts[i - 1], states[i]); }
    }
  }

  lemma {:induction false} RulingOverwrites(env: Env, s: State, k: (string, string), n: nat, now: int)
    returns (states: seq<State>, acts: seq<Act>)
    requires Resolvable(env, s, k) && RulingOn(s, k, n)
    ensures Continues(env, s, states, acts) && Stands(states[|acts|], k, Spoken(s.resolving[n]))
    ensures states[|acts|].desk.rows[k].resolution.value.resolvedAt == now
    decreases Distance(s.system.calls[n].pc)
  {
    hide GovOk, Next, RulingOn, Stands, Spoken;
    var a, t;
    RulingHasCall(s, k, n);
    if s.system.calls[n].pc.Returned? {
      a, t := FinishOverwrites(env, s, k, n, now);
      states, acts := [t], [];
    } else {
      a, t := ClosesIn(env, s, k, n);
      states, acts := RulingOverwrites(env, t, k, n, now);
    }
    ContinuesFrom(env, s, a, t, states, acts);
    states, acts := [s] + states, [a] + acts;
  }

  lemma RulingHasCall(s: State, k: (string, string), n: nat)
    requires RulingOn(s, k, n)
    ensures n in s.system.calls && n in s.resolving
  {
  }

  lemma CurrentStands(env: Env, s: State, k: (string, string), w: Words)
    requires Stands(s, k, w)
    ensures CanStand(env, s, k, w)
  {
    assert Continues(env, s, [s], []);
  }

  lemma InFlightCanStand(env: Env, s: State, k: (string, string), n: nat)
    requires Resolvable(env, s, k) && RulingOn(s, k, n)
    ensures CanStand(env, s, k, Spoken(s.resolving[n]))
  {
    hide GovOk, Next, RulingOn, Stands;
    RulingHasCall(s, k, n);
    var states, acts := RulingOverwrites(env, s, k, n, 0);
  }

  lemma OnlyVoicesStand(env: Env, s: State, k: (string, string), w: Words)
    requires Resolvable(env, s, k) && CanStand(env, s, k, w) && !Stands(s, k, w)
    ensures InFlightSays(s, k, w)
  {
    hide GovOk, Next, RulingOn;
    var states, acts :| Continues(env, s, states, acts) && Stands(states[|acts|], k, w);
    EndsClosed(env, s, states, acts, k);
    assert w in Voices(s, k);
    var n :| n in s.resolving && RulingOn(s, k, n) && Spoken(s.resolving[n]) == w;
    assert RulingSays(s, k, n, w);
  }

  /** Main result: the words a resolved case may end with are its present ones and those of the
      rulings on it that are still in flight, and each of them may. */
  lemma LastWordsExactly(env: Env, s: State, k: (string, string), w: Words)
    requires Resolvable(env, s, k)
    ensures CanStand(env, s, k, w) <==> Stands(s, k, w) || InFlightSays(s, k, w)
  {
    hide GovOk, RulingOn, Stands, CanStand;
    if Stands(s, k, w) {
      CurrentStands(env, s, k, w);
    } else if InFlightSays(s, k, w) {
      var n :| RulingSays(s, k, n, w);
      InFlightCanStand(env, s, k, n);
    } else if CanStand(env, s, k, w) {
      OnlyVoicesStand(env, s, k, w);
    }
  }

  lemma ResolvedHasWords(env: Env, s: State, k: (string, string)) returns (w: Words)
    requires Resolvable(env, s, k)
    ensures Stands(s, k, w)
  {
    hide GovOk;
    DeskIsOk(env, s);
    assert RowOk(s.desk, k, s.desk.rows[k]);
    w := WordsOf(s.desk.rows[k].resolution.value);
  }

  lemma StaysResolvable(env: Env, s: State, states: seq<State>, acts: seq<Act>, k: (string, string))
    requires Resolvable(env, s, k) && Continues(env, s, states, acts)
    ensures Resolvable(env, states[|acts|], k)
  {
    hide GovOk, Next;
    ContinuesWell(env, s, states, acts, |acts|);
  }

  /** Main result: what a person decided about a resolved case is final if and only if every other
      ruling on it that is still in flight says the same. */
  lemma WordsAreFinalExactly(env: Env, s: State, k: (string, string), w: Words)
    requires Resolvable(env, s, k) && Stands(s, k, w)
    ensures FinalWords(env, s, k, w) <==> Unanimous(s, k, w)
  {
    hide GovOk, Next, RulingOn, Resolvable;
    if Unanimous(s, k, w) {
      forall states, acts | Continues(env, s, states, acts) ensures Stands(states[|acts|], k, w) {
        StaysResolvable(env, s, states, acts, k);
        var v := ResolvedHasWords(env, states[|acts|], k);
        LastWordsExactly(env, s, k, v);
      }
    } else {
      Dissent(env, s, k, w);
    }
  }

  lemma Dissent(env: Env, s: State, k: (string, string), w: Words)
    requires Resolvable(env, s, k) && !Unanimous(s, k, w)
    ensures !FinalWords(env, s, k, w)
  {
    hide GovOk, Next, CanReturn, Resolvable;
    var n :| RulingOn(s, k, n) && Spoken(s.resolving[n]) != w;
    InFlightCanStand(env, s, k, n);
  }

  /** And the whole row is final, its time of resolution included, if and only if none is in flight. */
  lemma ResolutionIsFinalExactly(env: Env, s: State, k: (string, string))
    requires Resolvable(env, s, k)
    ensures FinalRow(env, s, k) <==> !InFlight(s, k)
  {
    hide GovOk, Next, RulingOn;
    var row := s.desk.rows[k];
    if InFlight(s, k) {
      var n :| RulingOn(s, k, n);
      var now := if row.resolution.Some? then row.resolution.value.resolvedAt + 1 else 0;
      var states, acts := RulingOverwrites(env, s, k, n, now);
    } else {
      forall states, acts | Continues(env, s, states, acts) ensures Keeps(states[|acts|], k, row) {
        EndsClosed(env, s, states, acts, k);
        assert Voices(s, k) == {};
      }
    }
  }

  /** Main result: whatever is overwritten, the event a resolution names never changes. */
  lemma NamedEventIsFinal(env: Env, states: seq<State>, acts: seq<Act>, i: nat, k: (string, string))
    requires Run(env, states, acts) && i <= |acts| && k in states[i].desk.rows
    requires states[i].desk.rows[k].status == Resolved
    ensures k in states[|acts|].desk.rows
    ensures var before, after := states[i].desk.rows[k].resolution, states[|acts|].desk.rows[k].resolution;
            before.Some? && after.Some? && after.value.adjudicationEventId == before.value.adjudicationEventId
  {
    hide GovOk, Next, RulesOn, DeskGrows, KeepsRows;
    NeverReopened(env, states, acts, i, |acts|, k);
    Prefix(env, states, acts, i);
    ResolutionRulesUnlessKeyTaken(env, states[..i + 1], acts[..i], k);
    ResolutionRulesUnlessKeyTaken(env, states, acts, k);
    RunsProgress(env, states, acts, i, |acts|);
    var key := (k.0, AdjudicationKey(k.1));
    var l, m := states[i].system.ledger, states[|acts|].system.ledger;
    GrowsKeeps(l, m, k.0, l.byKey[key]);
    EveryRunIsGoverned(env, states, acts, i);
    EveryRunIsGoverned(env, states, acts, |acts|);
    SystemIsOk(env, states[i]);
    SystemIsOk(env, states[|acts|]);
    IndexedUnderItsKey(env.digest, states[i].system, key);
    FiledUnderItsKey(env.digest, states[|acts|].system, k.0, l.byKey[key]);
  }

  lemma Prefix(env: Env, states: seq<State>, acts: seq<Act>, i: nat)
    requires Run(env, states, acts) && i <= |acts|
    ensures Run(env, states[..i + 1], acts[..i])
  {
    hide Next;
  }

  lemma IndexedUnderItsKey(digest: Digest, s: System, key: Key)
    requires SystemOk(digest, s) && key in s.ledger.byKey
    ensures KeyOf(s.ledger.byKey[key]) == key && s.ledger.byKey[key] in StreamOf(s.ledger, key.0)
  {
  }

  lemma FiledUnderItsKey(digest: Digest, s: System, company: string, e: Event)
    requires SystemOk(digest, s) && e in StreamOf(s.ledger, company)
    ensures KeyOf(e) in s.ledger.byKey && s.ledger.byKey[KeyOf(e)] == e
  {
    hide SystemOk;
    var n := EventHasCreator(digest, s, company, e);
  }
}
