/** When the desk says what the ledger says. A resolved case names the event under its adjudication
    key; the words recorded with the case are the finishing ruling's, the event's are those of the
    call that created it, and the two need not be the same ruling. */
module Faithfulness {
  import opened Evaluator
  import opened Lifecycle
  import opened LedgerEvents
  import opened LedgerStores
  import opened LedgerProtocol
  import opened Escalations
  import opened Governance
  import opened Finality

  function KeyOfCase(k: (string, string)): Key {
    (k.0, AdjudicationKey(k.1))
  }

  /** The case's ledger event says these words. */
  predicate LedgerSays(s: State, k: (string, string), w: Words) {
    KeyOfCase(k) in s.system.ledger.byKey && Says(s.system.ledger.byKey[KeyOfCase(k)], w)
  }

  /** The resolution's words are those of the ledger event under the case's key. */
  predicate Faithful(s: State, k: (string, string)) {
    && k in s.desk.rows && s.desk.rows[k].resolution.Some?
    && LedgerSays(s, k, WordsOf(s.desk.rows[k].resolution.value))
  }

  // ------------------------------------------------------------------ one ruling finishes

  lemma ReturnedIsHeld(digest: Digest, s: System, n: nat)
    requires SystemOk(digest, s) && n in s.calls && s.calls[n].pc.Returned?
    ensures CallKey(s.calls[n]) in s.ledger.byKey && s.ledger.byKey[CallKey(s.calls[n])] == s.calls[n].pc.event
    ensures s.calls[n].pc.created ==> s.calls[n].pc.event.body.entry == s.calls[n].entry
  {
    assert CallOk(digest, s.ledger, s.calls[n]);
    ReturnedIsIndexed(digest, s.ledger, s.calls[n]);
  }

  lemma RulingCarries(env: Env, s: State, n: nat)
    requires GovOk(env, s) && n in s.resolving
    ensures n in s.system.calls && Conveys(s.system.calls[n].entry, s.resolving[n])
  {
    hide RegistryOk, SystemOk, BundlesValid, RunsGenuine, CallsLawful, DeskOk, RowsGrounded;
  }

  /** Main result: a ruling that finishes leaves a faithful case if and only if its call created the
      event, or the event that was there already says the same words. */
  lemma FinishIsFaithfulExactly(env: Env, s: State, a: Act, t: State)
    requires GovOk(env, s) && a.FinishResolve? && Next(env, s, a, t)
    ensures a.n in s.resolving && a.n in s.system.calls && s.system.calls[a.n].pc.Returned?
    ensures var c := s.resolving[a.n]; var k := RowKey(c.escalation);
            Faithful(t, k) <==> s.system.calls[a.n].pc.created || LedgerSays(s, k, Spoken(c))
  {
    hide GovOk, SystemOk;
    RulingCarries(env, s, a.n);
    SystemIsOk(env, s);
    ReturnedIsHeld(env.digest, s.system, a.n);
  }

  // ------------------------------------------------------------------ every continuation

  lemma KeyIsHeld(env: Env, s: State, states: seq<State>, acts: seq<Act>, k: (string, string))
    requires Resolvable(env, s, k) && Continues(env, s, states, acts)
    ensures var before, after := s.system.ledger.byKey, states[|acts|].system.ledger.byKey;
            KeyOfCase(k) in before && KeyOfCase(k) in after && after[KeyOfCase(k)] == before[KeyOfCase(k)]
  {
    hide GovOk, Next, KeepsRows, DeskGrows;
    KeyIsTaken(env, s, k);
    ContinuesWell(env, s, states, acts, |acts|);
    SystemIsOk(env, s);
    SystemIsOk(env, states[|acts|]);
    HeldEventStays(env.digest, s.system, states[|acts|].system, KeyOfCase(k));
  }

  lemma HeldEventStays(digest: Digest, s: System, t: System, key: Key)
    requires SystemOk(digest, s) && SystemOk(digest, t) && Grows(s.ledger, t.ledger) && key in s.ledger.byKey
    ensures key in t.ledger.byKey && t.ledger.byKey[key] == s.ledger.byKey[key]
  {
    hide SystemOk;
    IndexedUnderItsKey(digest, s, key);
    GrowsKeeps(s.ledger, t.ledger, key.0, s.ledger.byKey[key]);
    FiledUnderItsKey(digest, t, key.0, s.ledger.byKey[key]);
  }

  /** Every continuation ends with a faithful case. */
  ghost predicate StaysFaithful(env: Env, s: State, k: (string, string)) {
    forall states, acts :: Continues(env, s, states, acts) ==> Faithful(states[|acts|], k)
  }

  ghost predicate FaithfulVoices(s: State, k: (string, string)) {
    forall n :: RulingOn(s, k, n) ==> LedgerSays(s, k, Spoken(s.resolving[n]))
  }

  /** Main result: a resolved case agrees with the ledger for good if and only if it does now and every
      ruling on it still in flight says what the ledger says. */
  lemma StaysFaithfulExactly(env: Env, s: State, k: (string, string))
    requires Resolvable(env, s, k)
    ensures StaysFaithful(env, s, k) <==> Faithful(s, k) && FaithfulVoices(s, k)
  {
    hide GovOk, Next, RulingOn, Resolvable;
    if StaysFaithful(env, s, k) {
      assert Continues(env, s, [s], []);
      VoicesMustBeFaithful(env, s, k);
    } else {
      UnfaithfulSpeaks(env, s, k);
    }
  }

  lemma VoicesMustBeFaithful(env: Env, s: State, k: (string, string))
    requires Resolvable(env, s, k) && StaysFaithful(env, s, k)
    ensures FaithfulVoices(s, k)
  {
    hide GovOk, Next, CanReturn, Resolvable, Says;
    forall n | RulingOn(s, k, n) ensures LedgerSays(s, k, Spoken(s.resolving[n])) {
      InFlightCanStand(env, s, k, n);
      var states, acts :| Continues(env, s, states, acts) && Stands(states[|acts|], k, Spoken(s.resolving[n]));
      KeyIsHeld(env, s, states, acts, k);
      assert Faithful(states[|acts|], k);
    }
  }

  lemma UnfaithfulSpeaks(env: Env, s: State, k: (string, string))
    requires Resolvable(env, s, k) && !StaysFaithful(env, s, k)
    ensures !(Faithful(s, k) && FaithfulVoices(s, k))
  {
    hide GovOk, Next, CanReturn, Resolvable, Says;
    var states, acts :| Continues(env, s, states, acts) && !Faithful(states[|acts|], k);
    StaysResolvable(env, s, states, acts, k);
    var w := ResolvedHasWords(env, states[|acts|], k);
    KeyIsHeld(env, s, states, acts, k);
    assert CanStand(env, s, k, w);
    LastWordsExactly(env, s, k, w);
    if InFlightSays(s, k, w) {
      var n :| RulingSays(s, k, n, w);
      assert !LedgerSays(s, k, Spoken(s.resolving[n]));
    }
  }

  // ------------------------------------------------------------------ one voice per case

  /** Every act that starts a ruling on the case says these words. */
  ghost predicate OneVoice(acts: seq<Act>, k: (string, string), w: Words) {
    forall i :: 0 <= i < |acts| && acts[i].StartResolve? && (acts[i].company, acts[i].id) == k ==>
      Words(acts[i].action, acts[i].kind, acts[i].rationale, acts[i].resolver) == w
  }

  predicate EntrySays(e: Entry, w: Words) {
    e.outcome == ByHuman(w.kind, w.action, w.rationale) && e.actor == w.resolver
  }

  predicate RulesUnder(c: Call, k: (string, string)) {
    CallKey(c) == KeyOfCase(k) && c.entry.eventType == AdjudicationType
  }

  /** Whatever was said about the case so far was said in these words. */
  ghost predicate Unison(s: State, k: (string, string), w: Words) {
    && (forall n :: n in s.resolving && RowKey(s.resolving[n].escalation) == k ==> Spoken(s.resolving[n]) == w)
    && (forall n :: n in s.system.calls && RulesUnder(s.system.calls[n], k) ==> EntrySays(s.system.calls[n].entry, w))
    && (k in s.desk.rows && s.desk.rows[k].resolution.Some? ==> WordsOf(s.desk.rows[k].resolution.value) == w)
  }

  lemma SameKeySameCase(company: string, id: string, k: (string, string))
    requires (company, AdjudicationKey(id)) == KeyOfCase(k)
    ensures (company, id) == k
  {
    assert AdjudicationKey(id)[13..] == id && AdjudicationKey(k.1)[13..] == k.1;
  }

  lemma ResolveStartsInUnison(env: Env, s: State, a: Act, t: State, k: (string, string), w: Words)
    requires GovOk(env, s) && Unison(s, k, w) && a.StartResolve? && ResolveStarts(env, s, t, a)
    requires (a.company, a.id) == k ==> Words(a.action, a.kind, a.rationale, a.resolver) == w
    ensures Unison(t, k, w)
  {
    hide GovOk, DeskOk;
    DeskIsOk(env, s);
    RowAt(s.desk, (a.company, a.id));
    if CallKey(t.system.calls[a.n]) == KeyOfCase(k) { SameKeySameCase(a.company, a.id, k); }
  }

  lemma DecideStartsInUnison(env: Env, s: State, a: Act, t: State, k: (string, string), w: Words)
    requires Unison(s, k, w) && a.StartDecide? && DecideStarts(env, s, t, a)
    ensures Unison(t, k, w)
  {
    hide Evaluate, ActiveOf;
  }

  lemma LedgerStepInUnison(digest: Digest, s: State, step: Action, t: State, k: (string, string), w: Words)
    requires Unison(s, k, w) && !step.Begin? && t == s.(system := Take(digest, s.system, step))
    ensures Unison(t, k, w)
  {
    hide Take;
    StepKeepsEntries(digest, s.system, step);
  }

  lemma CaseOpensInUnison(s: State, a: Act, t: State, k: (string, string), w: Words)
    requires Unison(s, k, w) && a.OpenCase? && CaseOpens(s, t, a)
    ensures Unison(t, k, w)
  {
    hide ReasonFor;
  }

  lemma FinishInUnison(s: State, a: Act, t: State, k: (string, string), w: Words)
    requires Unison(s, k, w)
    requires (a.FinishResolve? && ResolveFinishes(s, t, a)) || (a.PromotionRaises? && PromotionFails(s, t, a))
    ensures Unison(t, k, w)
  {
  }

  lemma StepInUnison(env: Env, s: State, a: Act, t: State, k: (string, string), w: Words)
    requires GovOk(env, s) && Unison(s, k, w) && Next(env, s, a, t)
    requires a.StartResolve? && (a.company, a.id) == k ==> Words(a.action, a.kind, a.rationale, a.resolver) == w
    ensures Unison(t, k, w)
  {
    hide GovOk, DecideStarts, CaseOpens, ResolveStarts, PromotionFails, ResolveFinishes, RegistryStep, RunsStep, Take;
    match a {
      case StartDecide(_, _, _, _, _, _) => DecideStartsInUnison(env, s, a, t, k, w);
      case LedgerStep(step) => LedgerStepInUnison(env.digest, s, step, t, k, w);
      case OpenCase(_, _, _) => CaseOpensInUnison(s, a, t, k, w);
      case StartResolve(_, _, _, _, _, _, _, _) => ResolveStartsInUnison(env, s, a, t, k, w);
      case PromotionRaises(_) => FinishInUnison(s, a, t, k, w);
      case FinishResolve(_, _) => FinishInUnison(s, a, t, k, w);
      case _ =>
    }
  }

  lemma {:induction false} RunInUnison(env: Env, states: seq<State>, acts: seq<Act>, i: nat, k: (string, string),
                                       w: Words)
    requires Run(env, states, acts) && i <= |acts| && OneVoice(acts, k, w)
    ensures Unison(states[i], k, w)
  {
    hide GovOk, Next, Unison;
    if i == 0 {
      assert Unison(INITIAL, k, w) by { NothingSaid(k, w); }
    } else {
      RunInUnison(env, states, acts, i - 1, k, w);
      EveryRunIsGoverned(env, states, acts, i - 1);
      StepInUnison(env, states[i - 1], acts[i - 1], states[i], k, w);
    }
  }

  lemma NothingSaid(k: (string, string), w: Words)
    ensures Unison(INITIAL, k, w)
  {
  }

  /** Main result: while nobody contradicts anybody about a case, and no client key starts with
      "adjudication:", the case is settled by exactly the ruling that is on the ledger. */
  lemma OneVoiceIsFaithful(env: Env, states: seq<State>, acts: seq<Act>, k: (string, string), w: Words)
    requires Run(env, states, acts) && OneVoice(acts, k, w)
    requires forall j :: 0 <= j < |acts| && acts[j].StartDecide? ==> !Reserved(acts[j].key)
    requires k in states[|acts|].desk.rows && states[|acts|].desk.rows[k].status == Resolved
    ensures Faithful(states[|acts|], k)
  {
    hide GovOk, Next, SystemOk;
    var s := states[|acts|];
    RunInUnison(env, states, acts, |acts|, k, w);
    EveryRunIsGoverned(env, states, acts, |acts|);
    FreeKeys(env, states, acts, |acts|);
    ResolutionRulesUnlessKeyTaken(env, states, acts, k);
    SystemIsOk(env, s);
    var e := s.system.ledger.byKey[KeyOfCase(k)];
    IndexedUnderItsKey(env.digest, s.system, KeyOfCase(k));
    var n := EventHasCreator(env.digest, s.system, k.0, e);
    assert Reserved(AdjudicationKey(k.1));
  }
}
