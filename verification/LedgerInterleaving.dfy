/** The retry loop of the service and the concurrent protocol are the same thing: for every
    interleaving with other calls, what the protocol does to a call is what `_append_sealed`
    computes with the appends of those calls as its rivals. */
module LedgerInterleaving {
  import opened LedgerEvents
  import opened LedgerStores
  import opened LedgerProtocol
  import opened LedgerService

  function Steps(digest: Digest, s: System, acts: seq<Action>): System {
    if acts == [] then s else Take(digest, Steps(digest, s, acts[..|acts| - 1]), acts[|acts| - 1])
  }

  /** The events some steps offer to the store, in order. */
  function Offered(digest: Digest, s: System, acts: seq<Action>): seq<Event> {
    if acts == [] then [] else
    var front, a := acts[..|acts| - 1], acts[|acts| - 1];
    var t := Steps(digest, s, front);
    Offered(digest, s, front) + (if a.TryAppend? && Enabled(t, a) then [t.calls[a.n].pc.event] else [])
  }

  /** One round of a call: others, its head read, others, its append. */
  datatype Round = Round(earlier: seq<Action>, id: string, now: int, later: seq<Action>)

  predicate Others(acts: seq<Action>, n: nat) {
    forall i :: 0 <= i < |acts| ==> acts[i].n != n
  }

  function AtRead(digest: Digest, s: System, r: Round): System {
    Steps(digest, s, r.earlier)
  }

  function AtAppend(digest: Digest, s: System, n: nat, r: Round): System {
    Steps(digest, Take(digest, AtRead(digest, s, r), ReadHead(n, r.id, r.now)), r.later)
  }

  function AfterRound(digest: Digest, s: System, n: nat, r: Round): System {
    Take(digest, AtAppend(digest, s, n, r), TryAppend(n))
  }

  function TickOf(digest: Digest, s: System, n: nat, r: Round): Tick {
    Tick(Offered(digest, s, r.earlier), r.id, r.now,
         Offered(digest, Take(digest, AtRead(digest, s, r), ReadHead(n, r.id, r.now)), r.later))
  }

  predicate RoundOk(digest: Digest, s: System, n: nat, r: Round) {
    Others(r.earlier, n) && Others(r.later, n) && r.id !in AtRead(digest, s, r).ids
  }

  predicate IsReady(s: System, n: nat) {
    n in s.calls && s.calls[n].pc.Ready?
  }

  /** The protocol's run of one call: rounds until it is answered, giving up after the last. */
  function Serve(digest: Digest, s: System, n: nat, rounds: seq<Round>): System
    decreases |rounds|
  {
    if !IsReady(s, n) then s
    else if rounds == [] then Take(digest, s, GiveUp(n))
    else Serve(digest, AfterRound(digest, s, n, rounds[0]), n, rounds[1..])
  }

  function TicksOf(digest: Digest, s: System, n: nat, rounds: seq<Round>): seq<Tick>
    decreases |rounds|
  {
    if rounds == [] then [] else
    [TickOf(digest, s, n, rounds[0])] + TicksOf(digest, AfterRound(digest, s, n, rounds[0]), n, rounds[1..])
  }

  predicate RoundsOk(digest: Digest, s: System, n: nat, rounds: seq<Round>)
    decreases |rounds|
  {
    IsReady(s, n) && rounds != [] ==>
      RoundOk(digest, s, n, rounds[0]) && RoundsOk(digest, AfterRound(digest, s, n, rounds[0]), n, rounds[1..])
  }

  /** How a call's final state answers its caller. */
  predicate Answers(pc: Pc, a: Answer) {
    match pc
    case Returned(e, created) => a == Recorded(e, created)
    case Aborted => a == LedgerUnavailable
    case Rejected => a == RefusedEvent
    case _ => false
  }

  lemma TakeOffers(digest: Digest, s: System, a: Action)
    ensures Take(digest, s, a).ledger ==
            if a.TryAppend? && Enabled(s, a) then AfterAppend(digest, s.ledger, s.calls[a.n].pc.event) else s.ledger
  {
  }

  lemma TakeLeavesOthers(digest: Digest, s: System, a: Action, n: nat)
    requires n in s.calls && a.n != n
    ensures n in Take(digest, s, a).calls && Take(digest, s, a).calls[n] == s.calls[n]
  {
  }

  /** The ledger changes exactly by the offered events. */
  lemma {:induction false} StepsOffer(digest: Digest, s: System, acts: seq<Action>)
    ensures Steps(digest, s, acts).ledger == Crowd(digest, s.ledger, Offered(digest, s, acts))
  {
    hide Take;
    if acts != [] {
      var front, a := acts[..|acts| - 1], acts[|acts| - 1];
      var t := Steps(digest, s, front);
      StepsOffer(digest, s, front);
      TakeOffers(digest, t, a);
      if a.TryAppend? && Enabled(t, a) {
        var es := Offered(digest, s, front);
        assert (es + [t.calls[a.n].pc.event])[..|es|] == es;
      } else {
        assert Offered(digest, s, acts) == Offered(digest, s, front);
      }
    }
  }

  lemma {:induction false} StepsLeaveOthers(digest: Digest, s: System, acts: seq<Action>, n: nat)
    requires n in s.calls && Others(acts, n)
    ensures n in Steps(digest, s, acts).calls && Steps(digest, s, acts).calls[n] == s.calls[n]
  {
    hide Take;
    if acts != [] {
      var front := acts[..|acts| - 1];
      StepsLeaveOthers(digest, s, front, n);
      TakeLeavesOthers(digest, Steps(digest, s, front), acts[|acts| - 1], n);
    }
  }

  lemma ReadSeals(digest: Digest, s: System, n: nat, id: string, now: int)
    requires IsReady(s, n) && s.calls[n].pc.attempts < MAX_ATTEMPTS && id !in s.ids
    ensures var t := Take(digest, s, ReadHead(n, id, now));
            && t.ledger == s.ledger && n in t.calls && t.calls[n].entry == s.calls[n].entry
            && t.calls[n].pc == Sealed(s.calls[n].pc.attempts, SealedEvent(digest, s, s.calls[n], id, now))
  {
  }

  lemma TryResolves(digest: Digest, s: System, n: nat)
    requires n in s.calls && s.calls[n].pc.Sealed?
    ensures var t := Take(digest, s, TryAppend(n)); var e := s.calls[n].pc.event;
            && t.ledger == AfterAppend(digest, s.ledger, e) && n in t.calls && t.calls[n].entry == s.calls[n].entry
            && t.calls[n].pc == AfterTry(digest, s.ledger, s.calls[n].pc.attempts, e)
  {
  }

  /** One round is one attempt. */
  lemma RoundIsAttempt(digest: Digest, s: System, n: nat, r: Round)
    requires IsReady(s, n) && s.calls[n].pc.attempts < MAX_ATTEMPTS && RoundOk(digest, s, n, r)
    ensures var t := TickOf(digest, s, n, r); var entry := s.calls[n].entry;
            var read := Crowd(digest, s.ledger, t.earlier);
            var e := Attempt(digest, read, entry, t);
            var met := Crowd(digest, read, t.rivals);
            var after := AfterRound(digest, s, n, r);
            && after.ledger == AfterAppend(digest, met, e) && n in after.calls && after.calls[n].entry == entry
            && after.calls[n].pc == AfterTry(digest, met, s.calls[n].pc.attempts, e)
  {
    hide Take, Steps, Offered, Crowd, AfterAppend, AfterTry;
    var u := AtRead(digest, s, r);
    StepsOffer(digest, s, r.earlier);
    StepsLeaveOthers(digest, s, r.earlier, n);
    ReadSeals(digest, u, n, r.id, r.now);
    var v := Take(digest, u, ReadHead(n, r.id, r.now));
    StepsOffer(digest, v, r.later);
    StepsLeaveOthers(digest, v, r.later, n);
    TryResolves(digest, AtAppend(digest, s, n, r), n);
  }

  /** Main result: the loop computes what the protocol does, in every interleaving. */
  lemma {:induction false} RetryLoopIsTheProtocol(digest: Digest, s: System, n: nat, rounds: seq<Round>)
    requires IsReady(s, n) && s.calls[n].pc.attempts + |rounds| == MAX_ATTEMPTS && RoundsOk(digest, s, n, rounds)
    ensures var out := Attempts(digest, s.ledger, s.calls[n].entry, TicksOf(digest, s, n, rounds));
            var t := Serve(digest, s, n, rounds);
            t.ledger == out.1 && n in t.calls && Answers(t.calls[n].pc, out.0)
    decreases |rounds|
  {
    hide Steps, Offered, Crowd, AfterAppend, RoundOk, AfterRound, TickOf, Seal;
    if rounds != [] {
      var t := AfterRound(digest, s, n, rounds[0]);
      var ticks := TicksOf(digest, s, n, rounds);
      RoundIsAttempt(digest, s, n, rounds[0]);
      assert ticks[0] == TickOf(digest, s, n, rounds[0]) && ticks[1..] == TicksOf(digest, t, n, rounds[1..]);
      if IsReady(t, n) {
        RetryLoopIsTheProtocol(digest, t, n, rounds[1..]);
      }
    }
  }

  // ------------------------------------------------------------------ a key already used

  /** The call still has to look, or it has been answered with the stored event. */
  predicate AnswersFromIndex(s: System, n: nat, e: Event) {
    n in s.calls && CallKey(s.calls[n]) in s.ledger.byKey && s.ledger.byKey[CallKey(s.calls[n])] == e
    && (s.calls[n].pc == Looking || s.calls[n].pc == Returned(e, false)) && s.calls[n].seen == []
  }

  lemma StepAnswersFromIndex(digest: Digest, s: System, a: Action, n: nat, e: Event)
    requires AnswersFromIndex(s, n, e)
    ensures AnswersFromIndex(Take(digest, s, a), n, e)
    ensures a == Lookup(n) || s.calls[n].pc == Returned(e, false) ==>
              Take(digest, s, a).calls[n].pc == Returned(e, false)
  {
    if a.TryAppend? && Enabled(s, a) { AppendKeepsMaps(digest, s.ledger, s.calls[a.n].pc.event); }
  }

  /** Main result: a call that finds its key used is answered with the event stored under it, whatever others
      do; it never reads a head and never writes. */
  lemma {:induction false} UsedKeyIsAnswered(digest: Digest, s: System, acts: seq<Action>, n: nat)
    requires n in s.calls && s.calls[n].pc == Looking && s.calls[n].seen == []
    requires CallKey(s.calls[n]) in s.ledger.byKey
    ensures var e := s.ledger.byKey[CallKey(s.calls[n])]; var t := Steps(digest, s, acts);
            AnswersFromIndex(t, n, e) && (Lookup(n) in acts ==> t.calls[n].pc == Returned(e, false))
  {
    hide Take;
    var e := s.ledger.byKey[CallKey(s.calls[n])];
    if acts != [] {
      var front, a := acts[..|acts| - 1], acts[|acts| - 1];
      assert acts == front + [a];
      UsedKeyIsAnswered(digest, s, front, n);
      StepAnswersFromIndex(digest, Steps(digest, s, front), a, n, e);
    }
  }
}
