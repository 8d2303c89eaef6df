/** Ledger events and the hash chain (backend/ledger/events.py). */
module LedgerEvents {
  import opened Options
  import opened Schema
  import opened Judgement
  import opened Evaluator
  import opened Canonical

  datatype Actor = Actor(kind: string, id: string, apiKeyId: Option<string>)
  datatype EventType = DecisionType | AdjudicationType

  /** `outcome`: the evaluator's, or a human's ruling on an escalation. */
  datatype Ruled = ByPolicy(outcome: Outcome) | ByHuman(kind: string, action: string, rationale: string)
  datatype EventTrace = Derivation(trace: Trace) | Adjudicated(originalEventId: string, originalOutcome: Ruled)

  /** What a caller wants recorded; sealing adds id, time and predecessor. */
  datatype Entry = Entry(eventType: EventType, companyId: string, workflow: string, actor: Actor, key: string,
                         facts: map<string, Json>, outcome: Ruled, trace: EventTrace, bundleHash: string,
                         linked: Option<string>)
  datatype Body = Body(id: string, entry: Entry, createdAt: int, prev: Option<string>)
  datatype Event = Event(body: Body, hash: string)

  // ------------------------------------------------------------------ canonical form

  function NormalResult(r: ConditionResult): ConditionResult {
    r.(expected := if r.expected.One? then One(Normalize(r.expected.v)) else Many(NormalizeAll(r.expected.vs)),
       actual := if r.actual.Some? then Some(Normalize(r.actual.value)) else None)
  }

  function NormalEvaluation(e: PolicyEvaluation): PolicyEvaluation {
    e.(conditions := seq(|e.conditions|, i requires 0 <= i < |e.conditions| => NormalResult(e.conditions[i])))
  }

  function NormalEvaluations(es: seq<PolicyEvaluation>): (r: seq<PolicyEvaluation>)
    ensures |r| == |es| && forall i :: 0 <= i < |es| ==> r[i] == NormalEvaluation(es[i])
  {
    seq(|es|, i requires 0 <= i < |es| => NormalEvaluation(es[i]))
  }

  function NormalValues(values: map<string, Scalar>): map<string, Scalar> {
    map n | n in values :: Normalize(values[n])
  }

  function NormalTrace(t: EventTrace): EventTrace {
    if t.Derivation? then
      Derivation(t.trace.(factsSupplied := NormalFacts(t.trace.factsSupplied),
                          factsEffective := NormalValues(t.trace.factsEffective),
                          policies := NormalEvaluations(t.trace.policies)))
    else t
  }

  /** The body as `canonical_json` spells it: integral floats become ints everywhere. */
  function CanonicalBody(b: Body): Body {
    b.(entry := b.entry.(facts := NormalFacts(b.entry.facts), trace := NormalTrace(b.entry.trace)))
  }

  // ------------------------------------------------------------------ sealing

  type Digest = Body -> string

  /** `compute_hash` */
  function HashOf(digest: Digest, b: Body): string {
    "sha256:" + digest(CanonicalBody(b))
  }

  function Seal(digest: Digest, b: Body): Event {
    Event(b, HashOf(digest, b))
  }

  /** `verify()` */
  predicate Verifies(digest: Digest, e: Event) {
    e.hash != "" && e.hash == HashOf(digest, e.body)
  }

  ghost predicate Injective(digest: Digest) {
    forall x, y :: digest(x) == digest(y) ==> x == y
  }

  // ------------------------------------------------------------------ chains

  function HeadOf(s: seq<Event>): Option<string> {
    if s == [] then None else Some(s[|s| - 1].hash)
  }

  /** Every event verifies and names its predecessor's hash. */
  ghost predicate ChainOk(digest: Digest, s: seq<Event>) {
    s != [] ==>
      && ChainOk(digest, s[..|s| - 1])
      && Verifies(digest, s[|s| - 1]) && s[|s| - 1].body.prev == HeadOf(s[..|s| - 1])
  }

  lemma ChainExtends(digest: Digest, s: seq<Event>, e: Event)
    requires ChainOk(digest, s) && Verifies(digest, e) && e.body.prev == HeadOf(s)
    ensures ChainOk(digest, s + [e])
  {
    assert (s + [e])[..|s|] == s;
  }

  lemma {:induction false} ChainPrefix(digest: Digest, s: seq<Event>, n: nat)
    requires ChainOk(digest, s) && n <= |s|
    ensures ChainOk(digest, s[..n])
  {
    if n < |s| {
      ChainPrefix(digest, s[..|s| - 1], n);
      assert s[..|s| - 1][..n] == s[..n];
    } else {
      assert s[..n] == s;
    }
  }

  /** Same content: equal up to the spelling of integral numbers. */
  predicate SameContent(a: Event, b: Event) {
    CanonicalBody(a.body) == CanonicalBody(b.body) && a.hash == b.hash
  }

  /** Two verified streams with one head agree event for event in what is hashed; module ChainLaws says
      what that is. */
  lemma {:induction false} HeadFixesHistory(digest: Digest, s: seq<Event>, t: seq<Event>)
    requires Injective(digest) && ChainOk(digest, s) && ChainOk(digest, t) && HeadOf(s) == HeadOf(t)
    ensures |s| == |t| && forall i :: 0 <= i < |s| ==> SameContent(s[i], t[i])
  {
    if s != [] && t != [] {
      var a, b := s[|s| - 1], t[|t| - 1];
      assert a.hash[7..] == digest(CanonicalBody(a.body)) && b.hash[7..] == digest(CanonicalBody(b.body));
      assert a.body.prev == CanonicalBody(a.body).prev && b.body.prev == CanonicalBody(b.body).prev;
      HeadFixesHistory(digest, s[..|s| - 1], t[..|t| - 1]);
    }
  }

  /** `verify_chain`. */
  method VerifyStream(digest: Digest, stream: seq<Event>) returns (ok: bool)
    ensures ok <==> ChainOk(digest, stream)
  {
    var prev: Option<string> := None;
    for i := 0 to |stream|
      invariant ChainOk(digest, stream[..i]) && prev == HeadOf(stream[..i])
    {
      assert stream[..i + 1][..i] == stream[..i];
      if !Verifies(digest, stream[i]) || stream[i].body.prev != prev {
        BrokenPrefix(digest, stream, i + 1);
        return false;
      }
      prev := Some(stream[i].hash);
    }
    assert stream[..|stream|] == stream;
    ok := true;
  }

  lemma BrokenPrefix(digest: Digest, s: seq<Event>, n: nat)
    requires n <= |s| && !ChainOk(digest, s[..n])
    ensures !ChainOk(digest, s)
  {
    if ChainOk(digest, s) { ChainPrefix(digest, s, n); }
  }
}
