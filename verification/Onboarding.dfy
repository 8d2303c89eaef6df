/** Onboarding drafts and their assembly into a bundle (backend/onboarding/service.py,
    backend/onboarding/drafts.py). */
module Onboarding {
  import opened Options
  import opened Schema
  import opened BundleIntegrity
  import opened Sources
  import opened Assembly

  /** A proposal is Policy-shaped JSON; one that does not even have the shape stays opaque. */
  datatype Proposal = Shaped(policy: Policy) | Malformed(text: string)

  datatype OnboardingDraft = OnboardingDraft(draftId: string, companyId: string, proposed: Proposal,
          evidence: seq<Evidence>, origin: string, sourceSkillId: Option<string>, status: string,
                                             publishable: bool, createdAt: int, updatedAt: int)
  type Drafts = map<(string, string), OnboardingDraft>

  /** `{**proposed, "evidence": [...]}` validated as a Policy. */
  function Candidate(proposed: Proposal, evidence: seq<Evidence>): (r: Option<Policy>)
    ensures r.Some? ==> ValidPolicy(r.value) && r.value.evidence == evidence
  {
    if proposed.Shaped? && ValidPolicy(proposed.policy.(evidence := evidence))
    then Some(proposed.policy.(evidence := evidence)) else None
  }

  /** `evaluate_draft`: no issues. */
  predicate Publishable(proposed: Proposal, evidence: seq<Evidence>) {
    evidence != [] && Candidate(proposed, evidence).Some?
  }

  /** The draft after one of its citations is removed; its status stays what it was. */
  function WithoutCitation(d: OnboardingDraft, index: nat, now: int): OnboardingDraft
    requires index < |d.evidence|
  {
    var evidence := d.evidence[..index] + d.evidence[index + 1..];
    d.(evidence := evidence, publishable := Publishable(d.proposed, evidence), updatedAt := now)
  }

  /** Main result: a publishable draft stays publishable without a citation exactly when it has others. */
  lemma LastCitationUnpublishes(d: OnboardingDraft, index: nat, now: int)
    requires Publishable(d.proposed, d.evidence) && index < |d.evidence|
    ensures WithoutCitation(d, index, now).publishable <==> |d.evidence| > 1
    ensures WithoutCitation(d, index, now).status == d.status
  {
    var evidence := d.evidence[..index] + d.evidence[index + 1..];
    forall e | e in evidence ensures e in d.evidence {
      if e !in d.evidence[..index] { assert e in d.evidence[index + 1..]; }
    }
    assert evidence == [] <==> |d.evidence| == 1;
  }

  /** When a proposal is publishable: it has the shape, a citation, and all the schema asks of a policy that cites
      these. */
  lemma PublishableExactly(proposed: Proposal, evidence: seq<Evidence>)
    ensures Publishable(proposed, evidence)
            <==> proposed.Shaped? && |evidence| > 0 && ValidPolicy(proposed.policy.(evidence := evidence))
  {
  }

  // ------------------------------------------------------------------ the invariant

  /** Filed under its own key, its flag says whether it would validate, and it cites only
      exact text of documents of its company. */
  ghost predicate DraftOk(sources: Snapshots, k: (string, string), d: OnboardingDraft) {
    && d.companyId == k.0 && d.draftId == k.1
    && d.publishable == Publishable(d.proposed, d.evidence)
    && forall e :: e in d.evidence ==> Cited(sources, k.0, e)
  }

  ghost predicate DraftsOk(sources: Snapshots, drafts: Drafts) {
    forall k :: k in drafts ==> DraftOk(sources, k, drafts[k])
  }

  lemma UploadsKeepDrafts(before: Snapshots, after: Snapshots, drafts: Drafts)
    requires DraftsOk(before, drafts) && KeepsSnapshots(before, after)
    ensures DraftsOk(after, drafts)
  {
    forall k | k in drafts ensures DraftOk(after, k, drafts[k]) { assert DraftOk(before, k, drafts[k]); }
  }

  predicate Accepted(d: OnboardingDraft, company: string) {
    d.companyId == company && d.status == "accepted"
  }

  ghost predicate NewestFirst(ds: seq<OnboardingDraft>) {
    forall i, j :: 0 <= i < j < |ds| ==> ds[i].draftId != ds[j].draftId && ds[i].updatedAt >= ds[j].updatedAt
  }

  /** The accepted drafts of a company, newest edit first, in any order among equal times. */
  ghost predicate ListsAccepted(drafts: Drafts, company: string, ds: seq<OnboardingDraft>) {
    && (forall d :: d in ds <==> exists k :: k in drafts && drafts[k] == d && Accepted(d, company))
    && NewestFirst(ds)
  }

  datatype DraftResult =
    Saved(draft: OnboardingDraft) | UnknownDraft | UnknownSource | GroundingError | BadIndex | NotPublishable
  datatype AssembleResult =
    Assembled(bundle: Bundle) | NothingAccepted | InvalidDraft | ClashingTypes | BrokenIntegrity(error: IntegrityError)

  // ------------------------------------------------------------------ newest first

  function InsertNewest(d: OnboardingDraft, ds: seq<OnboardingDraft>): (r: seq<OnboardingDraft>)
    ensures forall e :: e in r <==> e == d || e in ds
  {
    if ds == [] || d.updatedAt >= ds[0].updatedAt then [d] + ds
    else
      var rest := InsertNewest(d, ds[1..]);
      assert forall e :: e in ds <==> e == ds[0] || e in ds[1..];
      [ds[0]] + rest
  }

  lemma {:induction false} InsertNewestOrdered(d: OnboardingDraft, ds: seq<OnboardingDraft>)
    requires NewestFirst(ds) && forall e :: e in ds ==> e.draftId != d.draftId
    ensures NewestFirst(InsertNewest(d, ds))
  {
    if !(ds == [] || d.updatedAt >= ds[0].updatedAt) {
      var rest := InsertNewest(d, ds[1..]);
      InsertNewestOrdered(d, ds[1..]);
      forall e | e in rest ensures ds[0].draftId != e.draftId && ds[0].updatedAt >= e.updatedAt {
        if e != d {
          var i :| 0 <= i < |ds[1..]| && ds[1..][i] == e;
          assert ds[i + 1] == e;
        }
      }
    }
  }

  // ------------------------------------------------------------------ from drafts to a bundle

  /** The policies are the drafts' proposals under the drafts' own citations, one each. */
  ghost predicate PoliciesAre(ds: seq<OnboardingDraft>, ps: seq<Policy>) {
    |ps| == |ds| && forall i :: 0 <= i < |ds| ==> Candidate(ds[i].proposed, ds[i].evidence) == Some(ps[i])
  }

  predicate CitesOnly(sources: Snapshots, company: string, evidence: seq<Evidence>) {
    forall e :: e in evidence ==> Cited(sources, company, e)
  }

  /** What assembling these policies gives: a type clash, or a bundle, or an id or override error. */
  ghost predicate BundleResult(company: string, ps: seq<Policy>, r: AssembleResult) {
    && (r.ClashingTypes? <==> TypeClash(ps))
    && (r.Assembled? <==> !TypeClash(ps) && DistinctIds(ps) && (forall p :: p in ps ==> OverridesKnown(p, ps))
                          && AcyclicOverrides(ps))
    && (r.Assembled? ==> VocabularyOf(ps).Some? && r.bundle == AssembledBundle(company, ps) && ValidBundle(r.bundle))
    && (r.ClashingTypes? || r.Assembled? || r.BrokenIntegrity?)
  }

  lemma AcceptedIsOk(sources: Snapshots, drafts: Drafts, company: string, ds: seq<OnboardingDraft>, d: OnboardingDraft)
    requires DraftsOk(sources, drafts) && ListsAccepted(drafts, company, ds) && d in ds
    ensures d.publishable == Candidate(d.proposed, d.evidence).Some? && CitesOnly(sources, company, d.evidence)
  {
    var k :| k in drafts && drafts[k] == d && Accepted(d, company);
    assert DraftOk(sources, k, d);
  }

  /** The excerpt is the text between the offsets, in the stored document of that id and that content hash. */
  predicate QuotesStored(rows: Snapshots, company: string, e: Evidence) {
    && (company, e.sourceId) in rows && rows[(company, e.sourceId)].contentHash == e.sourceVersion
    && 0 <= e.spanStart < e.spanEnd <= |rows[(company, e.sourceId)].content|
    && rows[(company, e.sourceId)].content[e.spanStart..e.spanEnd] == e.excerpt
  }

  lemma CandidatesCite(sources: Snapshots, company: string, ds: seq<OnboardingDraft>, ps: seq<Policy>)
    requires PoliciesAre(ds, ps) && forall d :: d in ds ==> CitesOnly(sources, company, d.evidence)
    ensures forall p, e :: p in ps && e in p.evidence ==> Cited(sources, company, e)
  {
    hide Cited, ValidPolicy;
    forall p, e | p in ps && e in p.evidence ensures Cited(sources, company, e) {
      var i :| 0 <= i < |ps| && ps[i] == p;
      assert ds[i] in ds && p.evidence == ds[i].evidence;
    }
  }

  lemma AssembledPolicies(company: string, ps: seq<Policy>, r: AssembleResult)
    requires BundleResult(company, ps, r)
    ensures r.Assembled? ==> r.bundle.policies == ps && ValidBundle(r.bundle) && AssembledFor(company, ps, r.bundle)
    ensures !r.NothingAccepted? && !r.InvalidDraft?
  {
    hide ValidBundle, TypeClash, AcyclicOverrides, OverridesKnown, DistinctIds;
    if r.Assembled? { InferenceIsAccounted(ps); }
  }

  /** The bundle is the company's, of schema version 1, of these policies in their order, with the specs
      inferred from them. */
  ghost predicate AssembledFor(company: string, ps: seq<Policy>, b: Bundle) {
    b.schemaVersion == "1" && b.companyId == company && b.policies == ps && SpecsAccounted(ps, b.workflows)
  }

  method PoliciesOf(ds: seq<OnboardingDraft>) returns (r: Option<seq<Policy>>)
    ensures r.None? <==> exists d :: d in ds && Candidate(d.proposed, d.evidence).None?
    ensures r.Some? ==> PoliciesAre(ds, r.value) && forall p :: p in r.value ==> ValidPolicy(p)
  {
    var policies: seq<Policy> := [];
    for i := 0 to |ds|
      invariant PoliciesAre(ds[..i], policies)
      invariant forall p :: p in policies ==> ValidPolicy(p)
    {
      var candidate := Candidate(ds[i].proposed, ds[i].evidence);
      if candidate.None? {
        assert ds[i] in ds;
        return None;
      }
      policies := policies + [candidate.value];
    }
    assert ds[..|ds|] == ds;
    r := Some(policies);
  }

  /** Inference, then the bundle's own integrity check. */
  method BundleOf(company: string, ps: seq<Policy>) returns (r: AssembleResult)
    requires forall p :: p in ps ==> ValidPolicy(p)
    ensures BundleResult(company, ps, r)
  {
    hide ValidPolicy, TypeClash, AcyclicOverrides, OverridesKnown, DistinctIds, PolicyPlaced, ValidWorkflow,
        SpecsAccounted, WellPlaced, Reports, FirstFault;
    var ws := InferWorkflows(ps);
    FailsExactlyOnClash(ps);
    if ws.None? { return ClashingTypes; }
    var b := Bundle("1", company, ws.value, ps);
    AssemblyFailsOnlyOnIdsAndOverrides(company, ps);
    forall w | w in b.workflows ensures ValidWorkflow(w) { InferredWorkflowsValid(ps, w); }
    var err := Validate(b);
    r := if err.Some? then BrokenIntegrity(err.value) else Assembled(b);
  }

  // ------------------------------------------------------------------ an accepted draft without citations

  const DOC: Snapshot := Snapshot("src_1", "acme", "rules.txt", "sha256:1", "x", None)
  const ALWAYS: Policy := Policy("p", "w", Effect(Approve, "go"), 0, [], Authority(false, None), [], [], true, "")
  const CITED_DRAFT: OnboardingDraft :=
    OnboardingDraft("d", "acme", Shaped(ALWAYS), [Evidence("src_1", "sha256:1", 0, 1, "x")], "document", None,
                    "accepted", true, 0, 0)

  /** A concrete draft: accepted and publishable, then its only citation is removed; the company's only
      accepted draft is no longer publishable, so assembling fails on it. */
  lemma AcceptedWithoutCitations(ds: seq<OnboardingDraft>)
    requires ListsAccepted(map[("acme", "d") := WithoutCitation(CITED_DRAFT, 0, 1)], "acme", ds)
    ensures DraftOk(map[("acme", "src_1") := DOC], ("acme", "d"), CITED_DRAFT) && CITED_DRAFT.publishable
    ensures ds == [WithoutCitation(CITED_DRAFT, 0, 1)] && Accepted(ds[0], "acme") && !ds[0].publishable
  {
    assert CITED_DRAFT.evidence[0].excerpt[0] == 'x' && !IsSpace('x');
    assert Undotted("p") == "p" && Undotted("w") == "w";
    LastCitationUnpublishes(CITED_DRAFT, 0, 1);
    var drafts := map[("acme", "d") := WithoutCitation(CITED_DRAFT, 0, 1)];
    assert drafts[("acme", "d")] in ds;
    var last := ds[|ds| - 1];
    assert ds[0] in ds && last in ds;
  }

  class OnboardingService {
    const sources: SourceStore
    var drafts: Drafts

    constructor (sources: SourceStore)
      ensures this.sources == sources && drafts == map[] && DraftsOk(sources.rows, drafts)
    {
      this.sources := sources;
      drafts := map[];
    }

    /** `save_draft`: a new or replaced proposal, back in status draft, keeping its evidence. */
    method SaveDraft(company: string, proposed: Proposal, origin: string, skill: Option<string>,
                     draftId: Option<string>, freshId: string, now: int) returns (d: OnboardingDraft)
      requires DraftsOk(sources.rows, drafts) && (company, freshId) !in drafts
      modifies this`drafts
      ensures DraftsOk(sources.rows, drafts) && drafts == old(drafts)[(company, d.draftId) := d]
      ensures d.draftId == (if draftId.Some? && draftId.value != "" then draftId.value else freshId)
      ensures d.proposed == proposed && d.origin == origin && d.status == "draft" && d.updatedAt == now
      ensures if (company, d.draftId) in old(drafts)
              then d.evidence == old(drafts)[(company, d.draftId)].evidence
                  && d.createdAt == old(drafts)[(company, d.draftId)].createdAt
              else d.evidence == [] && d.createdAt == now
      ensures d.sourceSkillId == (if skill.Some? && skill.value != "" then skill
                                  else if (company, d.draftId) in old(drafts)
                                      then old(drafts)[(company, d.draftId)].sourceSkillId else None)
    {
      var given := draftId.Some? && draftId.value != "";
      var id := if given then draftId.value else freshId;
      var existing := if given && (company, id) in drafts then Some(drafts[(company, id)]) else None;
      if existing.Some? { assert DraftOk(sources.rows, (company, id), existing.value); }
      var evidence := if existing.Some? then existing.value.evidence else [];
      var skillId := if skill.Some? && skill.value != "" then skill
        else if existing.Some? then existing.value.sourceSkillId else None;
      d := OnboardingDraft(id, company, proposed, evidence, origin, skillId, "draft", Publishable(proposed, evidence),
          now, now);
      if existing.Some? { d := d.(createdAt := existing.value.createdAt); }
      drafts := drafts[(company, id) := d];
    }

    /** `ground_span`: attaches a citation exactly when the excerpt is the text at that span. */
    method GroundSpan(company: string, draftId: string, sourceId: string, start: int, end: int, excerpt: string,
                      now: int)
      returns (r: DraftResult)
      requires DraftsOk(sources.rows, drafts)
               && (forall k :: k in sources.rows ==>
                   sources.rows[k].companyId == k.0 && sources.rows[k].sourceId == k.1)
      modifies this`drafts
      ensures DraftsOk(sources.rows, drafts)
      ensures r == UnknownDraft <==> (company, draftId) !in old(drafts)
      ensures !r.Saved? ==> r == UnknownDraft || r == UnknownSource || r == GroundingError
      ensures r == UnknownSource <==> (company, draftId) in old(drafts) && (company, sourceId) !in sources.rows
      ensures r.Saved? <==> (company, draftId) in old(drafts) && (company, sourceId) in sources.rows &&
                            Quotes(sources.rows[(company, sourceId)], start, end, excerpt)
      ensures r.Saved? ==>
                var before := old(drafts)[(company, draftId)];
                var e := Evidence(sourceId, sources.rows[(company, sourceId)].contentHash, start, end, excerpt);
                && r.draft == before.(evidence := before.evidence + [e],
                                       publishable := r.draft.publishable, updatedAt := now)
                && drafts == old(drafts)[(company, draftId) := r.draft]
      ensures !r.Saved? ==> drafts == old(drafts)
    {
      if (company, draftId) !in drafts { return UnknownDraft; }
      var d := drafts[(company, draftId)];
      assert DraftOk(sources.rows, (company, draftId), d);
      if (company, sourceId) !in sources.rows { return UnknownSource; }
      var e := GroundEvidence(sources.rows[(company, sourceId)], start, end, excerpt);
      if e.None? { return GroundingError; }
      assert Cited(sources.rows, company, e.value);
      var evidence := d.evidence + [e.value];
      var updated := d.(evidence := evidence, publishable := Publishable(d.proposed, evidence), updatedAt := now);
      drafts := drafts[(company, draftId) := updated];
      r := Saved(updated);
    }

    /** `remove_evidence`; the status is left as it was. */
    method RemoveEvidence(company: string, draftId: string, index: int, now: int) returns (r: DraftResult)
      requires DraftsOk(sources.rows, drafts)
      modifies this`drafts
      ensures DraftsOk(sources.rows, drafts)
      ensures r == UnknownDraft <==> (company, draftId) !in old(drafts)
      ensures !r.Saved? ==> r == UnknownDraft || r == BadIndex
      ensures r.Saved? <==> (company, draftId) in old(drafts) && 0 <= index < |old(drafts)[(company, draftId)].evidence|
      ensures r.Saved? ==>
                var before := old(drafts)[(company, draftId)];
                && r.draft == WithoutCitation(before, index, now)
                && r.draft == before.(evidence := before.evidence[..index] + before.evidence[index + 1..],
                                      publishable := r.draft.publishable, updatedAt := now)
                && (before.publishable ==> (r.draft.publishable <==> |before.evidence| > 1))
                && drafts == old(drafts)[(company, draftId) := r.draft]
      ensures !r.Saved? ==> drafts == old(drafts)
    {
      if (company, draftId) !in drafts { return UnknownDraft; }
      var d := drafts[(company, draftId)];
      assert DraftOk(sources.rows, (company, draftId), d);
      if index < 0 || index >= |d.evidence| { return BadIndex; }
      var evidence := d.evidence[..index] + d.evidence[index + 1..];
      assert forall e :: e in evidence ==> e in d.evidence;
      if d.publishable { LastCitationUnpublishes(d, index, now); }
      var updated := d.(evidence := evidence, publishable := Publishable(d.proposed, evidence), updatedAt := now);
      drafts := drafts[(company, draftId) := updated];
      r := Saved(updated);
    }

    /** `set_status`: only a publishable draft becomes accepted. */
    method SetStatus(company: string, draftId: string, status: string, now: int) returns (r: DraftResult)
      requires DraftsOk(sources.rows, drafts)
      modifies this`drafts
      ensures DraftsOk(sources.rows, drafts)
      ensures r == UnknownDraft <==> (company, draftId) !in old(drafts)
      ensures r == NotPublishable <==>
                && (company, draftId) in old(drafts) && status == "accepted"
                && !Publishable(old(drafts)[(company, draftId)].proposed, old(drafts)[(company, draftId)].evidence)
      ensures r != UnknownDraft && r != NotPublishable ==>
                && r == Saved(old(drafts)[(company, draftId)].(status := status, updatedAt := now))
                && drafts == old(drafts)[(company, draftId) := r.draft]
      ensures !r.Saved? ==> drafts == old(drafts)
    {
      if (company, draftId) !in drafts { return UnknownDraft; }
      var d := drafts[(company, draftId)];
      assert DraftOk(sources.rows, (company, draftId), d);
      if status == "accepted" && !d.publishable { return NotPublishable; }
      var updated := d.(status := status, updatedAt := now);
      drafts := drafts[(company, draftId) := updated];
      r := Saved(updated);
    }

    /** `drafts.list(company, "accepted")` */
    method ListAccepted(company: string) returns (ds: seq<OnboardingDraft>)
      requires DraftsOk(sources.rows, drafts)
      ensures ListsAccepted(drafts, company, ds)
    {
      ds := [];
      var todo := drafts.Keys;
      while todo != {}
        invariant todo <= drafts.Keys && NewestFirst(ds)
        invariant forall d :: d in ds
                              <==> exists k :: k in drafts && k !in todo && drafts[k] == d && Accepted(d, company)
        decreases todo
      {
        var k :| k in todo;
        var d := drafts[k];
        assert DraftOk(sources.rows, k, d);
        if Accepted(d, company) {
          forall e | e in ds ensures e.draftId != d.draftId {
            var m :| m in drafts && m !in todo && drafts[m] == e && Accepted(e, company);
            assert DraftOk(sources.rows, m, e);
          }
          InsertNewestOrdered(d, ds);
          ds := InsertNewest(d, ds);
        }
        todo := todo - {k};
      }
    }

    /** `assemble_bundle`: each failure has its one reason, and success is a valid bundle of
        exactly the accepted drafts' policies, whose every citation quotes a stored document.
        A draft accepted earlier is no longer publishable once its citations are removed. */
    method Assemble(company: string) returns (r: AssembleResult, ghost ds: seq<OnboardingDraft>, ghost ps: seq<Policy>)
      requires DraftsOk(sources.rows, drafts)
      ensures ListsAccepted(drafts, company, ds)
      ensures r.NothingAccepted? <==> ds == []
      ensures r.InvalidDraft? <==> exists d :: d in ds && !d.publishable
      ensures !r.NothingAccepted? && !r.InvalidDraft? ==> PoliciesAre(ds, ps) && BundleResult(company, ps, r)
      ensures r.Assembled? ==> AssembledFor(company, ps, r.bundle)
      ensures r.Assembled? ==> forall p, e :: p in r.bundle.policies && e in p.evidence ==>
                                 QuotesStored(sources.rows, company, e)
      ensures r.Assembled? ==> ValidBundle(r.bundle) &&
                               forall p, e :: p in r.bundle.policies && e in p.evidence
                                   ==> Cited(sources.rows, company, e)
    {
      hide ValidBundle, BundleResult, ListsAccepted, ValidPolicy, AssembledFor;
      var accepted := ListAccepted(company);
      ds, ps := accepted, [];
      forall d | d in ds
        ensures d.publishable == Candidate(d.proposed, d.evidence).Some?
                && CitesOnly(sources.rows, company, d.evidence) {
        AcceptedIsOk(sources.rows, drafts, company, ds, d);
      }
      if accepted == [] { return NothingAccepted, ds, ps; }
      var policies := PoliciesOf(accepted);
      if policies.None? { return InvalidDraft, ds, ps; }
      ps := policies.value;
      forall d | d in ds ensures d.publishable {
        var i :| 0 <= i < |ds| && ds[i] == d;
        assert Candidate(ds[i].proposed, ds[i].evidence) == Some(ps[i]);
      }
      r := BundleOf(company, policies.value);
      CandidatesCite(sources.rows, company, ds, ps);
      AssembledPolicies(company, ps, r);
    }
  }
}
