/** Source snapshots and grounded citations (backend/onboarding/sources.py). */
module Sources {
  import opened Options
  import opened Schema

  datatype Snapshot = Snapshot(sourceId: string, companyId: string, filename: string, contentHash: string,
                               content: string, createdAt: Option<int>)
  type Snapshots = map<(string, string), Snapshot>

  function FirstTwelve(s: string): string {
    if |s| <= 12 then s else s[..12]
  }

  /** `make_snapshot`: the id is the start of the content's digest. */
  function MakeSnapshot(sha: string -> string, company: string, filename: string, content: string): Snapshot {
    Snapshot("src_" + FirstTwelve(sha(content)), company, filename, "sha256:" + sha(content), content, None)
  }

  /** The citation quotes a stored document exactly, by its id, version and offsets. */
  predicate Cited(rows: Snapshots, company: string, e: Evidence) {
    && (company, e.sourceId) in rows
    && var doc := rows[(company, e.sourceId)];
    && doc.sourceId == e.sourceId && doc.contentHash == e.sourceVersion
    && 0 <= e.spanStart < e.spanEnd <= |doc.content| && doc.content[e.spanStart..e.spanEnd] == e.excerpt
    && !IsBlank(e.excerpt)
  }

  predicate Quotes(doc: Snapshot, start: int, end: int, excerpt: string) {
    0 <= start < end <= |doc.content| && doc.content[start..end] == excerpt && !IsBlank(excerpt)
  }

  /** `ground_evidence`: a citation exactly when the excerpt is the text at those offsets; None is GroundingError. */
  method GroundEvidence(doc: Snapshot, start: int, end: int, excerpt: string) returns (e: Option<Evidence>)
    ensures e.Some? <==> Quotes(doc, start, end, excerpt)
    ensures e.Some? ==> e.value == Evidence(doc.sourceId, doc.contentHash, start, end, excerpt)
    ensures e.Some? ==> ValidEvidence(e.value)
                        && Cited(map[(doc.companyId, doc.sourceId) := doc], doc.companyId, e.value)
  {
    if start < 0 || end > |doc.content| || start >= end { return None; }
    var actual := doc.content[start..end];
    if actual != excerpt { return None; }
    if IsBlank(excerpt) { return None; }
    e := Some(Evidence(doc.sourceId, doc.contentHash, start, end, excerpt));
  }

  ghost predicate SnapshotsOk(sha: string -> string, rows: Snapshots) {
    forall k :: k in rows ==>
      && rows[k].companyId == k.0 && rows[k].sourceId == k.1 && rows[k].contentHash == "sha256:" + sha(rows[k].content)
      && rows[k].sourceId == "src_" + FirstTwelve(sha(rows[k].content))
  }

  ghost predicate KeepsSnapshots(before: Snapshots, after: Snapshots) {
    forall k :: k in before ==> k in after && after[k] == before[k]
  }

  lemma SameIdSamePrefix(a: string, b: string)
    ensures "src_" + a == "src_" + b ==> a == b
  {
    assert ("src_" + a)[4..] == a && ("src_" + b)[4..] == b;
  }

  /** Whose text an upload meets under its id. */
  lemma MetText(sha: string -> string, rows: Snapshots, company: string, content: string)
    requires SnapshotsOk(sha, rows)
    ensures var key := (company, "src_" + FirstTwelve(sha(content)));
            (key in rows ==> rows[key].content == content) <==>
              forall k :: k in rows && k.0 == company
                          && FirstTwelve(sha(rows[k].content)) == FirstTwelve(sha(content)) ==>
                          rows[k].content == content
  {
    hide FirstTwelve;
    var key := (company, "src_" + FirstTwelve(sha(content)));
    if key in rows { SameIdSamePrefix(FirstTwelve(sha(rows[key].content)), FirstTwelve(sha(content))); }
    forall k | k in rows && k.0 == company && FirstTwelve(sha(rows[k].content)) == FirstTwelve(sha(content))
      ensures k == key { }
  }

  class SourceStore {
    var rows: Snapshots

    constructor ()
      ensures rows == map[]
    {
      rows := map[];
    }

    /** `add`: a stored snapshot is never replaced. Uploading a text whose digest starts like
        no other stored text's keeps exactly that text. */
    method Add(sha: string -> string, company: string, filename: string, content: string, now: int)
      returns (r: Snapshot)
      requires SnapshotsOk(sha, rows)
      modifies this
      ensures SnapshotsOk(sha, rows) && KeepsSnapshots(old(rows), rows)
      ensures (company, r.sourceId) in rows && rows[(company, r.sourceId)] == r
      ensures rows.Keys == old(rows).Keys + {(company, "src_" + FirstTwelve(sha(content)))}
      ensures r.content == content <==>
                forall k :: k in old(rows) && k.0 == company
                            && FirstTwelve(sha(old(rows)[k].content)) == FirstTwelve(sha(content)) ==>
                            old(rows)[k].content == content
      ensures |sha(content)| >= 12 ==> r.sourceId == "src_" + sha(content)[..12]
      ensures (company, r.sourceId) in old(rows) ==> rows == old(rows)
      ensures (company, r.sourceId) !in old(rows) ==>
                && rows == old(rows)[(company, r.sourceId) := r] && r.companyId == company && r.filename == filename
                && r.contentHash == "sha256:" + sha(content) && r.content == content && r.createdAt == Some(now)
    {
      var snapshot := MakeSnapshot(sha, company, filename, content);
      var key := (company, snapshot.sourceId);
      MetText(sha, rows, company, content);
      if key in rows { return rows[key]; }
      r := snapshot.(createdAt := Some(now));
      rows := rows[key := r];
    }
  }
}
