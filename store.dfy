/**
 * The job database operations (`JobOperations`) over the `jobs` table of a SQLite
 * database. The table is a sequence of rows in rowid order; each operation's effect is
 * a pure function of the rows, and `JobStore` applies them to its `rows` field.
 */
module Store {
  import opened Wrappers
  import opened Text
  import opened JobModel

  /** Why an insert or update of a row fails. */
  datatype DbError =
    | UnknownAttribute   // `Job(**data)` raises TypeError for a key that is not a column
    | IntegrityError     // the commit is refused: NOT NULL, unique key, or an unstorable value

  const SecondsPerDay: int := 86400

  // ---------------------------------------------------------------------------
  // The table

  /** The primary keys are distinct and positive, and no two rows share `(job_id, job_website)`. */
  predicate ValidRows(rows: seq<Job>) {
    (forall i :: 0 <= i < |rows| ==> rows[i].id >= 1) &&
    (forall i, k :: 0 <= i < k < |rows| ==> rows[i].id != rows[k].id && !SameKey(rows[i], rows[k]))
  }

  /** The largest primary key in the table, 0 when it is empty. */
  function MaxId(rows: seq<Job>): (m: nat)
    ensures forall i :: 0 <= i < |rows| ==> rows[i].id <= m
    ensures rows == [] ==> m == 0
  {
    if rows == [] then 0
    else
      var m := MaxId(rows[..|rows| - 1]);
      if rows[|rows| - 1].id > m then rows[|rows| - 1].id else m
  }

  /** SQLite's choice of rowid for an insert: one more than the largest in the table, 1 when empty. */
  function NewId(rows: seq<Job>): (id: nat)
    ensures id >= 1
    ensures forall i :: 0 <= i < |rows| ==> rows[i].id < id
  {
    MaxId(rows) + 1
  }

  /** The position of the row with natural key `(jobId, website)`, if any. */
  function FindKey(rows: seq<Job>, jobId: string, website: string): (r: Option<nat>)
    ensures r.Some? ==> r.value < |rows| && rows[r.value].jobId == jobId && rows[r.value].jobWebsite == website
    ensures r.None? <==> forall i :: 0 <= i < |rows| ==> !(rows[i].jobId == jobId && rows[i].jobWebsite == website)
  {
    if rows == [] then None
    else
      var last := rows[|rows| - 1];
      if last.jobId == jobId && last.jobWebsite == website then Some(|rows| - 1)
      else FindKey(rows[..|rows| - 1], jobId, website)
  }

  /** The position of the row with primary key `id`, if any. */
  function FindId(rows: seq<Job>, id: nat): (r: Option<nat>)
    ensures r.Some? ==> r.value < |rows| && rows[r.value].id == id
    ensures r.None? <==> forall i :: 0 <= i < |rows| ==> rows[i].id != id
  {
    if rows == [] then None
    else if rows[|rows| - 1].id == id then Some(|rows| - 1)
    else FindId(rows[..|rows| - 1], id)
  }

  /** In a valid table at most one row carries a given natural key. */
  lemma FindKeyUnique(rows: seq<Job>, jobId: string, website: string, i: nat)
    requires ValidRows(rows)
    requires i < |rows| && rows[i].jobId == jobId && rows[i].jobWebsite == website
    ensures FindKey(rows, jobId, website) == Some(i)
  {
    var r := FindKey(rows, jobId, website);
    assert r.Some?;
    if r.value != i {
      if r.value < i { assert SameKey(rows[r.value], rows[i]); } else { assert SameKey(rows[i], rows[r.value]); }
    }
  }

  /** In a valid table the primary key of a row finds that row. */
  lemma FindIdUnique(rows: seq<Job>, i: nat)
    requires ValidRows(rows) && i < |rows|
    ensures FindId(rows, rows[i].id) == Some(i)
  {
    var r := FindId(rows, rows[i].id);
    assert r.Some?;
  }

  // ---------------------------------------------------------------------------
  // Queries

  /** The rows satisfying `p`, in table order. */
  function Where(rows: seq<Job>, p: Job -> bool): (r: seq<Job>)
    ensures |r| <= |rows|
    ensures forall j :: j in r <==> j in rows && p(j)
  {
    if rows == [] then []
    else
      var init := Where(rows[..|rows| - 1], p);
      var last := rows[|rows| - 1];
      assert rows == rows[..|rows| - 1] + [last];
      if p(last) then init + [last] else init
  }

  /** Only the rows satisfying `p` are kept; the table stays valid. */
  lemma {:induction false} WhereValid(rows: seq<Job>, p: Job -> bool)
    requires ValidRows(rows)
    ensures ValidRows(Where(rows, p))
  {
    if rows != [] {
      var pre := rows[..|rows| - 1];
      var last := rows[|rows| - 1];
      assert ValidRows(pre);
      WhereValid(pre, p);
      var init := Where(pre, p);
      if p(last) {
        forall i | 0 <= i < |init|
          ensures init[i].id != last.id && !SameKey(init[i], last)
        {
          assert init[i] in pre;
          var k :| 0 <= k < |pre| && pre[k] == init[i];
          assert rows[k] == init[i];
        }
        var r := init + [last];
        assert Where(rows, p) == r;
        forall i, k | 0 <= i < k < |r|
          ensures r[i].id != r[k].id && !SameKey(r[i], r[k])
        {
          if k < |init| { assert r[i] == init[i] && r[k] == init[k]; }
        }
      }
    }
  }

  function Count(rows: seq<Job>, p: Job -> bool): (n: nat)
    ensures n <= |rows|
  {
    |Where(rows, p)|
  }

  /** `get_new_jobs_since`: the rows still flagged new and scraped at or after `since`. */
  function NewJobsSince(rows: seq<Job>, since: int): (r: seq<Job>)
    ensures forall j :: j in r <==> j in rows && j.isNew && j.whenScraped >= since
  {
    Where(rows, (j: Job) => j.isNew && j.whenScraped >= since)
  }

  /**
   * `get_jobs_by_website`: the rows of one site; a truthy `limit` keeps only the first
   * `limit` of them (SQLite's `LIMIT` with a negative count keeps them all).
   */
  function JobsByWebsite(rows: seq<Job>, website: string, limit: Option<int>): (r: seq<Job>)
    ensures forall j :: j in r ==> j in rows && j.jobWebsite == website
    ensures (limit.None? || limit.value <= 0) ==> forall j :: j in rows && j.jobWebsite == website ==> j in r
    ensures limit.Some? && limit.value > 0 ==> |r| <= limit.value
    ensures limit.Some? && limit.value > 0 && Count(rows, (j: Job) => j.jobWebsite == website) <= limit.value ==>
      forall j :: j in rows && j.jobWebsite == website ==> j in r
    ensures |r| == if limit.Some? && 0 < limit.value < CountSite(rows, website) then limit.value else CountSite(rows, website)
  {
    var all := Where(rows, (j: Job) => j.jobWebsite == website);
    if limit.Some? && limit.value > 0 && limit.value < |all| then
      var r := all[..limit.value];
      assert forall j :: j in r ==> j in all by {
        forall j | j in r ensures j in all {
          var k :| 0 <= k < |r| && r[k] == j;
          assert all[k] == j;
        }
      }
      r
    else all
  }

  /** `get_unprocessed_relevant_jobs`: rows marked relevant whose documents are not yet generated. */
  function UnprocessedRelevant(rows: seq<Job>): (r: seq<Job>)
    ensures forall j :: j in r <==> j in rows && j.isRelevant && !j.isProcessed
  {
    Where(rows, (j: Job) => j.isRelevant && !j.isProcessed)
  }

  // ---------------------------------------------------------------------------
  // Statistics

  /** The number of rows from one site. */
  function CountSite(rows: seq<Job>, site: string): nat {
    Count(rows, (j: Job) => j.jobWebsite == site)
  }

  /** The rows whose site lies in `sites`. */
  function CountIn(rows: seq<Job>, sites: set<string>): (n: nat)
    ensures n <= |rows|
  {
    if rows == [] then 0
    else CountIn(rows[..|rows| - 1], sites) + (if rows[|rows| - 1].jobWebsite in sites then 1 else 0)
  }

  lemma {:induction false} CountSiteIsCountIn(rows: seq<Job>, site: string)
    ensures CountSite(rows, site) == CountIn(rows, {site})
  {
    if rows != [] {
      CountSiteIsCountIn(rows[..|rows| - 1], site);
    }
  }

  /** Counting over a disjoint union of site sets adds up. */
  lemma {:induction false} CountInUnion(rows: seq<Job>, a: set<string>, b: set<string>)
    requires a !! b
    ensures CountIn(rows, a + b) == CountIn(rows, a) + CountIn(rows, b)
  {
    if rows != [] {
      CountInUnion(rows[..|rows| - 1], a, b);
    }
  }

  /** When every row's site lies in `sites`, every row is counted. */
  lemma {:induction false} CountInAll(rows: seq<Job>, sites: set<string>)
    requires forall i :: 0 <= i < |rows| ==> rows[i].jobWebsite in sites
    ensures CountIn(rows, sites) == |rows|
  {
    if rows != [] {
      CountInAll(rows[..|rows| - 1], sites);
    }
  }

  /** Whether some row comes from site `w`. */
  predicate HasSite(rows: seq<Job>, w: string) {
    exists i :: 0 <= i < |rows| && rows[i].jobWebsite == w
  }

  lemma HasSiteSnoc(rows: seq<Job>, w: string)
    requires rows != []
    ensures HasSite(rows, w) <==> HasSite(rows[..|rows| - 1], w) || rows[|rows| - 1].jobWebsite == w
  {
    var pre := rows[..|rows| - 1];
    if HasSite(pre, w) {
      var i :| 0 <= i < |pre| && pre[i].jobWebsite == w;
      assert rows[i] == pre[i];
    }
    if HasSite(rows, w) && rows[|rows| - 1].jobWebsite != w {
      var i :| 0 <= i < |rows| && rows[i].jobWebsite == w;
      assert pre[i] == rows[i];
    }
  }

  /** The distinct sites of the table, in order of first appearance (`GROUP BY job_website`). */
  function Websites(rows: seq<Job>): (ws: seq<string>)
    ensures forall i, k :: 0 <= i < k < |ws| ==> ws[i] != ws[k]
    ensures forall w :: w in ws <==> HasSite(rows, w)
  {
    if rows == [] then []
    else
      var init := Websites(rows[..|rows| - 1]);
      var w := rows[|rows| - 1].jobWebsite;
      forall x ensures HasSite(rows, x) <==> HasSite(rows[..|rows| - 1], x) || w == x {
        HasSiteSnoc(rows, x);
      }
      if w in init then init else init + [w]
  }

  lemma {:induction false} CountInNone(rows: seq<Job>)
    ensures CountIn(rows, {}) == 0
  {
    if rows != [] {
      CountInNone(rows[..|rows| - 1]);
    }
  }

  function SumCounts(rows: seq<Job>, ws: seq<string>): nat {
    if ws == [] then 0 else CountSite(rows, ws[0]) + SumCounts(rows, ws[1..])
  }

  lemma {:induction false} SumCountsIsCountIn(rows: seq<Job>, ws: seq<string>)
    requires forall i, k :: 0 <= i < k < |ws| ==> ws[i] != ws[k]
    ensures SumCounts(rows, ws) == CountIn(rows, set w | w in ws)
  {
    if ws == [] {
      assert (set w | w in ws) == {};
      CountInNone(rows);
    } else {
      SumCountsIsCountIn(rows, ws[1..]);
      CountSiteIsCountIn(rows, ws[0]);
      var rest := set w | w in ws[1..];
      assert ws[0] !in rest;
      assert (set w | w in ws) == {ws[0]} + rest;
      CountInUnion(rows, {ws[0]}, rest);
    }
  }

  /** The result of `get_job_stats`. */
  datatype JobStats = JobStats(
    totalJobs: nat,
    newJobs: nat,
    relevantJobs: nat,
    processedJobs: nat,
    jobsByWebsite: map<string, nat>)

  /** `get_job_stats`: the flag counts and the per-site row counts. */
  function Stats(rows: seq<Job>): (s: JobStats)
    ensures s.totalJobs == |rows|
    ensures s.newJobs <= s.totalJobs && s.relevantJobs <= s.totalJobs && s.processedJobs <= s.totalJobs
    ensures forall w :: w in s.jobsByWebsite <==> HasSite(rows, w)
    ensures forall w :: w in s.jobsByWebsite ==> s.jobsByWebsite[w] == CountSite(rows, w) && s.jobsByWebsite[w] >= 1
  {
    var ws := Websites(rows);
    var m := map w | w in ws :: CountSite(rows, w);
    assert forall w :: w in m ==> m[w] >= 1 by {
      forall w | w in m ensures m[w] >= 1 {
        assert HasSite(rows, w);
        var i :| 0 <= i < |rows| && rows[i].jobWebsite == w;
        assert rows[i] in Where(rows, (j: Job) => j.jobWebsite == w);
      }
    }
    JobStats(|rows|, Count(rows, (j: Job) => j.isNew), Count(rows, (j: Job) => j.isRelevant), Count(rows, (j: Job) => j.isProcessed), m)
  }

  /** The per-site counts of `get_job_stats` add up to its total. */
  lemma WebsiteCountsSumToTotal(rows: seq<Job>)
    ensures SumCounts(rows, Websites(rows)) == Stats(rows).totalJobs
  {
    var ws := Websites(rows);
    SumCountsIsCountIn(rows, ws);
    forall i | 0 <= i < |rows| ensures rows[i].jobWebsite in (set w | w in ws) {
      assert HasSite(rows, rows[i].jobWebsite);
    }
    CountInAll(rows, set w | w in ws);
  }

  // ---------------------------------------------------------------------------
  // Transitions

  /** The columns `create_job` fills from a dictionary: all but the primary key. */
  const KeySkip: set<Column> := {IdCol}

  predicate HasRequired(data: Candidate) {
    "job_id" in data && "role_title" in data && "job_website" in data
  }

  /** Whether the insert of `data` passes the commit's column checks. */
  predicate Storable(data: Candidate) {
    AllFit(data, KeySkip) && HasRequired(data)
  }

  /** `if not job.content_hash: job.content_hash = job.generate_content_hash()`. */
  function FillHash(j: Job, sha: Sha256): (r: Job)
    ensures r.contentHash.Some? && r.contentHash.value != ""
    ensures r == j.(contentHash := r.contentHash)
  {
    if j.contentHash == None || j.contentHash == Some("") then
      var h := GenerateContentHash(j, sha);
      assert |h| == 64;
      j.(contentHash := Some(h))
    else
      j
  }

  /** Filling the fingerprint touches no other column, and a filled fingerprint is that of the row. */
  lemma FillHashColumns(j: Job, sha: Sha256, c: Column)
    ensures c != ContentHashCol ==> ColumnValue(FillHash(j, sha), c) == ColumnValue(j, c)
    ensures c == ContentHashCol && Truthy(ColumnValue(j, c)) ==> FillHash(j, sha) == j
    ensures c == ContentHashCol && !Truthy(ColumnValue(j, c)) ==>
      FillHash(j, sha).contentHash == Some(GenerateContentHash(FillHash(j, sha), sha))
  {
    var r := FillHash(j, sha);
    assert ContentString(r) == ContentString(j);
  }

  /**
   * The row `create_job` builds: the column defaults overlaid by the dictionary, and when
   * the resulting `content_hash` is falsy, the fingerprint of the row itself.
   */
  function NewRow(id: nat, data: Candidate, now: int, sha: Sha256): (r: Job)
    requires Storable(data)
    ensures r.id == id
    ensures r.contentHash.Some? && r.contentHash.value != ""
  {
    FillHash(Overlay(DefaultRow(id, now), data, KeySkip), sha)
  }

  /**
   * Each column of the new row other than `content_hash` comes from the dictionary when it
   * names it and from the column defaults otherwise; `content_hash` is the dictionary's
   * when truthy, else the fingerprint of the row.
   */
  lemma NewRowColumn(id: nat, data: Candidate, now: int, sha: Sha256, c: Column)
    requires Storable(data) && c != IdCol
    ensures c != ContentHashCol ==>
      ColumnValue(NewRow(id, data, now, sha), c) == Given(data, KeySkip, c).GetOr(ColumnValue(DefaultRow(id, now), c))
    ensures c == ContentHashCol && Given(data, KeySkip, c).Some? && Truthy(data["content_hash"]) ==>
      ColumnValue(NewRow(id, data, now, sha), c) == data["content_hash"]
    ensures c == ContentHashCol && !(Given(data, KeySkip, c).Some? && Truthy(data["content_hash"])) ==>
      NewRow(id, data, now, sha).contentHash == Some(GenerateContentHash(NewRow(id, data, now, sha), sha))
  {
    var base := DefaultRow(id, now);
    var j := Overlay(base, data, KeySkip);
    OverlayColumn(base, data, KeySkip, c);
    FillHashColumns(j, sha, c);
    assert NewRow(id, data, now, sha) == FillHash(j, sha);
    if c == ContentHashCol {
      assert ColumnValue(base, ContentHashCol) == Null;
    }
  }

  lemma OverlayStamped(base: Job, data: Candidate, now: int)
    requires AllFit(data, KeySkip)
    requires "is_new" in data && data["is_new"] == Flag(true)
    requires "when_scraped" in data && data["when_scraped"] == Stamp(now)
    requires "last_seen" in data && data["last_seen"] == Stamp(now)
    ensures var o := Overlay(base, data, KeySkip); o.isNew && o.whenScraped == now && o.lastSeen == now
  {
    var o := Overlay(base, data, KeySkip);
    OverlayColumn(base, data, KeySkip, IsNewCol);
    assert o.isNew;
    OverlayColumn(base, data, KeySkip, WhenScrapedCol);
    assert o.whenScraped == now;
    OverlayColumn(base, data, KeySkip, LastSeenCol);
    assert o.lastSeen == now;
  }

  /** A dictionary that flags the row new and scraped and seen at `now` gives a row so marked. */
  lemma NewRowStamped(id: nat, data: Candidate, now: int, sha: Sha256)
    requires Storable(data)
    requires "is_new" in data && data["is_new"] == Flag(true)
    requires "when_scraped" in data && data["when_scraped"] == Stamp(now)
    requires "last_seen" in data && data["last_seen"] == Stamp(now)
    ensures var j := NewRow(id, data, now, sha);
      j.isNew && j.whenScraped == now && j.lastSeen == now
  {
    var o := Overlay(DefaultRow(id, now), data, KeySkip);
    OverlayStamped(DefaultRow(id, now), data, now);
    var j := FillHash(o, sha);
    assert j.isNew && j.whenScraped == now && j.lastSeen == now;
  }

  lemma OverlayHashFalsy(id: nat, data: Candidate, now: int)
    requires AllFit(data, KeySkip) && !("content_hash" in data && Truthy(data["content_hash"]))
    ensures !Truthy(ColumnValue(Overlay(DefaultRow(id, now), data, KeySkip), ContentHashCol))
  {
    OverlayColumn(DefaultRow(id, now), data, KeySkip, ContentHashCol);
    assert ColumnValue(DefaultRow(id, now), ContentHashCol) == Null;
  }

  /** Without a truthy `content_hash` in the dictionary, the new row carries the fingerprint of its content. */
  lemma NewRowOwnFingerprint(id: nat, data: Candidate, now: int, sha: Sha256)
    requires Storable(data) && !("content_hash" in data && Truthy(data["content_hash"]))
    ensures NewRow(id, data, now, sha).contentHash == Some(GenerateContentHash(NewRow(id, data, now, sha), sha))
  {
    var o := Overlay(DefaultRow(id, now), data, KeySkip);
    OverlayHashFalsy(id, data, now);
    FillHashColumns(o, sha, ContentHashCol);
  }

  /** Whether the natural key of `data` is already taken in the table. */
  predicate KeyTaken(rows: seq<Job>, data: Candidate)
    requires Storable(data)
  {
    FindKey(rows, AsStr(data["job_id"], ""), AsStr(data["job_website"], "")).Some?
  }

  /** Inserting a storable row whose key is free keeps the table valid. */
  lemma InsertValid(rows: seq<Job>, data: Candidate, now: int, sha: Sha256)
    requires ValidRows(rows) && Storable(data) && !KeyTaken(rows, data)
    ensures ValidRows(rows + [NewRow(NewId(rows), data, now, sha)])
  {
    var j := NewRow(NewId(rows), data, now, sha);
    NewRowKey(NewId(rows), data, now, sha);
    var jobId, site := AsStr(data["job_id"], ""), AsStr(data["job_website"], "");
    assert FindKey(rows, jobId, site).None?;
    forall i | 0 <= i < |rows| ensures rows[i].id != j.id && !SameKey(rows[i], j) {
      assert !(rows[i].jobId == jobId && rows[i].jobWebsite == site);
    }
    AppendValid(rows, j);
  }

  /** Both key parts of a storable dictionary are strings. */
  lemma StorableKeys(data: Candidate)
    requires Storable(data)
    ensures data["job_id"].Str? && data["job_website"].Str?
  {
    assert Given(data, KeySkip, JobIdCol).Some? && Given(data, KeySkip, JobWebsiteCol).Some?;
  }

  lemma OverlayKey(base: Job, data: Candidate)
    requires Storable(data)
    ensures Overlay(base, data, KeySkip).jobId == AsStr(data["job_id"], "")
    ensures Overlay(base, data, KeySkip).jobWebsite == AsStr(data["job_website"], "")
  {
    OverlayColumn(base, data, KeySkip, JobIdCol);
    OverlayColumn(base, data, KeySkip, JobWebsiteCol);
    TakeFits(base, data, KeySkip, JobIdCol);
    TakeFits(base, data, KeySkip, JobWebsiteCol);
  }

  /** The natural key of the new row is the one the dictionary gives. */
  lemma NewRowKey(id: nat, data: Candidate, now: int, sha: Sha256)
    requires Storable(data)
    ensures NewRow(id, data, now, sha).jobId == AsStr(data["job_id"], "")
    ensures NewRow(id, data, now, sha).jobWebsite == AsStr(data["job_website"], "")
  {
    var o := Overlay(DefaultRow(id, now), data, KeySkip);
    OverlayKey(DefaultRow(id, now), data);
    var j := FillHash(o, sha);
    assert j.jobId == o.jobId && j.jobWebsite == o.jobWebsite;
  }

  lemma AppendValid(rows: seq<Job>, j: Job)
    requires ValidRows(rows) && j.id >= 1
    requires forall i :: 0 <= i < |rows| ==> rows[i].id != j.id && !SameKey(rows[i], j)
    ensures ValidRows(rows + [j])
  {
    var r := rows + [j];
    forall i, k | 0 <= i < k < |r|
      ensures r[i].id != r[k].id && !SameKey(r[i], r[k])
    {
      if k < |rows| { assert r[i] == rows[i] && r[k] == rows[k]; }
    }
  }

  /** `update_job_last_seen` on the row at `i`. */
  function Touch(rows: seq<Job>, i: nat, now: int): (r: seq<Job>)
    requires i < |rows|
    ensures |r| == |rows| && r[i] == rows[i].(lastSeen := now, updatedAt := now)
    ensures forall k :: 0 <= k < |rows| && k != i ==> r[k] == rows[k]
  {
    rows[i := rows[i].(lastSeen := now, updatedAt := now)]
  }

  /** Replacing a row by one with the same primary and natural keys keeps the table valid. */
  lemma ReplaceValid(rows: seq<Job>, i: nat, j: Job)
    requires ValidRows(rows) && i < |rows|
    requires j.id == rows[i].id && SameKey(j, rows[i])
    ensures ValidRows(rows[i := j])
  {
  }

  /** `mark_jobs_as_not_new`: the listed rows lose the new flag and get a fresh `updated_at`. */
  function MarkNotNew(rows: seq<Job>, ids: seq<nat>, now: int): (r: seq<Job>)
    ensures |r| == |rows|
    ensures forall i :: 0 <= i < |rows| ==>
      r[i] == if rows[i].id in ids then rows[i].(isNew := false, updatedAt := now) else rows[i]
  {
    seq(|rows|, i requires 0 <= i < |rows| =>
      if rows[i].id in ids then rows[i].(isNew := false, updatedAt := now) else rows[i])
  }

  /** After `mark_jobs_as_not_new`, none of the listed rows is reported new, and the other rows are reported as before. */
  lemma MarkNotNewHidesRows(rows: seq<Job>, ids: seq<nat>, now: int, since: int)
    ensures forall j :: j in NewJobsSince(MarkNotNew(rows, ids, now), since) ==> j.id !in ids
    ensures forall j :: j in NewJobsSince(rows, since) && j.id !in ids ==> j in NewJobsSince(MarkNotNew(rows, ids, now), since)
  {
    var r := MarkNotNew(rows, ids, now);
    forall j | j in NewJobsSince(rows, since) && j.id !in ids
      ensures j in NewJobsSince(r, since)
    {
      var i :| 0 <= i < |rows| && rows[i] == j;
      assert r[i] == j;
    }
    forall j | j in NewJobsSince(r, since) ensures j.id !in ids {
      var i :| 0 <= i < |r| && r[i] == j;
    }
  }

  /** Changing only flags and timestamps keeps the table valid. */
  lemma MarkNotNewValid(rows: seq<Job>, ids: seq<nat>, now: int)
    requires ValidRows(rows)
    ensures ValidRows(MarkNotNew(rows, ids, now))
  {
  }

  /** `mark_job_as_relevant` on the row at `i`. */
  function SetRelevant(rows: seq<Job>, i: nat, flag: bool, now: int): (r: seq<Job>)
    requires i < |rows|
    ensures |r| == |rows| && r[i] == rows[i].(isRelevant := flag, updatedAt := now)
    ensures forall k :: 0 <= k < |rows| && k != i ==> r[k] == rows[k]
  {
    rows[i := rows[i].(isRelevant := flag, updatedAt := now)]
  }

  /** `mark_job_as_processed` on the row at `i`. */
  function SetProcessed(rows: seq<Job>, i: nat, flag: bool, now: int): (r: seq<Job>)
    requires i < |rows|
    ensures |r| == |rows| && r[i] == rows[i].(isProcessed := flag, updatedAt := now)
    ensures forall k :: 0 <= k < |rows| && k != i ==> r[k] == rows[k]
  {
    rows[i := rows[i].(isProcessed := flag, updatedAt := now)]
  }

  /** A row marked relevant and not yet processed is queued for document generation; marking it processed dequeues it. */
  lemma RelevantThenProcessed(rows: seq<Job>, i: nat, now: int, later: int)
    requires i < |rows| && !rows[i].isProcessed
    ensures SetRelevant(rows, i, true, now)[i] in UnprocessedRelevant(SetRelevant(rows, i, true, now))
    ensures var r := SetProcessed(SetRelevant(rows, i, true, now), i, true, later);
      r[i] !in UnprocessedRelevant(r)
  {
  }

  /** The cutoff of `cleanup_old_jobs`: `days` whole days before `now`. */
  function Cutoff(now: int, days: int): int {
    now - days * SecondsPerDay
  }

  predicate Expired(j: Job, cutoff: int) {
    j.whenScraped < cutoff && !j.isRelevant
  }

  /** The rows `cleanup_old_jobs` keeps: those scraped at or after the cutoff, or marked relevant. */
  function Survivors(rows: seq<Job>, cutoff: int): (r: seq<Job>)
    ensures forall j :: j in r <==> j in rows && !Expired(j, cutoff)
  {
    Where(rows, (j: Job) => !Expired(j, cutoff))
  }

  /** Cleanup never removes a relevant row nor a recent one, and the rows it removes are counted exactly. */
  lemma {:induction false} CleanupCount(rows: seq<Job>, cutoff: int)
    ensures |rows| - |Survivors(rows, cutoff)| == Count(rows, (j: Job) => Expired(j, cutoff))
  {
    if rows != [] {
      var pre := rows[..|rows| - 1];
      CleanupCount(pre, cutoff);
      assert Survivors(rows, cutoff) == Where(rows, (j: Job) => !Expired(j, cutoff));
    }
  }

  /**
   * The outcome of `create_job` on `rows`: a key that is not a column raises before anything
   * is stored; a row that lacks a NOT NULL column, holds an unstorable value or repeats a
   * natural key is refused at commit; otherwise the row built under a fresh rowid.
   */
  function InsertRow(rows: seq<Job>, data: Candidate, now: int, sha: Sha256): (r: Result<Job, DbError>)
    ensures !(data.Keys <= ColumnNames) ==> r == Err(UnknownAttribute)
    ensures data.Keys <= ColumnNames && !Storable(data) ==> r == Err(IntegrityError)
    ensures data.Keys <= ColumnNames && Storable(data) && KeyTaken(rows, data) ==> r == Err(IntegrityError)
    ensures r.Ok? <==> data.Keys <= ColumnNames && Storable(data) && !KeyTaken(rows, data)
    ensures r.Ok? ==> r.value == NewRow(NewId(rows), data, now, sha)
  {
    if !(data.Keys <= ColumnNames) then Err(UnknownAttribute)
    else if !Storable(data) || KeyTaken(rows, data) then Err(IntegrityError)
    else Ok(NewRow(NewId(rows), data, now, sha))
  }

  /** An accepted insertion keeps the table valid. */
  lemma InsertRowValid(rows: seq<Job>, data: Candidate, now: int, sha: Sha256)
    requires ValidRows(rows) && InsertRow(rows, data, now, sha).Ok?
    ensures ValidRows(rows + [InsertRow(rows, data, now, sha).value])
  {
    InsertValid(rows, data, now, sha);
  }

  // ---------------------------------------------------------------------------
  // The session

  /** The `jobs` table as the operations of `JobOperations` see it through one session. */
  class JobStore {
    var rows: seq<Job>

    predicate Valid()
      reads this
    {
      ValidRows(rows)
    }

    constructor ()
      ensures Valid() && rows == []
    {
      rows := [];
    }

    /** `get_job_by_id_and_website`: the row with that natural key, if any. */
    function GetJobByIdAndWebsite(jobId: string, website: string): (r: Option<Job>)
      reads this
      ensures r.Some? ==> r.value in rows && r.value.jobId == jobId && r.value.jobWebsite == website
      ensures r.None? <==> forall j :: j in rows ==> !(j.jobId == jobId && j.jobWebsite == website)
    {
      match FindKey(rows, jobId, website)
      case Some(i) => Some(rows[i])
      case None => None
    }

    /** `create_job`: the insert applied to this session's table. */
    method CreateJob(data: Candidate, now: int, sha: Sha256) returns (r: Result<Job, DbError>)
      requires Valid()
      modifies this
      ensures Valid()
      ensures r == InsertRow(old(rows), data, now, sha)
      ensures rows == if r.Ok? then old(rows) + [r.value] else old(rows)
    {
      if !(data.Keys <= ColumnNames) {
        return Err(UnknownAttribute);
      }
      if !Storable(data) || KeyTaken(rows, data) {
        return Err(IntegrityError);
      }
      InsertValid(rows, data, now, sha);
      var job := NewRow(NewId(rows), data, now, sha);
      rows := rows + [job];
      r := Ok(job);
    }

    /** `update_job_last_seen`: the stored row with primary key `id` is seen now. */
    method UpdateJobLastSeen(id: nat, now: int) returns (job: Job)
      requires Valid() && FindId(rows, id).Some?
      modifies this
      ensures Valid()
      ensures rows == Touch(old(rows), FindId(old(rows), id).value, now)
      ensures job == rows[FindId(old(rows), id).value]
    {
      var i := FindId(rows, id).value;
      ReplaceValid(rows, i, rows[i].(lastSeen := now, updatedAt := now));
      rows := Touch(rows, i, now);
      job := rows[i];
    }

    /** The commit of a row the caller changed in the session, keeping its primary and natural keys. */
    method SaveJob(job: Job)
      requires Valid() && FindId(rows, job.id).Some?
      requires SameKey(job, rows[FindId(rows, job.id).value])
      modifies this
      ensures Valid()
      ensures rows == old(rows)[FindId(old(rows), job.id).value := job]
    {
      var i := FindId(rows, job.id).value;
      ReplaceValid(rows, i, job);
      rows := rows[i := job];
    }

    /** `get_new_jobs_since`. */
    function GetNewJobsSince(since: int): (r: seq<Job>)
      reads this
      ensures forall j :: j in r <==> j in rows && j.isNew && j.whenScraped >= since
    {
      NewJobsSince(rows, since)
    }

    /** `get_jobs_by_website`. */
    function GetJobsByWebsite(website: string, limit: Option<int> := None): (r: seq<Job>)
      reads this
      ensures forall j :: j in r ==> j in rows && j.jobWebsite == website
      ensures (limit.None? || limit.value <= 0) ==> forall j :: j in rows && j.jobWebsite == website ==> j in r
      ensures limit.Some? && limit.value > 0 ==> |r| <= limit.value
      ensures limit.Some? && limit.value > 0 && Count(rows, (j: Job) => j.jobWebsite == website) <= limit.value ==>
        forall j :: j in rows && j.jobWebsite == website ==> j in r
      ensures |r| == if limit.Some? && 0 < limit.value < CountSite(rows, website) then limit.value else CountSite(rows, website)
    {
      JobsByWebsite(rows, website, limit)
    }

    /** `mark_jobs_as_not_new`: one bulk update of the listed primary keys. */
    method MarkJobsAsNotNew(ids: seq<nat>, now: int)
      requires Valid()
      modifies this
      ensures Valid()
      ensures rows == MarkNotNew(old(rows), ids, now)
    {
      MarkNotNewValid(rows, ids, now);
      rows := MarkNotNew(rows, ids, now);
    }

    /** `mark_job_as_relevant`: `None` when no row has that primary key, and then nothing changes. */
    method MarkJobAsRelevant(id: nat, now: int, isRelevant: bool := true) returns (r: Option<Job>)
      requires Valid()
      modifies this
      ensures Valid()
      ensures FindId(old(rows), id).None? ==> r.None? && rows == old(rows)
      ensures FindId(old(rows), id).Some? ==>
        rows == SetRelevant(old(rows), FindId(old(rows), id).value, isRelevant, now) &&
        r == Some(rows[FindId(old(rows), id).value])
    {
      var found := FindId(rows, id);
      if found.None? {
        return None;
      }
      var i := found.value;
      ReplaceValid(rows, i, rows[i].(isRelevant := isRelevant, updatedAt := now));
      rows := SetRelevant(rows, i, isRelevant, now);
      r := Some(rows[i]);
    }

    /** `mark_job_as_processed`: `None` when no row has that primary key, and then nothing changes. */
    method MarkJobAsProcessed(id: nat, now: int, isProcessed: bool := true) returns (r: Option<Job>)
      requires Valid()
      modifies this
      ensures Valid()
      ensures FindId(old(rows), id).None? ==> r.None? && rows == old(rows)
      ensures FindId(old(rows), id).Some? ==>
        rows == SetProcessed(old(rows), FindId(old(rows), id).value, isProcessed, now) &&
        r == Some(rows[FindId(old(rows), id).value])
    {
      var found := FindId(rows, id);
      if found.None? {
        return None;
      }
      var i := found.value;
      ReplaceValid(rows, i, rows[i].(isProcessed := isProcessed, updatedAt := now));
      rows := SetProcessed(rows, i, isProcessed, now);
      r := Some(rows[i]);
    }

    /** `get_unprocessed_relevant_jobs`. */
    function GetUnprocessedRelevantJobs(): (r: seq<Job>)
      reads this
      ensures forall j :: j in r <==> j in rows && j.isRelevant && !j.isProcessed
    {
      UnprocessedRelevant(rows)
    }

    /** `cleanup_old_jobs`: deletes the expired irrelevant rows and returns how many went. */
    method CleanupOldJobs(now: int, daysOld: int := 30) returns (deleted: nat)
      requires Valid()
      modifies this
      ensures Valid()
      ensures rows == Survivors(old(rows), Cutoff(now, daysOld))
      ensures deleted == Count(old(rows), (j: Job) => Expired(j, Cutoff(now, daysOld)))
    {
      var cutoff := Cutoff(now, daysOld);
      deleted := Count(rows, (j: Job) => Expired(j, cutoff));
      CleanupCount(rows, cutoff);
      WhereValid(rows, (j: Job) => !Expired(j, cutoff));
      rows := Survivors(rows, cutoff);
    }

    /** `get_job_stats`. */
    function GetJobStats(): (s: JobStats)
      reads this
      ensures s.totalJobs == |rows|
      ensures forall w :: w in s.jobsByWebsite ==> s.jobsByWebsite[w] == CountSite(rows, w)
    {
      Stats(rows)
    }
  }
}
