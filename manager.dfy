/**
 * The scraper manager: the upsert of one scraped candidate into the job table
 * (`_process_job`), the drain of one site's crawl into the table (`_scrape_site`) and
 * the run over every configured site (`scrape_all_sites`).
 */
module Manager {
  import opened Wrappers
  import opened JobModel
  import opened Store
  import opened Fetch
  import opened SitesConfig
  import opened Crawler
  import opened Hirebase

  // ---------------------------------------------------------------------------
  // Processing one candidate

  /** How `_process_job` classifies a candidate. */
  datatype Outcome = New | Updated | Existing

  /** Why `_process_job` raised: a required key is missing, or the table refused the change. */
  datatype JobError = MissingRequiredFields | Db(cause: DbError)

  /** A processing result together with the table it leaves behind. */
  datatype Processed = Processed(result: Result<Outcome, JobError>, rows: seq<Job>)

  /** The attributes an update never copies from the candidate. */
  const UpdateSkip: set<Column> := {IdCol, CreatedAtCol}

  /** The attribute names the copy loop passes over. */
  const UpdateSkipNames: set<string> := {"id", "created_at"}

  /** A column's name is passed over exactly when the column is. */
  lemma SkipNames(key: string)
    requires IsColumn(key)
    ensures key in UpdateSkipNames <==> ColumnOf(key).value in UpdateSkip
  {
    var c := ColumnOf(key).value;
    if c == IdCol || c == CreatedAtCol {
      assert key == Name(c);
    }
  }

  /** Both parts of the natural key are present and truthy. */
  predicate HasKeys(data: Candidate) {
    Truthy(Get(data, "job_id")) && Truthy(Get(data, "job_website"))
  }

  /**
   * `get_job_by_id_and_website` with the candidate's key: the stored row whose key equals
   * the candidate's two strings. A key part that is not a string matches no row.
   */
  function FindCandidate(rows: seq<Job>, data: Candidate): (r: Option<nat>)
    ensures r.Some? ==>
      r.value < |rows| &&
      Get(data, "job_id") == Str(rows[r.value].jobId) && Get(data, "job_website") == Str(rows[r.value].jobWebsite)
    ensures r.None? ==> forall i :: 0 <= i < |rows| ==>
      !(Get(data, "job_id") == Str(rows[i].jobId) && Get(data, "job_website") == Str(rows[i].jobWebsite))
  {
    match (Get(data, "job_id"), Get(data, "job_website"))
    case (Str(jobId), Str(website)) => FindKey(rows, jobId, website)
    case _ => None
  }

  /** The candidate handed to `create_job`: flagged new and scraped and seen now. */
  function NewCandidate(data: Candidate, now: int): Candidate {
    data["is_new" := Flag(true)]["when_scraped" := Stamp(now)]["last_seen" := Stamp(now)]
  }

  /** The row after an update: the candidate's attributes copied, then the fingerprint and `updated_at` set. */
  function Refreshed(j: Job, data: Candidate, h: string, now: int): Job
    requires AllFit(data, UpdateSkip)
  {
    Overlay(j, data, UpdateSkip).(contentHash := Some(h), updatedAt := now)
  }

  /**
   * The branch of `_process_job` for a stored row, after `last_seen` was committed:
   * `touched` is the table at that point, `i` the row and `h` the fingerprint of that
   * row's content. The stored fingerprint equal to `h` gives "existing"; otherwise the
   * candidate's attributes are copied and the commit fails when one does not fit.
   */
  function Seen(touched: seq<Job>, i: nat, data: Candidate, h: string, now: int): (p: Processed)
    requires i < |touched|
    ensures |p.rows| == |touched| && p.result != Ok(New)
    ensures p.result.Err? ==> p.result == Err(Db(IntegrityError))
  {
    if touched[i].contentHash == Some(h) then Processed(Ok(Existing), touched)
    else if AllFit(data, UpdateSkip) then Processed(Ok(Updated), touched[i := Refreshed(touched[i], data, h, now)])
    else Processed(Err(Db(IntegrityError)), touched)
  }

  /** The branch of `_process_job` for a candidate with no stored row: `create_job`. */
  function Fresh(rows: seq<Job>, data: Candidate, now: int, sha: Sha256): (p: Processed)
    ensures p.result.Err? ==> p.result.error.Db?
    ensures p.result.Ok? ==> p.result == Ok(New)
    ensures p.result.Ok? <==> InsertRow(rows, NewCandidate(data, now), now, sha).Ok?
    ensures |p.rows| == |rows| + (if p.result.Ok? then 1 else 0)
  {
    match InsertRow(rows, NewCandidate(data, now), now, sha)
    case Ok(j) => Processed(Ok(New), rows + [j])
    case Err(e) => Processed(Err(Db(e)), rows)
  }

  /**
   * `_process_job` on the table `rows`. A candidate without both key parts raises before
   * anything happens. A stored row with the candidate's key is first seen now (and that
   * commit stays); then the stored fingerprint is compared with the fingerprint of the
   * STORED row's own content. With no stored row the candidate is inserted as new.
   */
  function Process(rows: seq<Job>, data: Candidate, now: int, sha: Sha256): (p: Processed)
    ensures p.result == Err(MissingRequiredFields) <==> !HasKeys(data)
    ensures !HasKeys(data) ==> p.rows == rows
    ensures |p.rows| == |rows| + (if p.result == Ok(New) then 1 else 0)
  {
    if !HasKeys(data) then Processed(Err(MissingRequiredFields), rows)
    else
      match FindCandidate(rows, data)
      case Some(i) =>
        var touched := Touch(rows, i, now);
        Seen(touched, i, data, GenerateContentHash(touched[i], sha), now)
      case None => Fresh(rows, data, now, sha)
  }

  /** A candidate with a stored key takes the stored-row branch. */
  lemma ProcessSeen(rows: seq<Job>, data: Candidate, now: int, sha: Sha256)
    requires HasKeys(data) && FindCandidate(rows, data).Some?
    ensures var i := FindCandidate(rows, data).value;
      var touched := Touch(rows, i, now);
      Process(rows, data, now, sha) == Seen(touched, i, data, GenerateContentHash(touched[i], sha), now)
  {
  }

  /** A candidate with both key parts and no stored key takes the insertion branch. */
  lemma ProcessFresh(rows: seq<Job>, data: Candidate, now: int, sha: Sha256)
    requires HasKeys(data) && FindCandidate(rows, data).None?
    ensures Process(rows, data, now, sha) == Fresh(rows, data, now, sha)
  {
  }

  /**
   * Processing is "new" exactly for a candidate with both key parts, no stored row and an
   * insertion the table accepts; a candidate whose key is not stored and that names an
   * attribute that is no column raises and leaves the table as it was.
   */
  lemma NewOutcome(rows: seq<Job>, data: Candidate, now: int, sha: Sha256)
    ensures var p := Process(rows, data, now, sha);
      p.result == Ok(New) <==>
        HasKeys(data) && FindCandidate(rows, data).None? && InsertRow(rows, NewCandidate(data, now), now, sha).Ok?
    ensures HasKeys(data) && FindCandidate(rows, data).None? && !(data.Keys <= ColumnNames) ==>
      Process(rows, data, now, sha) == Processed(Err(Db(UnknownAttribute)), rows)
  {
    if HasKeys(data) && FindCandidate(rows, data).None? {
      ProcessFresh(rows, data, now, sha);
      if !(data.Keys <= ColumnNames) {
        var k :| k in data.Keys && k !in ColumnNames;
        assert k in NewCandidate(data, now).Keys;
      }
    }
  }

  /** An update keeps the primary key and, for a candidate with the row's key, the natural key. */
  lemma RefreshedKeepsKeys(j: Job, data: Candidate, h: string, now: int)
    requires AllFit(data, UpdateSkip)
    requires Get(data, "job_id") == Str(j.jobId) && Get(data, "job_website") == Str(j.jobWebsite)
    ensures Refreshed(j, data, h, now).id == j.id && SameKey(Refreshed(j, data, h, now), j)
  {
    OverlayColumn(j, data, UpdateSkip, JobIdCol);
    OverlayColumn(j, data, UpdateSkip, JobWebsiteCol);
  }

  /** The stored-row branch keeps a valid table valid: it never changes a key. */
  lemma SeenValid(touched: seq<Job>, i: nat, data: Candidate, h: string, now: int)
    requires ValidRows(touched) && i < |touched|
    requires Get(data, "job_id") == Str(touched[i].jobId) && Get(data, "job_website") == Str(touched[i].jobWebsite)
    ensures ValidRows(Seen(touched, i, data, h, now).rows)
  {
    if touched[i].contentHash != Some(h) && AllFit(data, UpdateSkip) {
      RefreshedKeepsKeys(touched[i], data, h, now);
      ReplaceValid(touched, i, Refreshed(touched[i], data, h, now));
    }
  }

  /** The insertion branch keeps a valid table valid. */
  lemma FreshValid(rows: seq<Job>, data: Candidate, now: int, sha: Sha256)
    requires ValidRows(rows)
    ensures ValidRows(Fresh(rows, data, now, sha).rows)
  {
    if InsertRow(rows, NewCandidate(data, now), now, sha).Ok? {
      InsertRowValid(rows, NewCandidate(data, now), now, sha);
    }
  }

  /** Processing a candidate keeps the table valid: distinct primary keys and natural keys. */
  lemma ProcessValid(rows: seq<Job>, data: Candidate, now: int, sha: Sha256)
    requires ValidRows(rows)
    ensures ValidRows(Process(rows, data, now, sha).rows)
  {
    if HasKeys(data) {
      match FindCandidate(rows, data)
      case Some(i) =>
        var touched := Touch(rows, i, now);
        assert touched == rows[i := touched[i]];
        ReplaceValid(rows, i, touched[i]);
        ProcessSeen(rows, data, now, sha);
        SeenValid(touched, i, data, GenerateContentHash(touched[i], sha), now);
      case None =>
        ProcessFresh(rows, data, now, sha);
        FreshValid(rows, data, now, sha);
    }
  }

  /** Seeing a row now leaves its content, and so its fingerprint, as it was. */
  lemma TouchKeepsFingerprint(rows: seq<Job>, i: nat, now: int, sha: Sha256)
    requires i < |rows|
    ensures GenerateContentHash(Touch(rows, i, now)[i], sha) == GenerateContentHash(rows[i], sha)
  {
    assert ContentString(Touch(rows, i, now)[i]) == ContentString(rows[i]);
  }

  /**
   * A candidate whose key is stored: the outcome depends only on whether the stored
   * fingerprint is that of the stored content, never on the candidate's content.
   * A fresh fingerprint gives "existing"; a stale one gives "updated" when every copied
   * value fits its column and a refused commit otherwise.
   */
  lemma SeenOutcome(rows: seq<Job>, data: Candidate, now: int, sha: Sha256)
    requires HasKeys(data) && FindCandidate(rows, data).Some?
    ensures var i := FindCandidate(rows, data).value;
      var stale := rows[i].contentHash != Some(GenerateContentHash(rows[i], sha));
      var p := Process(rows, data, now, sha);
      (p.result == Ok(Existing) <==> !stale) &&
      (p.result == Ok(Updated) <==> stale && AllFit(data, UpdateSkip)) &&
      (p.result == Err(Db(IntegrityError)) <==> stale && !AllFit(data, UpdateSkip))
  {
    var i := FindCandidate(rows, data).value;
    ProcessSeen(rows, data, now, sha);
    TouchKeepsFingerprint(rows, i, now, sha);
  }

  /** Every column of an update but the key, the fingerprint and `updated_at` is the candidate's, when given. */
  lemma RefreshedColumn(j: Job, data: Candidate, h: string, now: int, c: Column)
    requires AllFit(data, UpdateSkip)
    requires c != IdCol && c != ContentHashCol && c != UpdatedAtCol
    ensures ColumnValue(Refreshed(j, data, h, now), c) == Given(data, UpdateSkip, c).GetOr(ColumnValue(j, c))
  {
    var o := Overlay(j, data, UpdateSkip);
    OverlayColumn(j, data, UpdateSkip, c);
    assert ColumnValue(Refreshed(j, data, h, now), c) == ColumnValue(o, c);
  }

  /** An update never copies `created_at`. */
  lemma RefreshedKeepsCreation(j: Job, data: Candidate, h: string, now: int)
    requires AllFit(data, UpdateSkip)
    ensures Refreshed(j, data, h, now).createdAt == j.createdAt
  {
    SkippedNotGiven(data, UpdateSkip, CreatedAtCol);
    RefreshedColumn(j, data, h, now, CreatedAtCol);
    CreationColumn(Refreshed(j, data, h, now), j);
  }

  /** An update keeps the primary key and `created_at`, and copies `last_seen` when the candidate gives one. */
  lemma RefreshedFrame(j: Job, data: Candidate, h: string, now: int)
    requires AllFit(data, UpdateSkip)
    ensures var r := Refreshed(j, data, h, now);
      r.id == j.id && r.createdAt == j.createdAt &&
      ColumnValue(r, LastSeenCol) == Given(data, UpdateSkip, LastSeenCol).GetOr(ColumnValue(j, LastSeenCol))
  {
    RefreshedColumn(j, data, h, now, LastSeenCol);
    RefreshedKeepsCreation(j, data, h, now);
  }

  /**
   * In the stored-row branch only row `i` changes; it keeps its primary key and
   * `created_at`; its `last_seen` is the candidate's after an update that copies one and
   * the seen row's otherwise; an "existing" outcome leaves the seen table as it is.
   */
  lemma SeenFrame(touched: seq<Job>, i: nat, data: Candidate, h: string, now: int)
    requires i < |touched|
    ensures var p := Seen(touched, i, data, h, now);
      (forall k :: 0 <= k < |touched| && k != i ==> p.rows[k] == touched[k]) &&
      p.rows[i].id == touched[i].id && p.rows[i].createdAt == touched[i].createdAt &&
      ColumnValue(p.rows[i], LastSeenCol) ==
        (if p.result == Ok(Updated) then Given(data, UpdateSkip, LastSeenCol).GetOr(ColumnValue(touched[i], LastSeenCol))
         else ColumnValue(touched[i], LastSeenCol)) &&
      (p.result != Ok(Updated) ==> p.rows == touched)
  {
    if touched[i].contentHash != Some(h) && AllFit(data, UpdateSkip) {
      RefreshedFrame(touched[i], data, h, now);
    }
  }

  /**
   * A candidate whose key is stored: only that row changes; it keeps its primary key and
   * `created_at`; `last_seen` is now unless an update copied the candidate's own value;
   * any outcome but "updated" changes nothing but `last_seen` and `updated_at`.
   */
  lemma SeenRowIsTouched(rows: seq<Job>, data: Candidate, now: int, sha: Sha256)
    requires HasKeys(data) && FindCandidate(rows, data).Some?
    ensures var i := FindCandidate(rows, data).value;
      var p := Process(rows, data, now, sha);
      |p.rows| == |rows| && p.result != Ok(New) &&
      (forall k :: 0 <= k < |rows| && k != i ==> p.rows[k] == rows[k]) &&
      p.rows[i].id == rows[i].id && p.rows[i].createdAt == rows[i].createdAt &&
      ColumnValue(p.rows[i], LastSeenCol) ==
        (if p.result == Ok(Updated) then Given(data, UpdateSkip, LastSeenCol).GetOr(Stamp(now)) else Stamp(now)) &&
      (p.result != Ok(Updated) ==> p.rows == Touch(rows, i, now))
  {
    var i := FindCandidate(rows, data).value;
    var touched := Touch(rows, i, now);
    var p := Seen(touched, i, data, GenerateContentHash(touched[i], sha), now);
    ProcessSeen(rows, data, now, sha);
    SeenFrame(touched, i, data, GenerateContentHash(touched[i], sha), now);
    assert touched[i].id == rows[i].id && touched[i].createdAt == rows[i].createdAt;
    assert ColumnValue(touched[i], LastSeenCol) == Stamp(now);
    assert Process(rows, data, now, sha) == p;
    assert forall k :: 0 <= k < |rows| && k != i ==> p.rows[k] == rows[k] by {
      forall k | 0 <= k < |rows| && k != i ensures p.rows[k] == rows[k] {
        assert p.rows[k] == touched[k];
      }
    }
  }

  /**
   * An update copies every candidate attribute that is a column, other than `id`,
   * `created_at`, `content_hash` and `updated_at`; it stores the fingerprint `h` of the
   * row as it was before the copy, which differs from the one stored before, and sets
   * `updated_at` to now.
   */
  lemma SeenUpdateCopies(touched: seq<Job>, i: nat, data: Candidate, h: string, now: int, c: Column)
    requires i < |touched| && Seen(touched, i, data, h, now).result == Ok(Updated)
    requires c != IdCol && c != ContentHashCol && c != UpdatedAtCol
    ensures var j := Seen(touched, i, data, h, now).rows[i];
      ColumnValue(j, c) == Given(data, UpdateSkip, c).GetOr(ColumnValue(touched[i], c)) &&
      j.contentHash == Some(h) && j.contentHash != touched[i].contentHash && j.updatedAt == now
  {
    RefreshedColumn(touched[i], data, h, now, c);
  }

  /**
   * An update of the stored row copies the candidate's column attributes (except `id`,
   * `created_at`, `content_hash` and `updated_at`) over the row as seen now, and stores
   * the fingerprint of the row's content from before the copy, different from the stale
   * one.
   */
  lemma UpdateCopiesCandidate(rows: seq<Job>, data: Candidate, now: int, sha: Sha256, c: Column)
    requires HasKeys(data) && FindCandidate(rows, data).Some?
    requires Process(rows, data, now, sha).result == Ok(Updated)
    requires c != IdCol && c != ContentHashCol && c != UpdatedAtCol
    ensures var i := FindCandidate(rows, data).value;
      var j := Process(rows, data, now, sha).rows[i];
      var before := rows[i].(lastSeen := now, updatedAt := now);
      ColumnValue(j, c) == Given(data, UpdateSkip, c).GetOr(ColumnValue(before, c)) &&
      j.contentHash == Some(GenerateContentHash(rows[i], sha)) &&
      j.contentHash != rows[i].contentHash && j.updatedAt == now
  {
    var i := FindCandidate(rows, data).value;
    var touched := Touch(rows, i, now);
    ProcessSeen(rows, data, now, sha);
    TouchKeepsFingerprint(rows, i, now, sha);
    SeenUpdateCopies(touched, i, data, GenerateContentHash(touched[i], sha), now, c);
  }

  /** The candidate handed to `create_job` keeps the key and marks the row new, scraped and seen now. */
  lemma NewCandidateKeys(data: Candidate, now: int)
    ensures var nc := NewCandidate(data, now);
      Get(nc, "job_id") == Get(data, "job_id") && Get(nc, "job_website") == Get(data, "job_website") &&
      nc["is_new"] == Flag(true) && nc["when_scraped"] == Stamp(now) && nc["last_seen"] == Stamp(now) &&
      ("content_hash" in nc <==> "content_hash" in data) &&
      ("content_hash" in data ==> nc["content_hash"] == data["content_hash"])
  {
  }

  /** That row carries the candidate's key. */
  lemma NewCandidateKey(id: nat, data: Candidate, now: int, sha: Sha256)
    requires Storable(NewCandidate(data, now))
    ensures var j := NewRow(id, NewCandidate(data, now), now, sha);
      Get(data, "job_id") == Str(j.jobId) && Get(data, "job_website") == Str(j.jobWebsite)
  {
    var nc := NewCandidate(data, now);
    NewCandidateKeys(data, now);
    StorableKeys(nc);
    NewRowKey(id, nc, now, sha);
  }

  /**
   * An accepted insertion appends one row under a fresh primary key, flagged new and
   * scraped and seen now, with the candidate's key; without a truthy `content_hash` of
   * the candidate's own, its fingerprint is that of its content.
   */
  lemma FreshRow(rows: seq<Job>, data: Candidate, now: int, sha: Sha256)
    requires Fresh(rows, data, now, sha).result == Ok(New)
    ensures var p := Fresh(rows, data, now, sha);
      |p.rows| == |rows| + 1 && p.rows[..|rows|] == rows &&
      var j := p.rows[|rows|];
      j.isNew && j.whenScraped == now && j.lastSeen == now &&
      j.id == NewId(rows) && Get(data, "job_id") == Str(j.jobId) && Get(data, "job_website") == Str(j.jobWebsite) &&
      (!("content_hash" in data && Truthy(data["content_hash"])) ==> j.contentHash == Some(GenerateContentHash(j, sha)))
  {
    var id := NewId(rows);
    var j := NewRow(id, NewCandidate(data, now), now, sha);
    assert Fresh(rows, data, now, sha).rows == rows + [j];
    NewCandidateKeys(data, now);
    NewRowStamped(id, NewCandidate(data, now), now, sha);
    NewCandidateKey(id, data, now, sha);
    if !("content_hash" in data && Truthy(data["content_hash"])) {
      NewRowOwnFingerprint(id, NewCandidate(data, now), now, sha);
    }
    assert (rows + [j])[..|rows|] == rows;
  }

  /**
   * A candidate whose key is not stored and that makes it into the table becomes a row
   * flagged new, scraped and seen now, appended under a fresh primary key.
   */
  lemma NewRowIsFresh(rows: seq<Job>, data: Candidate, now: int, sha: Sha256)
    requires Process(rows, data, now, sha).result == Ok(New)
    ensures var p := Process(rows, data, now, sha);
      |p.rows| == |rows| + 1 && p.rows[..|rows|] == rows &&
      var j := p.rows[|rows|];
      j.isNew && j.whenScraped == now && j.lastSeen == now &&
      j.id == NewId(rows) && Get(data, "job_id") == Str(j.jobId) && Get(data, "job_website") == Str(j.jobWebsite)
  {
    NewOutcome(rows, data, now, sha);
    ProcessFresh(rows, data, now, sha);
    FreshRow(rows, data, now, sha);
  }

  /**
   * Once a candidate without its own `content_hash` has been inserted, every later
   * candidate with the same key is "existing", whatever content it carries: the stored
   * fingerprint is that of the stored row, and that is what it is compared with.
   */
  lemma RescrapedJobIsExisting(rows: seq<Job>, data: Candidate, now: int, sha: Sha256, again: Candidate, later: int)
    requires ValidRows(rows)
    requires Process(rows, data, now, sha).result == Ok(New)
    requires !("content_hash" in data && Truthy(data["content_hash"]))
    requires Get(again, "job_id") == Get(data, "job_id") && Get(again, "job_website") == Get(data, "job_website")
    ensures var after := Process(rows, data, now, sha).rows;
      Process(after, again, later, sha) == Processed(Ok(Existing), Touch(after, |rows|, later))
  {
    NewOutcome(rows, data, now, sha);
    ProcessFresh(rows, data, now, sha);
    FreshRow(rows, data, now, sha);
    ProcessValid(rows, data, now, sha);
    var after := Fresh(rows, data, now, sha).rows;
    var j := after[|rows|];
    FindKeyUnique(after, j.jobId, j.jobWebsite, |rows|);
    assert FindCandidate(after, again) == Some(|rows|);
    RefoundIsExisting(after, |rows|, again, later, sha);
  }

  /** A candidate that finds row `i`, whose stored fingerprint is fresh, is "existing". */
  lemma RefoundIsExisting(rows: seq<Job>, i: nat, data: Candidate, now: int, sha: Sha256)
    requires i < |rows| && rows[i].contentHash == Some(GenerateContentHash(rows[i], sha))
    requires HasKeys(data) && FindCandidate(rows, data) == Some(i)
    ensures Process(rows, data, now, sha) == Processed(Ok(Existing), Touch(rows, i, now))
  {
    var touched := Touch(rows, i, now);
    var h := GenerateContentHash(touched[i], sha);
    TouchKeepsFingerprint(rows, i, now, sha);
    assert touched[i].contentHash == Some(h);
    assert Seen(touched, i, data, h, now) == Processed(Ok(Existing), touched);
    ProcessSeen(rows, data, now, sha);
  }

  /** A candidate naming `scraped_from_url`, whose key is not stored, is refused and changes nothing. */
  lemma UnknownKeyRefused(rows: seq<Job>, data: Candidate, now: int, sha: Sha256)
    requires "scraped_from_url" in data && FindCandidate(rows, data).None?
    ensures var p := Process(rows, data, now, sha);
      p.rows == rows && p.result == if HasKeys(data) then Err(Db(UnknownAttribute)) else Err(MissingRequiredFields)
  {
    assert "scraped_from_url" !in ColumnNames;
    NewOutcome(rows, data, now, sha);
  }

  /**
   * Every candidate a crawl page yields carries `scraped_from_url`, which is not a column:
   * unless its key is already stored, processing it raises and leaves the table as it was.
   */
  lemma CrawledCandidateIsRefused<E>(env: Env<E>, items: seq<E>, url: string, k: nat,
                                     rows: seq<Job>, now: int, sha: Sha256)
    requires k < |Assemble(env, items, url)|
    requires FindCandidate(rows, Assemble(env, items, url)[k]).None?
    ensures var p := Process(rows, Assemble(env, items, url)[k], now, sha);
      p.rows == rows &&
      p.result == if HasKeys(Assemble(env, items, url)[k]) then Err(Db(UnknownAttribute)) else Err(MissingRequiredFields)
  {
    var job := Assemble(env, items, url)[k];
    assert "scraped_from_url" in job;
    UnknownKeyRefused(rows, job, now, sha);
  }

  /** The row the store finds for the candidate's key is the one `FindCandidate` names. */
  lemma FoundIsCandidate(rows: seq<Job>, data: Candidate, j: Job)
    requires ValidRows(rows) && Get(data, "job_id").Str? && Get(data, "job_website").Str?
    requires j in rows && j.jobId == Get(data, "job_id").s && j.jobWebsite == Get(data, "job_website").s
    ensures FindCandidate(rows, data).Some? && rows[FindCandidate(rows, data).value] == j
  {
    var k :| 0 <= k < |rows| && rows[k] == j;
    FindKeyUnique(rows, j.jobId, j.jobWebsite, k);
  }

  /** The attribute values a candidate has assigned once the keys in `done` are through. */
  predicate CopiedSoFar(base: Job, r: Job, data: Candidate, done: set<string>)
    requires done <= data.Keys
  {
    forall c :: c != IdCol ==>
      ColumnValue(r, c) == if c !in UpdateSkip && Name(c) in done then data[Name(c)] else ColumnValue(base, c)
  }

  /** Assigning one more key that fits its column extends what has been copied. */
  lemma CopyStep(base: Job, r: Job, data: Candidate, done: set<string>, key: string)
    requires done <= data.Keys && key in data && key !in UpdateSkipNames
    requires ColumnOf(key).Some? && Fits(ColumnOf(key).value, data[key])
    requires CopiedSoFar(base, r, data, done)
    ensures CopiedSoFar(base, Assign(r, ColumnOf(key).value, data[key]), data, done + {key})
  {
    var c := ColumnOf(key).value;
    forall d | d != IdCol
      ensures ColumnValue(Assign(r, c, data[key]), d) ==
        if d !in UpdateSkip && Name(d) in done + {key} then data[Name(d)] else ColumnValue(base, d)
    {
      AssignFrame(r, c, data[key], d);
      if Name(d) == key { NameInjective(d, c); }
    }
  }

  /** A key that names no column, or a passed-over one, is through without an assignment. */
  lemma CopySkip(base: Job, r: Job, data: Candidate, done: set<string>, key: string)
    requires done <= data.Keys && key in data && !(IsColumn(key) && key !in UpdateSkipNames)
    requires CopiedSoFar(base, r, data, done)
    ensures CopiedSoFar(base, r, data, done + {key})
  {
    forall d | d != IdCol && Name(d) == key
      ensures d in UpdateSkip
    {
      assert ColumnOf(key).Some? && ColumnOf(key).value == d by {
        NameInjective(ColumnOf(Name(d)).value, d);
      }
      SkipNames(key);
    }
  }

  /** Once every key is through, the copied row is the overlay of the candidate. */
  lemma CopiedIsOverlay(base: Job, r: Job, data: Candidate)
    requires AllFit(data, UpdateSkip) && r.id == base.id
    requires CopiedSoFar(base, r, data, data.Keys)
    ensures r == Overlay(base, data, UpdateSkip)
  {
    forall c ensures ColumnValue(r, c) == ColumnValue(Overlay(base, data, UpdateSkip), c) {
      if c != IdCol { OverlayColumn(base, data, UpdateSkip, c); }
    }
    ColumnsDetermineJob(r, Overlay(base, data, UpdateSkip));
  }

  /** Every key in `done` that names a copied column holds a value that fits it. */
  predicate KeysFit(data: Candidate, done: set<string>)
    requires done <= data.Keys
  {
    forall k :: k in done && IsColumn(k) && k !in UpdateSkipNames ==> Fits(ColumnOf(k).value, data[k])
  }

  /** One more key fits exactly when it is passed over or its value fits its column. */
  lemma KeysFitStep(data: Candidate, done: set<string>, key: string)
    requires done <= data.Keys && key in data
    ensures KeysFit(data, done + {key}) <==>
      KeysFit(data, done) && (IsColumn(key) && key !in UpdateSkipNames ==> Fits(ColumnOf(key).value, data[key]))
  {
  }

  /** Fitting keys give fitting column values. */
  lemma KeysFitGivesAllFit(data: Candidate)
    requires KeysFit(data, data.Keys)
    ensures AllFit(data, UpdateSkip)
  {
    forall c | c != IdCol && Given(data, UpdateSkip, c).Some?
      ensures Fits(c, Given(data, UpdateSkip, c).value)
    {
      var k := Name(c);
      assert ColumnOf(k).Some?;
      NameInjective(ColumnOf(k).value, c);
      SkipNames(k);
    }
  }

  /** Fitting column values come from fitting keys. */
  lemma AllFitGivesKeysFit(data: Candidate)
    requires AllFit(data, UpdateSkip)
    ensures KeysFit(data, data.Keys)
  {
    forall k | k in data.Keys && IsColumn(k) && k !in UpdateSkipNames
      ensures Fits(ColumnOf(k).value, data[k])
    {
      var c := ColumnOf(k).value;
      SkipNames(k);
      assert Given(data, UpdateSkip, c) == Some(data[k]);
    }
  }

  /** Every key the candidate names fits exactly when every column value it gives fits. */
  lemma KeysFitIffAllFit(data: Candidate)
    ensures KeysFit(data, data.Keys) <==> AllFit(data, UpdateSkip)
  {
    if AllFit(data, UpdateSkip) {
      AllFitGivesKeysFit(data);
    }
    if KeysFit(data, data.Keys) {
      KeysFitGivesAllFit(data);
    }
  }

  /** Moving one key from the keys to go to the keys done keeps them a partition of all keys. */
  lemma MoveKey<K>(keys: set<K>, done: set<K>, all: set<K>, key: K)
    requires keys + done == all && keys !! done && key in keys
    ensures (keys - {key}) + (done + {key}) == all && (keys - {key}) !! (done + {key})
    ensures |keys - {key}| < |keys|
  {
  }

  /**
   * The attribute loop of `_process_job`: each key of the candidate that names a column
   * other than `id` and `created_at` is assigned in turn. `failed` says that one of the
   * values does not fit its column, so that the commit is refused; otherwise the row is
   * the overlay of the candidate.
   */
  method CopyAttributes(job: Job, jobData: Candidate) returns (r: Job, failed: bool)
    ensures failed <==> !AllFit(jobData, UpdateSkip)
    ensures !failed ==> r == Overlay(job, jobData, UpdateSkip)
  {
    r := job;
    failed := false;
    var keys := jobData.Keys;
    ghost var done: set<string> := {};
    while keys != {}
      invariant keys + done == jobData.Keys && keys !! done
      invariant r.id == job.id
      invariant !failed ==> CopiedSoFar(job, r, jobData, done)
      invariant !failed <==> KeysFit(jobData, done)
      decreases |keys|
    {
      var key :| key in keys;
      if IsColumn(key) && key !in UpdateSkipNames {
        var c := ColumnOf(key).value;
        if !Fits(c, jobData[key]) {
          failed := true;
        } else if !failed {
          CopyStep(job, r, jobData, done, key);
          r := Assign(r, c, jobData[key]);
        }
      } else if !failed {
        CopySkip(job, r, jobData, done, key);
      }
      KeysFitStep(jobData, done, key);
      MoveKey(keys, done, jobData.Keys, key);
      keys := keys - {key};
      done := done + {key};
    }
    KeysFitIffAllFit(jobData);
    if !failed {
      CopiedIsOverlay(job, r, jobData);
    }
  }

  // ---------------------------------------------------------------------------
  // Draining one site

  /** The per-candidate counters of `_scrape_site`. */
  datatype Tally = Tally(jobsScraped: nat, newJobs: nat, updatedJobs: nat, failed: nat)

  /** The counters after one processed candidate: a raise is one failure, anything else one scraped job. */
  function Tallied(t: Tally, r: Result<Outcome, JobError>): Tally {
    match r
    case Ok(New) => t.(jobsScraped := t.jobsScraped + 1, newJobs := t.newJobs + 1)
    case Ok(Updated) => t.(jobsScraped := t.jobsScraped + 1, updatedJobs := t.updatedJobs + 1)
    case Ok(Existing) => t.(jobsScraped := t.jobsScraped + 1)
    case Err(_) => t.(failed := t.failed + 1)
  }

  /** One processed candidate adds one to scraped or failed, and a new job only with a new row. */
  lemma TallyStep(t: Tally, r: Result<Outcome, JobError>)
    ensures var u := Tallied(t, r);
      u.jobsScraped + u.failed == t.jobsScraped + t.failed + 1 &&
      u.newJobs + u.updatedJobs - t.newJobs - t.updatedJobs <= u.jobsScraped - t.jobsScraped &&
      u.newJobs == t.newJobs + (if r == Ok(New) then 1 else 0)
  {
  }

  datatype Drained = Drained(rows: seq<Job>, tally: Tally)

  /** The candidates processed one after the other, in order, with their counters. */
  function Drain(rows: seq<Job>, jobs: seq<Candidate>, now: int, sha: Sha256): Drained {
    if jobs == [] then Drained(rows, Tally(0, 0, 0, 0))
    else
      var d := Drain(rows, jobs[..|jobs| - 1], now, sha);
      var p := Process(d.rows, jobs[|jobs| - 1], now, sha);
      Drained(p.rows, Tallied(d.tally, p.result))
  }

  /** Draining one more candidate processes it against the table the others left. */
  lemma DrainSnoc(rows: seq<Job>, jobs: seq<Candidate>, x: Candidate, now: int, sha: Sha256)
    ensures var d := Drain(rows, jobs, now, sha);
      var p := Process(d.rows, x, now, sha);
      Drain(rows, jobs + [x], now, sha) == Drained(p.rows, Tallied(d.tally, p.result))
  {
    assert (jobs + [x])[..|jobs + [x]| - 1] == jobs;
  }

  /** A prefix of a sequence, appended to another, grows one element at a time. */
  lemma AppendPrefix<T>(p: seq<T>, s: seq<T>, j: nat)
    requires j <= |s|
    ensures p + s[..0] == p
    ensures j < |s| ==> p + s[..j + 1] == (p + s[..j]) + [s[j]]
  {
    assert p + s[..0] == p;
    if j < |s| {
      assert p + s[..j + 1] == (p + s[..j]) + [s[j]];
    }
  }

  /** Prefixes of a sequence grow one element at a time up to the whole sequence. */
  lemma PrefixSnoc<T>(s: seq<T>, i: nat)
    requires i <= |s|
    ensures s[..|s|] == s
    ensures i < |s| ==> s[..i + 1] == s[..i] + [s[i]]
  {
    if i < |s| {
      assert s[..i + 1] == s[..i] + [s[i]];
    }
  }

  /** The front of a sequence with one more element is the sequence itself. */
  lemma InitOfSnoc<T>(s: seq<T>, x: T)
    ensures (s + [x])[..|s|] == s
  {
  }

  /** The batches up to `b + 1` are those up to `b` followed by batch `b`. */
  lemma FlattenSnoc(batches: seq<seq<Candidate>>, b: nat)
    requires b < |batches|
    ensures Flatten(batches[..b + 1]) == Flatten(batches[..b]) + batches[b]
  {
    assert batches[..b + 1][..b] == batches[..b];
  }

  /**
   * Over a drain every candidate is counted once, as scraped or as failed; new and
   * updated jobs are among the scraped ones; the table grows by the new jobs and stays valid.
   */
  lemma {:induction false} DrainCounts(rows: seq<Job>, jobs: seq<Candidate>, now: int, sha: Sha256)
    ensures var d := Drain(rows, jobs, now, sha);
      d.tally.newJobs + d.tally.updatedJobs <= d.tally.jobsScraped &&
      d.tally.jobsScraped + d.tally.failed == |jobs| &&
      |d.rows| == |rows| + d.tally.newJobs &&
      (ValidRows(rows) ==> ValidRows(d.rows))
  {
    if jobs != [] {
      var d := Drain(rows, jobs[..|jobs| - 1], now, sha);
      DrainCounts(rows, jobs[..|jobs| - 1], now, sha);
      var p := Process(d.rows, jobs[|jobs| - 1], now, sha);
      TallyStep(d.tally, p.result);
      if ValidRows(rows) {
        ProcessValid(d.rows, jobs[|jobs| - 1], now, sha);
      }
    }
  }

  /** The batches of a crawl, one after the other. */
  function Flatten(batches: seq<seq<Candidate>>): seq<Candidate> {
    if batches == [] then [] else Flatten(batches[..|batches| - 1]) + batches[|batches| - 1]
  }

  lemma {:induction false} TotalJobsSnoc(batches: seq<seq<Candidate>>, last: seq<Candidate>)
    ensures TotalJobs(batches + [last]) == TotalJobs(batches) + |last|
  {
    if batches != [] {
      assert (batches + [last])[1..] == batches[1..] + [last];
      TotalJobsSnoc(batches[1..], last);
    }
  }

  /** The flattened batches hold exactly the jobs the crawl counted. */
  lemma {:induction false} FlattenCountsJobs(batches: seq<seq<Candidate>>)
    ensures |Flatten(batches)| == TotalJobs(batches)
  {
    if batches != [] {
      var init := batches[..|batches| - 1];
      FlattenCountsJobs(init);
      TotalJobsSnoc(init, batches[|batches| - 1]);
      assert init + [batches[|batches| - 1]] == batches;
    }
  }

  /**
   * Every job a crawl found is processed once: the scraped and failed candidates of the
   * drain add up to the growth of the scraper's `jobs_found`.
   */
  lemma CrawlDrainedOnce(outcome: Outcomes, maxPages: int, page: int, st: Crawler.Stats,
                         rows: seq<Job>, now: int, sha: Sha256)
    ensures var c := Crawl(outcome, maxPages, page, st);
      var d := Drain(rows, Flatten(c.batches), now, sha);
      d.tally.jobsScraped + d.tally.failed == c.stats.jobsFound - st.jobsFound
  {
    var c := Crawl(outcome, maxPages, page, st);
    CrawlCounters(outcome, maxPages, page, st);
    FlattenCountsJobs(c.batches);
    DrainCounts(rows, Flatten(c.batches), now, sha);
  }

  // ---------------------------------------------------------------------------
  // Per-site and overall statistics

  datatype Status = Success | Failed

  /** The dict `_scrape_site` returns. */
  datatype SiteStats = SiteStats(
    status: Status,
    error: Option<string>,
    jobsScraped: nat,
    newJobs: nat,
    updatedJobs: nat,
    errors: nat,
    pagesScraped: nat)

  /** A site's entry in the summary: its statistics, or the message of the exception it raised. */
  datatype SiteResult = Completed(stats: SiteStats) | Raised(message: string)

  /** The manager's running totals. */
  datatype ManagerStats = ManagerStats(totalJobsScraped: nat, totalNewJobs: nat, totalErrors: nat, sitesProcessed: nat)

  /** The totals after one site: a completed site adds its counters, a raising one only an error. */
  function Recorded(st: ManagerStats, r: SiteResult): ManagerStats {
    match r
    case Completed(s) =>
      ManagerStats(st.totalJobsScraped + s.jobsScraped, st.totalNewJobs + s.newJobs,
                   st.totalErrors + s.errors, st.sitesProcessed + 1)
    case Raised(_) => st.(totalErrors := st.totalErrors + 1)
  }

  /** The totals after the sites' results, in order. */
  function Accumulate(st: ManagerStats, results: seq<SiteResult>): ManagerStats {
    if results == [] then st else Recorded(Accumulate(st, results[..|results| - 1]), results[|results| - 1])
  }

  function CompletedCount(results: seq<SiteResult>): nat {
    if results == [] then 0
    else CompletedCount(results[..|results| - 1]) + (if results[|results| - 1].Completed? then 1 else 0)
  }

  /** A site's new jobs are among its scraped jobs. */
  predicate NewWithinScraped(r: SiteResult) {
    r.Completed? ==> r.stats.newJobs <= r.stats.jobsScraped
  }

  /**
   * Over a run, `sites_processed` grows by the completed sites, every raising site adds
   * at least one error, and the new jobs grow no faster than the scraped jobs.
   */
  lemma {:induction false} AccumulateCounts(st: ManagerStats, results: seq<SiteResult>)
    requires forall k :: 0 <= k < |results| ==> NewWithinScraped(results[k])
    ensures var t := Accumulate(st, results);
      t.sitesProcessed == st.sitesProcessed + CompletedCount(results) &&
      t.totalErrors >= st.totalErrors + (|results| - CompletedCount(results)) &&
      t.totalJobsScraped >= st.totalJobsScraped &&
      t.totalNewJobs - st.totalNewJobs <= t.totalJobsScraped - st.totalJobsScraped
  {
    if results != [] {
      var init := results[..|results| - 1];
      assert forall k :: 0 <= k < |init| ==> init[k] == results[k];
      AccumulateCounts(st, init);
    }
  }

  /**
   * What `scrape_all_sites` records for a site: the message of its exception when it
   * raises; otherwise its statistics, failed exactly when it got no database session and
   * then carrying that error; and never more new jobs than scraped ones.
   */
  predicate EntryAgrees(siteName: string, entry: SiteResult, dbFailures: map<string, string>, crashes: map<string, string>) {
    (siteName in crashes ==> entry == Raised(crashes[siteName])) &&
    (siteName !in crashes ==>
      entry.Completed? &&
      (entry.stats.status == Failed <==> siteName in dbFailures) &&
      (siteName in dbFailures ==> entry.stats.error == Some(dbFailures[siteName]))) &&
    NewWithinScraped(entry)
  }

  /** The results of the sites in `order`. */
  function ResultsInOrder(order: seq<string>, results: map<string, SiteResult>): seq<SiteResult>
    requires forall n :: n in order ==> n in results
  {
    seq(|order|, k requires 0 <= k < |order| => results[order[k]])
  }

  /** Recording one more site, not recorded before, appends its entry to the results in order. */
  lemma ResultsInOrderSnoc(order: seq<string>, results: map<string, SiteResult>, n: string, r: SiteResult)
    requires forall m :: m in order ==> m in results
    requires n !in order
    ensures forall m :: m in order + [n] ==> m in results[n := r]
    ensures ResultsInOrder(order + [n], results[n := r]) == ResultsInOrder(order, results) + [r]
  {
  }

  /**
   * The loop of `scrape_all_sites` after the sites `done`: exactly those are recorded,
   * each as `EntryAgrees` says, and the totals are their entries accumulated in order.
   */
  ghost predicate RecordedSites(done: seq<string>, results: map<string, SiteResult>, totals: ManagerStats,
                          start: ManagerStats, dbFailures: map<string, string>, crashes: map<string, string>) {
    (forall n :: n in results <==> n in done) &&
    (forall n :: n in results ==> EntryAgrees(n, results[n], dbFailures, crashes)) &&
    totals == Accumulate(start, ResultsInOrder(done, results))
  }

  /** Recording one more site keeps `RecordedSites`. */
  lemma RecordSiteStep(done: seq<string>, results: map<string, SiteResult>, totals: ManagerStats,
                       start: ManagerStats, dbFailures: map<string, string>, crashes: map<string, string>,
                       n: string, r: SiteResult)
    requires RecordedSites(done, results, totals, start, dbFailures, crashes)
    requires n !in done && EntryAgrees(n, r, dbFailures, crashes)
    ensures RecordedSites(done + [n], results[n := r], Recorded(totals, r), start, dbFailures, crashes)
  {
    ResultsInOrderSnoc(done, results, n, r);
    AccumulateSnoc(start, ResultsInOrder(done, results), r);
  }

  /** The totals after one more site are that site's entry recorded on the totals before it. */
  lemma AccumulateSnoc(st: ManagerStats, results: seq<SiteResult>, r: SiteResult)
    ensures Accumulate(st, results + [r]) == Recorded(Accumulate(st, results), r)
  {
    assert (results + [r])[..|results|] == results;
  }

  /** The summary of `scrape_all_sites`; times are integer seconds. */
  datatype Summary = Summary(
    startTime: int,
    endTime: int,
    durationSeconds: int,
    overallStats: ManagerStats,
    siteResults: map<string, SiteResult>)

  // ---------------------------------------------------------------------------
  // A run over the sites, as values

  /** What one scraper's crawl depends on: its environment (whose pages give the outcomes), its page range and its counters before the run. */
  datatype SiteInput = SiteInput(env: Env<ListingElement>, maxPages: int, paginationStart: int, stats: Crawler.Stats)

  /** The input of a scraper as it stands. */
  ghost function InputOf(s: Scraper<ListingElement>): SiteInput
    reads s, s.config
  {
    SiteInput(s.Snapshot(), s.config.maxPages, s.config.paginationStart, s.GetStats())
  }

  /** What one site leaves behind: the table after it and its entry in the summary. */
  datatype SiteRun = SiteRun(rows: seq<Job>, entry: SiteResult)

  /**
   * One site of `scrape_all_sites` against the table `rows`: a raising site is recorded
   * by its message; a site without a database session is a failed entry; any other is
   * crawled and its batches drained into the table.
   */
  function RunSite(rows: seq<Job>, input: SiteInput, siteName: string, dbFailures: map<string, string>,
                   crashes: map<string, string>, now: int, sha: Sha256): SiteRun {
    if siteName in crashes then SiteRun(rows, Raised(crashes[siteName]))
    else
      var scrape := ScrapeRun(rows, input, SessionFailure(siteName, dbFailures), now, sha);
      SiteRun(scrape.rows, Completed(scrape.stats))
  }

  /** The error of a site's database session, if it cannot be had. */
  function SessionFailure(siteName: string, dbFailures: map<string, string>): Option<string> {
    if siteName in dbFailures then Some(dbFailures[siteName]) else None
  }

  /** What `_scrape_site` leaves behind: the table after it and the statistics it returns. */
  datatype SiteScrape = SiteScrape(rows: seq<Job>, stats: SiteStats)

  /**
   * `_scrape_site` against the table `rows`: without a database session a failed entry
   * and the table untouched; otherwise the crawl's batches drained into the table, with
   * the drain's counters, the crawl's pages and the candidate failures plus the crawl's errors.
   */
  function ScrapeRun(rows: seq<Job>, input: SiteInput, dbFailure: Option<string>, now: int, sha: Sha256): SiteScrape {
    if dbFailure.Some? then SiteScrape(rows, SiteStats(Failed, dbFailure, 0, 0, 0, 0, 0))
    else
      var c := Crawl(PageOutcomes(input.env), input.maxPages, input.paginationStart, input.stats);
      var d := Drain(rows, Flatten(c.batches), now, sha);
      SiteScrape(d.rows, SiteStats(Success, None, d.tally.jobsScraped, d.tally.newJobs, d.tally.updatedJobs,
                                   d.tally.failed + c.stats.errors, c.stats.pagesScraped))
  }

  // As written, `HirebaseScraper` extends `BaseScraper`, which defines only `__init__`; the
  // crawl methods live on `SeleniumBaseScraper`. So `scraper.scrape_all_pages()` raises
  // `AttributeError` once the session is open, and `_scrape_site` catches it. The members
  // above follow the evidently intended base; the three below state what the code does.

  /** `str(e)` of the `AttributeError` that `scraper.scrape_all_pages()` raises as written. */
  const NoCrawlMessage := "'HirebaseScraper' object has no attribute 'scrape_all_pages'"

  /**
   * One site of `scrape_all_sites` with the class hierarchy as written: a raising site is
   * recorded by its message; any other ends with a failed entry, the database error when it
   * gets no session and the missing-crawl error otherwise, and the table untouched.
   */
  function RunSiteAsWritten(rows: seq<Job>, siteName: string, dbFailures: map<string, string>,
                            crashes: map<string, string>): SiteRun {
    if siteName in crashes then SiteRun(rows, Raised(crashes[siteName]))
    else
      var error := if siteName in dbFailures then dbFailures[siteName] else NoCrawlMessage;
      SiteRun(rows, Completed(SiteStats(Failed, Some(error), 0, 0, 0, 0, 0)))
  }

  /**
   * As written, a site runs as if its session had failed with the missing-crawl error:
   * the session-failure path of `RunSite`, whatever the scraper's input.
   */
  lemma AsWrittenFailsLikeSession(rows: seq<Job>, input: SiteInput, siteName: string, dbFailures: map<string, string>,
                                  crashes: map<string, string>, now: int, sha: Sha256)
    ensures var failures := if siteName in dbFailures then dbFailures else dbFailures[siteName := NoCrawlMessage];
      RunSiteAsWritten(rows, siteName, dbFailures, crashes) == RunSite(rows, input, siteName, failures, crashes, now, sha)
  {
  }

  /**
   * The discrepancy: a site that neither raises nor lacks a session is scraped by `RunSite`
   * and reported as a success, but as written it is a failed entry carrying the
   * `AttributeError` message, with zero counters and the table untouched.
   */
  lemma AsWrittenNeverScrapes(rows: seq<Job>, input: SiteInput, siteName: string, dbFailures: map<string, string>,
                              crashes: map<string, string>, now: int, sha: Sha256)
    requires siteName !in crashes && siteName !in dbFailures
    ensures RunSiteAsWritten(rows, siteName, dbFailures, crashes) ==
      SiteRun(rows, Completed(SiteStats(Failed, Some(NoCrawlMessage), 0, 0, 0, 0, 0)))
    ensures var run := RunSite(rows, input, siteName, dbFailures, crashes, now, sha);
      run.entry.Completed? && run.entry.stats.status == Success && run.entry.stats.error == None
  {
  }

  /** Every entry a site leaves is one `EntryAgrees` allows, and the table stays valid. */
  lemma RunSiteAgrees(rows: seq<Job>, input: SiteInput, siteName: string, dbFailures: map<string, string>,
                      crashes: map<string, string>, now: int, sha: Sha256)
    ensures EntryAgrees(siteName, RunSite(rows, input, siteName, dbFailures, crashes, now, sha).entry, dbFailures, crashes)
    ensures ValidRows(rows) ==> ValidRows(RunSite(rows, input, siteName, dbFailures, crashes, now, sha).rows)
  {
    if siteName !in crashes && siteName !in dbFailures {
      var c := Crawl(PageOutcomes(input.env), input.maxPages, input.paginationStart, input.stats);
      DrainCounts(rows, Flatten(c.batches), now, sha);
    }
  }

  /** A raising site, and one without a database session, leaves the table as it found it. */
  lemma FailedSiteKeepsTable(rows: seq<Job>, input: SiteInput, siteName: string, dbFailures: map<string, string>,
                             crashes: map<string, string>, now: int, sha: Sha256)
    requires siteName in crashes || siteName in dbFailures
    ensures RunSite(rows, input, siteName, dbFailures, crashes, now, sha).rows == rows
    ensures RunSite(rows, input, siteName, dbFailures, crashes, now, sha).entry ==
      RunSite([], input, siteName, dbFailures, crashes, now, sha).entry
  {
  }

  /** The table after a run and the sites' entries, in site order. */
  datatype Run = Run(rows: seq<Job>, results: seq<SiteResult>)

  /** The sites of `order` one after the other, each run by `site` against the table the ones before it left. */
  function RunSites(rows: seq<Job>, order: seq<string>, site: (seq<Job>, string) -> SiteRun): (r: Run)
    ensures |r.results| == |order|
  {
    if order == [] then Run(rows, [])
    else
      var before := RunSites(rows, order[..|order| - 1], site);
      var last := site(before.rows, order[|order| - 1]);
      Run(last.rows, before.results + [last.entry])
  }

  /**
   * `RunSite` of each site with its input. A site without an input has no scraper and is
   * never visited; it is given an entry that leaves the table alone.
   */
  function SiteStep(inputs: map<string, SiteInput>, dbFailures: map<string, string>, crashes: map<string, string>,
                    now: int, sha: Sha256): (seq<Job>, string) -> SiteRun {
    (rows: seq<Job>, n: string) => SiteOf(rows, inputs, n, dbFailures, crashes, now, sha)
  }

  /** `RunSite` of a site with its input; a site without one leaves the table alone. */
  function SiteOf(rows: seq<Job>, inputs: map<string, SiteInput>, n: string, dbFailures: map<string, string>,
                  crashes: map<string, string>, now: int, sha: Sha256): SiteRun {
    if n in inputs then RunSite(rows, inputs[n], n, dbFailures, crashes, now, sha) else SiteRun(rows, Raised(""))
  }

  /** A run over one more site is the run before it followed by that site. */
  lemma RunSitesSnoc(rows: seq<Job>, order: seq<string>, m: string, site: (seq<Job>, string) -> SiteRun)
    ensures var before := RunSites(rows, order, site);
      RunSites(rows, order + [m], site) ==
        Run(site(before.rows, m).rows, before.results + [site(before.rows, m).entry])
  {
    assert (order + [m])[..|order|] == order;
  }

  /** Appending one entry to two result lists keeps them alike around position `p`. */
  lemma AlikeAround(w: seq<SiteResult>, o: seq<SiteResult>, e: SiteResult, p: nat)
    requires p < |w| && p <= |o|
    requires w[..p] == o[..p] && w[p + 1..] == o[p..]
    ensures (w + [e])[..p] == (o + [e])[..p] && (w + [e])[p + 1..] == (o + [e])[p..]
  {
    assert (w + [e])[..p] == w[..p];
    assert (o + [e])[..p] == o[..p];
    assert (w + [e])[p + 1..] == w[p + 1..] + [e];
    assert (o + [e])[p..] == o[p..] + [e];
  }

  /**
   * A site that leaves the table as it found it does not disturb the others: the run with
   * it gives the same table, and the same entries around its own, as the run without it.
   */
  lemma {:induction false} SiteIsolated(rows: seq<Job>, pre: seq<string>, n: string, post: seq<string>,
                                        site: (seq<Job>, string) -> SiteRun)
    requires forall r :: site(r, n).rows == r
    ensures var with := RunSites(rows, pre + [n] + post, site);
      var without := RunSites(rows, pre + post, site);
      with.rows == without.rows &&
      with.results[..|pre|] == without.results[..|pre|] &&
      with.results[|pre| + 1..] == without.results[|pre|..]
    decreases |post|
  {
    if post == [] {
      assert pre + [n] + post == pre + [n];
      assert pre + post == pre;
      RunSitesSnoc(rows, pre, n, site);
    } else {
      var init := post[..|post| - 1];
      var last := post[|post| - 1];
      SiteIsolated(rows, pre, n, init, site);
      assert pre + [n] + init + [last] == pre + [n] + post;
      assert pre + init + [last] == pre + post;
      RunSitesSnoc(rows, pre + [n] + init, last, site);
      RunSitesSnoc(rows, pre + init, last, site);
      var w := RunSites(rows, pre + [n] + init, site);
      var o := RunSites(rows, pre + init, site);
      AlikeAround(w.results, o.results, site(w.rows, last).entry, |pre|);
    }
  }

  /** A property every site keeps of the table holds of the table after the run. */
  lemma {:induction false} RunSitesKeep(rows: seq<Job>, order: seq<string>, site: (seq<Job>, string) -> SiteRun,
                                        inv: seq<Job> -> bool)
    requires forall r, k :: 0 <= k < |order| && inv(r) ==> inv(site(r, order[k]).rows)
    ensures inv(rows) ==> inv(RunSites(rows, order, site).rows)
  {
    if order != [] {
      var init := order[..|order| - 1];
      assert forall k :: 0 <= k < |init| ==> init[k] == order[k];
      RunSitesKeep(rows, init, site, inv);
    }
  }

  /** A property every site's entry has, whatever the table, holds of every entry of the run. */
  lemma {:induction false} RunSitesEvery(rows: seq<Job>, order: seq<string>, site: (seq<Job>, string) -> SiteRun,
                                         ok: (string, SiteResult) -> bool)
    requires forall r, k :: 0 <= k < |order| ==> ok(order[k], site(r, order[k]).entry)
    ensures forall k :: 0 <= k < |order| ==> ok(order[k], RunSites(rows, order, site).results[k])
  {
    if order != [] {
      var init := order[..|order| - 1];
      assert forall k :: 0 <= k < |init| ==> init[k] == order[k];
      RunSitesEvery(rows, init, site, ok);
    }
  }

  /** A raising site and one without a database session leave any table alone in `SiteStep`. */
  lemma FailedStepKeepsTable(inputs: map<string, SiteInput>, n: string, dbFailures: map<string, string>,
                             crashes: map<string, string>, now: int, sha: Sha256)
    requires n in crashes || n in dbFailures
    ensures forall r :: SiteStep(inputs, dbFailures, crashes, now, sha)(r, n).rows == r
  {
  }

  /**
   * `scrape_all_sites` goes on past a site that raises or gets no database session: the
   * other sites meet the same tables and leave the same entries as if it were not there.
   */
  lemma FailedSiteIsolated(rows: seq<Job>, pre: seq<string>, n: string, post: seq<string>,
                           inputs: map<string, SiteInput>, dbFailures: map<string, string>,
                           crashes: map<string, string>, now: int, sha: Sha256)
    requires n in crashes || n in dbFailures
    ensures var step := SiteStep(inputs, dbFailures, crashes, now, sha);
      var with := RunSites(rows, pre + [n] + post, step);
      var without := RunSites(rows, pre + post, step);
      with.rows == without.rows &&
      with.results[..|pre|] == without.results[..|pre|] &&
      with.results[|pre| + 1..] == without.results[|pre|..]
  {
    FailedStepKeepsTable(inputs, n, dbFailures, crashes, now, sha);
    SiteIsolated(rows, pre, n, post, SiteStep(inputs, dbFailures, crashes, now, sha));
  }

  /** Every entry of a run over sites with inputs is one `EntryAgrees` allows, and a valid table stays valid. */
  lemma RunSitesAgree(rows: seq<Job>, order: seq<string>, inputs: map<string, SiteInput>,
                      dbFailures: map<string, string>, crashes: map<string, string>, now: int, sha: Sha256)
    requires forall k :: 0 <= k < |order| ==> order[k] in inputs
    ensures var r := RunSites(rows, order, SiteStep(inputs, dbFailures, crashes, now, sha));
      forall k :: 0 <= k < |order| ==> EntryAgrees(order[k], r.results[k], dbFailures, crashes)
    ensures ValidRows(rows) ==> ValidRows(RunSites(rows, order, SiteStep(inputs, dbFailures, crashes, now, sha)).rows)
  {
    var step := SiteStep(inputs, dbFailures, crashes, now, sha);
    forall r, k | 0 <= k < |order|
      ensures EntryAgrees(order[k], step(r, order[k]).entry, dbFailures, crashes)
      ensures ValidRows(r) ==> ValidRows(step(r, order[k]).rows)
    {
      RunSiteAgrees(r, inputs[order[k]], order[k], dbFailures, crashes, now, sha);
    }
    RunSitesEvery(rows, order, step, (n: string, e: SiteResult) => EntryAgrees(n, e, dbFailures, crashes));
    RunSitesKeep(rows, order, step, ValidRows);
  }

  // ---------------------------------------------------------------------------
  // Choosing scrapers

  datatype ScraperKind = HirebaseKind

  /** In a list without repeats, an element does not occur before its own position. */
  lemma DistinctPrefix(names: seq<string>, i: nat)
    requires Distinct(names) && i < |names|
    ensures names[i] !in names[..i]
  {
    assert forall k :: 0 <= k < i ==> names[..i][k] == names[k];
  }

  /** The scraper classes by site key. */
  const ScraperMapping: map<string, ScraperKind> := map["hirebase" := HirebaseKind]

  /** The lookup of `_create_scraper`: only hirebase has an implementation. */
  function ScraperKindFor(siteName: string): (r: Option<ScraperKind>)
    ensures r.Some? <==> siteName == "hirebase"
  {
    if siteName in ScraperMapping then Some(ScraperMapping[siteName]) else None
  }

  predicate Distinct(names: seq<string>) {
    forall i, k :: 0 <= i < k < |names| ==> names[i] != names[k]
  }

  /**
   * The sites `_initialize_scrapers` keeps, in registry order: enabled, with an
   * implementation, and whose scraper was constructed without raising.
   */
  function Selected(names: seq<string>, registry: map<string, SiteConfig>, broken: set<string>): (r: seq<string>)
    ensures forall k :: k in r <==>
      k in names && k in GetEnabledSites(registry) && ScraperKindFor(k).Some? && k !in broken
    ensures Distinct(names) ==> Distinct(r)
  {
    if names == [] then []
    else
      var k := names[|names| - 1];
      var init := Selected(names[..|names| - 1], registry, broken);
      assert forall x :: x in names <==> x in names[..|names| - 1] || x == k;
      if k in GetEnabledSites(registry) && ScraperKindFor(k).Some? && k !in broken then init + [k] else init
  }

  /** One more site name: it is kept exactly when it is enabled, implemented and not broken. */
  lemma SelectedSnoc(names: seq<string>, i: nat, registry: map<string, SiteConfig>, broken: set<string>)
    requires i < |names|
    ensures Selected(names[..i + 1], registry, broken) ==
      Selected(names[..i], registry, broken) +
      (if names[i] in GetEnabledSites(registry) && ScraperKindFor(names[i]).Some? && names[i] !in broken then [names[i]] else [])
  {
    assert names[..i + 1][..i] == names[..i];
  }

  // ---------------------------------------------------------------------------
  // The manager

  class ScraperManager {
    /** The job table. */
    const store: JobStore
    /** What every scraper is built with: the HTTP session, the random draws, the HTML parser and MD5. */
    const session: Session
    const draws: int -> Draw
    const soup: string -> Soup
    const md5: Md5
    /** The Hirebase adapter over `soup` and `md5`, by base URL. */
    const adapterFor: string -> Crawler.Adapter<ListingElement>
    /** The scrapers by site key, and their keys in insertion order. */
    var order: seq<string>
    var scrapers: map<string, Scraper<ListingElement>>
    var stats: ManagerStats

    ghost predicate Valid()
      reads this, store
    {
      store.Valid() && Distinct(order) && (forall n :: n in scrapers <==> n in order)
    }

    /**
     * `__init__`: zero totals, then `_initialize_scrapers`; `names` lists the registry's
     * keys in its order, and a site in `broken` raises in its scraper's constructor.
     */
    constructor (registry: map<string, SiteConfig>, names: seq<string>, broken: set<string>,
                 store: JobStore, session: Session, draws: int -> Draw,
                 soup: string -> Soup, md5: Md5)
      requires store.Valid()
      requires Distinct(names) && forall k :: k in registry ==> k in names
      ensures Valid() && this.store == store
      ensures this.session == session && this.draws == draws && this.soup == soup && this.md5 == md5
      ensures stats == ManagerStats(0, 0, 0, 0)
      ensures order == Selected(names, registry, broken)
      ensures forall n :: n in scrapers <==> n in GetEnabledSites(registry) && n == "hirebase" && n !in broken
      ensures forall n :: n in scrapers ==>
        n in registry && fresh(scrapers[n]) && scrapers[n].config == registry[n] &&
        scrapers[n].adapter == HirebaseAdapter(registry[n].baseUrl, soup, md5) &&
        scrapers[n].GetStats() == Crawler.Stats(0, 0, 0, 0)
    {
      this.store := store;
      this.session := session;
      this.draws := draws;
      this.soup := soup;
      this.md5 := md5;
      this.adapterFor := (b: string) => HirebaseAdapter(b, soup, md5);
      order := [];
      scrapers := map[];
      stats := ManagerStats(0, 0, 0, 0);
      new;
      InitializeScrapers(registry, names, broken);
    }

    /**
     * `_initialize_scrapers`: for each enabled site in registry order, the scraper
     * `_create_scraper` gives, when it gives one and its constructor does not raise.
     */
    method InitializeScrapers(registry: map<string, SiteConfig>, names: seq<string>, broken: set<string>)
      requires Distinct(names) && order == [] && scrapers == map[]
      modifies this
      ensures order == Selected(names, registry, broken)
      ensures forall n :: n in scrapers <==> n in order
      ensures forall n :: n in scrapers ==> n in registry && fresh(scrapers[n]) && Built(scrapers[n], registry[n])
      ensures stats == old(stats)
    {
      var enabled := GetEnabledSites(registry);
      var i := 0;
      while i < |names|
        invariant 0 <= i <= |names|
        invariant order == Selected(names[..i], registry, broken)
        invariant forall n :: n in scrapers <==> n in order
        invariant forall n :: n in scrapers ==> n in registry && fresh(scrapers[n]) && Built(scrapers[n], registry[n])
        invariant stats == old(stats)
      {
        AddSite(registry, names, i, enabled, broken);
        i := i + 1;
      }
      PrefixSnoc(names, i);
    }

    /** One turn of `_initialize_scrapers`: the scraper for `names[i]` added when the site is enabled and its scraper can be built. */
    method AddSite(registry: map<string, SiteConfig>, names: seq<string>, i: nat,
                   enabled: map<string, SiteConfig>, broken: set<string>)
      requires i < |names| && Distinct(names) && enabled == GetEnabledSites(registry)
      requires order == Selected(names[..i], registry, broken)
      requires forall n :: n in scrapers <==> n in order
      modifies this
      ensures order == Selected(names[..i + 1], registry, broken)
      ensures forall n :: n in scrapers <==> n in order
      ensures forall n :: n in old(scrapers) ==> n in scrapers && scrapers[n] == old(scrapers)[n]
      ensures forall n :: n in scrapers && n !in old(scrapers) ==> n in registry && fresh(scrapers[n]) && Built(scrapers[n], registry[n])
      ensures stats == old(stats)
    {
      var siteName := names[i];
      SelectedSnoc(names, i, registry, broken);
      DistinctPrefix(names, i);
      if siteName in enabled && siteName !in broken {
        var scraper := CreateScraper(siteName, enabled[siteName]);
        if scraper.Some? {
          assert siteName in registry && enabled[siteName] == registry[siteName];
          scrapers := scrapers[siteName := scraper.value];
          order := order + [siteName];
        }
      }
    }

    /** A scraper as `_create_scraper` builds it for `config`: its adapter over the shared parser and MD5, and zero counters. */
    ghost predicate Built(s: Scraper<ListingElement>, config: SiteConfig)
      reads s
    {
      s.config == config && s.adapter == adapterFor(config.baseUrl) &&
      s.GetStats() == Crawler.Stats(0, 0, 0, 0)
    }

    /** `_create_scraper`: a fresh hirebase scraper for the hirebase key, `None` for any other. */
    method CreateScraper(siteName: string, config: SiteConfig) returns (r: Option<Scraper<ListingElement>>)
      ensures r.Some? <==> ScraperKindFor(siteName).Some?
      ensures r.Some? ==> fresh(r.value) && Built(r.value, config)
    {
      var kind := ScraperKindFor(siteName);
      if kind.None? {
        return None;
      }
      var scraper := new Scraper(config, session, draws, adapterFor(config.baseUrl));
      return Some(scraper);
    }

    /** `get_scraper_stats`: a copy of the totals, a value later runs do not change. */
    function GetScraperStats(): (s: ManagerStats)
      reads this
      ensures s == stats
    {
      stats
    }

    /**
     * `_process_job` against the store: the effect and result of `Process`. An update
     * assigns the candidate's column attributes one key at a time; a value its column
     * cannot hold is refused when the change is committed.
     */
    method ProcessJob(jobData: Candidate, now: int, sha: Sha256) returns (r: Result<Outcome, JobError>)
      requires store.Valid()
      modifies store
      ensures store.Valid()
      ensures Processed(r, store.rows) == Process(old(store.rows), jobData, now, sha)
    {
      var jobId := Get(jobData, "job_id");
      var website := Get(jobData, "job_website");
      if !Truthy(jobId) || !Truthy(website) {
        return Err(MissingRequiredFields);
      }
      var existing: Option<Job> := None;
      if jobId.Str? && website.Str? {
        existing := store.GetJobByIdAndWebsite(jobId.s, website.s);
      }
      ghost var rows0 := store.rows;
      if existing.None? {
        ProcessFresh(rows0, jobData, now, sha);
        var data := jobData["is_new" := Flag(true)];
        data := data["when_scraped" := Stamp(now)];
        data := data["last_seen" := Stamp(now)];
        var created := store.CreateJob(data, now, sha);
        if created.Err? {
          return Err(Db(created.error));
        }
        return Ok(New);
      }
      ghost var i := FindCandidate(rows0, jobData).value;
      ProcessSeen(rows0, jobData, now, sha);
      FoundIsCandidate(rows0, jobData, existing.value);
      FindIdUnique(rows0, i);
      var touched := store.UpdateJobLastSeen(existing.value.id, now);
      var h := GenerateContentHash(touched, sha);
      if touched.contentHash == Some(h) {
        return Ok(Existing);
      }
      var job, failed := CopyAttributes(touched, jobData);
      if failed {
        return Err(Db(IntegrityError));
      }
      RefreshedKeepsKeys(touched, jobData, h, now);
      var saved := job.(contentHash := Some(h), updatedAt := now);
      FindIdUnique(store.rows, i);
      store.SaveJob(saved);
      return Ok(Updated);
    }

    /**
     * `_scrape_site`: when no database session can be had, a failed entry carrying the
     * error and nothing scraped. Otherwise the crawl's batches are drained into the table
     * in order, and the entry holds the drain's counters, the scraper's `pages_scraped`
     * and the candidate failures plus the scraper's own `errors`.
     */
    method ScrapeSite(scraper: Scraper<ListingElement>, dbFailure: Option<string>, now: int, sha: Sha256) returns (s: SiteStats)
      requires store.Valid()
      modifies store, scraper
      ensures store.Valid()
      ensures dbFailure.Some? ==>
        s == SiteStats(Failed, dbFailure, 0, 0, 0, 0, 0) && store.rows == old(store.rows) &&
        scraper.GetStats() == old(scraper.GetStats())
      ensures dbFailure.None? ==>
        var c := Crawl(PageOutcomes(scraper.Snapshot()), scraper.config.maxPages, scraper.config.paginationStart, old(scraper.GetStats()));
        var d := Drain(old(store.rows), Flatten(c.batches), now, sha);
        scraper.GetStats() == c.stats && store.rows == d.rows &&
        s == SiteStats(Success, None, d.tally.jobsScraped, d.tally.newJobs, d.tally.updatedJobs,
                       d.tally.failed + c.stats.errors, c.stats.pagesScraped)
      ensures s.newJobs + s.updatedJobs <= s.jobsScraped
      ensures (s.status == Failed <==> dbFailure.Some?) && (dbFailure.Some? ==> s.error == dbFailure)
      ensures SiteScrape(store.rows, s) == ScrapeRun(old(store.rows), old(InputOf(scraper)), dbFailure, now, sha)
    {
      if dbFailure.Some? {
        return SiteStats(Failed, dbFailure, 0, 0, 0, 0, 0);
      }
      var batches := scraper.ScrapeAllPages();
      var after := scraper.GetStats();
      ghost var c := Crawl(PageOutcomes(scraper.Snapshot()), scraper.config.maxPages, scraper.config.paginationStart, old(scraper.GetStats()));
      assert batches == c.batches && after == c.stats;
      var t := DrainBatches(batches, now, sha);
      DrainCounts(old(store.rows), Flatten(batches), now, sha);
      s := SiteStats(Success, None, t.jobsScraped, t.newJobs, t.updatedJobs, t.failed + after.errors, after.pagesScraped);
    }

    /** The outer loop of `_scrape_site`: the crawl's batches drained in order. */
    method DrainBatches(batches: seq<seq<Candidate>>, now: int, sha: Sha256) returns (t: Tally)
      requires store.Valid()
      modifies store
      ensures store.Valid() && Drain(old(store.rows), Flatten(batches), now, sha) == Drained(store.rows, t)
    {
      t := Tally(0, 0, 0, 0);
      var b := 0;
      while b < |batches|
        invariant 0 <= b <= |batches|
        invariant store.Valid()
        invariant Drain(old(store.rows), Flatten(batches[..b]), now, sha) == Drained(store.rows, t)
      {
        FlattenSnoc(batches, b);
        t := ProcessBatch(old(store.rows), Flatten(batches[..b]), batches[b], t, now, sha);
        b := b + 1;
      }
      PrefixSnoc(batches, b);
    }

    /**
     * The inner loop of `_scrape_site`: each candidate of one batch processed in turn, a
     * raising candidate counted as failed and the rest counted by their outcome.
     */
    method ProcessBatch(ghost rows0: seq<Job>, ghost prefix: seq<Candidate>, batch: seq<Candidate>,
                        t0: Tally, now: int, sha: Sha256) returns (t: Tally)
      requires store.Valid() && Drain(rows0, prefix, now, sha) == Drained(store.rows, t0)
      modifies store
      ensures store.Valid() && Drain(rows0, prefix + batch, now, sha) == Drained(store.rows, t)
    {
      t := t0;
      AppendPrefix(prefix, batch, 0);
      var j := 0;
      while j < |batch|
        invariant 0 <= j <= |batch|
        invariant store.Valid()
        invariant Drain(rows0, prefix + batch[..j], now, sha) == Drained(store.rows, t)
      {
        var result := ProcessJob(batch[j], now, sha);
        DrainSnoc(rows0, prefix + batch[..j], batch[j], now, sha);
        AppendPrefix(prefix, batch, j);
        match result {
          case Ok(New) =>
            t := t.(jobsScraped := t.jobsScraped + 1, newJobs := t.newJobs + 1);
          case Ok(Updated) =>
            t := t.(jobsScraped := t.jobsScraped + 1, updatedJobs := t.updatedJobs + 1);
          case Ok(Existing) =>
            t := t.(jobsScraped := t.jobsScraped + 1);
          case Err(_) =>
            t := t.(failed := t.failed + 1);
        }
        j := j + 1;
      }
      PrefixSnoc(batch, j);
    }

    /**
     * One site of `scrape_all_sites`: a site in `crashes` raises and is recorded by its
     * message; any other is scraped, failing alone when it gets no database session.
     */
    method ScrapeEntry(siteName: string, dbFailures: map<string, string>, crashes: map<string, string>,
                       now: int, sha: Sha256) returns (entry: SiteResult)
      requires store.Valid() && siteName in scrapers
      modifies store, scrapers[siteName]
      ensures store.Valid()
      ensures var run := RunSite(old(store.rows), old(InputOf(scrapers[siteName])), siteName, dbFailures, crashes, now, sha);
        store.rows == run.rows && entry == run.entry
      ensures EntryAgrees(siteName, entry, dbFailures, crashes)
    {
      RunSiteAgrees(store.rows, InputOf(scrapers[siteName]), siteName, dbFailures, crashes, now, sha);
      if siteName in crashes {
        return Raised(crashes[siteName]);
      }
      var dbFailure := SessionFailure(siteName, dbFailures);
      var siteStats := ScrapeSite(scrapers[siteName], dbFailure, now, sha);
      entry := Completed(siteStats);
    }

    /**
     * The loop of `scrape_all_sites`: each site in `order` in turn, its entry recorded
     * under its key and added to the running totals, starting from `start`.
     */
    method ScrapeSites(start: ManagerStats, dbFailures: map<string, string>, crashes: map<string, string>,
                       now: int, sha: Sha256) returns (results: map<string, SiteResult>, totals: ManagerStats)
      requires Valid()
      modifies store, scrapers.Values
      ensures store.Valid()
      ensures RecordedSites(order, results, totals, start, dbFailures, crashes)
    {
      results := map[];
      totals := start;
      var i := 0;
      while i < |order|
        invariant 0 <= i <= |order|
        invariant store.Valid()
        invariant RecordedSites(order[..i], results, totals, start, dbFailures, crashes)
      {
        PrefixSnoc(order, i);
        DistinctPrefix(order, i);
        results, totals := VisitSite(order[..i], order[i], results, totals, start, dbFailures, crashes, now, sha);
        i := i + 1;
      }
      PrefixSnoc(order, i);
    }

    /** One turn of the loop of `scrape_all_sites`: the site's entry recorded and added to the totals. */
    method VisitSite(ghost done: seq<string>, siteName: string, results: map<string, SiteResult>, totals: ManagerStats,
                     ghost start: ManagerStats, dbFailures: map<string, string>, crashes: map<string, string>,
                     now: int, sha: Sha256) returns (results': map<string, SiteResult>, totals': ManagerStats)
      requires store.Valid() && siteName in scrapers && siteName !in done
      requires RecordedSites(done, results, totals, start, dbFailures, crashes)
      modifies store, scrapers[siteName]
      ensures store.Valid()
      ensures RecordedSites(done + [siteName], results', totals', start, dbFailures, crashes)
    {
      var entry := ScrapeEntry(siteName, dbFailures, crashes, now, sha);
      RecordSiteStep(done, results, totals, start, dbFailures, crashes, siteName, entry);
      totals' := Recorded(totals, entry);
      results' := results[siteName := entry];
    }

    /**
     * `scrape_all_sites`: each site in turn; a site in `crashes` raises, is recorded as
     * failed with one error and the run goes on; every other site is drained (failing
     * alone when it gets no database session, as `dbFailures` says). The totals are the
     * sums of the per-site counters in site order.
     */
    method ScrapeAllSites(dbFailures: map<string, string>, crashes: map<string, string>,
                          startTime: int, endTime: int, now: int, sha: Sha256) returns (summary: Summary)
      requires Valid()
      modifies this, store, scrapers.Values
      ensures Valid() && order == old(order) && scrapers == old(scrapers)
      ensures RecordedSites(order, summary.siteResults, stats, old(stats), dbFailures, crashes)
      ensures summary == Summary(startTime, endTime, endTime - startTime, stats, summary.siteResults)
    {
      ghost var before := scrapers;
      var results, totals := ScrapeSites(stats, dbFailures, crashes, now, sha);
      assert scrapers == before;
      stats := totals;
      summary := Summary(startTime, endTime, endTime - startTime, stats, results);
    }
  }
}
