/**
 * The `jobs` table row (the `Job` record), the values a scraped job dictionary can
 * carry, and the content fingerprint `generate_content_hash`.
 */
module JobModel {
  import opened Wrappers
  import opened Text

  /**
   * `hashlib.sha256(content.encode()).hexdigest()`: an uninterpreted function of the
   * content string whose only known property is that it yields 64 lowercase hex digits.
   */
  type Sha256 = f: string -> string | forall s :: IsHexDigest(f(s), 64)
    witness (s: string) => ZeroDigest(64)

  /** A value in a scraped job dictionary. Timestamps are integer seconds. */
  datatype Val =
    | Null
    | Str(s: string)
    | Flag(b: bool)
    | Stamp(t: int)
    | Details(d: map<string, string>)

  /** A job dictionary as the scrapers build it: column names (or other keys) to values. */
  type Candidate = map<string, Val>

  /** Python truthiness of a value (`if not value`). */
  predicate Truthy(v: Val) {
    match v
    case Null => false
    case Str(s) => s != ""
    case Flag(b) => b
    case Stamp(_) => true
    case Details(d) => d != map[]
  }

  /** `job_data.get(key)`. */
  function Get(c: Candidate, key: string): Val {
    if key in c then c[key] else Null
  }

  /** One row of the `jobs` table. `job_id`, `role_title` and `job_website` are NOT NULL. */
  datatype Job = Job(
    id: nat,
    jobId: string,
    companyName: Option<string>,
    roleTitle: string,
    jobWebsite: string,
    jobUrl: Option<string>,
    location: Option<string>,
    salaryRange: Option<string>,
    jobDescription: Option<string>,
    requirements: Option<string>,
    whenScraped: int,
    lastSeen: int,
    isNew: bool,
    isRelevant: bool,
    isProcessed: bool,
    contentHash: Option<string>,
    createdAt: int,
    updatedAt: int)

  /** The natural key `(job_id, job_website)` of the unique constraint `unique_job_per_site`. */
  predicate SameKey(a: Job, b: Job) {
    a.jobId == b.jobId && a.jobWebsite == b.jobWebsite
  }

  // ---------------------------------------------------------------------------
  // Columns

  /** The mapped columns of `Job`. */
  datatype Column =
    | IdCol | JobIdCol | CompanyNameCol | RoleTitleCol | JobWebsiteCol | JobUrlCol
    | LocationCol | SalaryRangeCol | JobDescriptionCol | RequirementsCol
    | WhenScrapedCol | LastSeenCol | IsNewCol | IsRelevantCol | IsProcessedCol
    | ContentHashCol | CreatedAtCol | UpdatedAtCol

  /** The attribute name of a column, as a job dictionary spells it. */
  function Name(c: Column): string {
    match c
    case IdCol => "id"
    case JobIdCol => "job_id"
    case CompanyNameCol => "company_name"
    case RoleTitleCol => "role_title"
    case JobWebsiteCol => "job_website"
    case JobUrlCol => "job_url"
    case LocationCol => "location"
    case SalaryRangeCol => "salary_range"
    case JobDescriptionCol => "job_description"
    case RequirementsCol => "requirements"
    case WhenScrapedCol => "when_scraped"
    case LastSeenCol => "last_seen"
    case IsNewCol => "is_new"
    case IsRelevantCol => "is_relevant"
    case IsProcessedCol => "is_processed"
    case ContentHashCol => "content_hash"
    case CreatedAtCol => "created_at"
    case UpdatedAtCol => "updated_at"
  }

  /** The column an attribute name denotes, if any. */
  function ColumnOf(key: string): (r: Option<Column>)
    ensures r.Some? ==> Name(r.value) == key
    ensures r.None? ==> forall c :: Name(c) != key
  {
    match key
    case "id" => Some(IdCol)
    case "job_id" => Some(JobIdCol)
    case "company_name" => Some(CompanyNameCol)
    case "role_title" => Some(RoleTitleCol)
    case "job_website" => Some(JobWebsiteCol)
    case "job_url" => Some(JobUrlCol)
    case "location" => Some(LocationCol)
    case "salary_range" => Some(SalaryRangeCol)
    case "job_description" => Some(JobDescriptionCol)
    case "requirements" => Some(RequirementsCol)
    case "when_scraped" => Some(WhenScrapedCol)
    case "last_seen" => Some(LastSeenCol)
    case "is_new" => Some(IsNewCol)
    case "is_relevant" => Some(IsRelevantCol)
    case "is_processed" => Some(IsProcessedCol)
    case "content_hash" => Some(ContentHashCol)
    case "created_at" => Some(CreatedAtCol)
    case "updated_at" => Some(UpdatedAtCol)
    case _ => None
  }

  /** Distinct columns have distinct names. */
  lemma NameInjective(a: Column, b: Column)
    requires Name(a) == Name(b)
    ensures a == b
  {
    var r := ColumnOf(Name(a));
    assert r.Some?;
  }

  /** Whether `key` names a mapped column of `Job` (`hasattr` on a row, for data keys). */
  predicate IsColumn(key: string) {
    ColumnOf(key).Some?
  }

  const ColumnNames: set<string> := {
    "id", "job_id", "company_name", "role_title", "job_website", "job_url", "location",
    "salary_range", "job_description", "requirements", "when_scraped", "last_seen",
    "is_new", "is_relevant", "is_processed", "content_hash", "created_at", "updated_at"}

  lemma ColumnNamesAreColumns(key: string)
    ensures key in ColumnNames <==> IsColumn(key)
  {
  }

  predicate RequiredText(c: Column) {
    c == JobIdCol || c == RoleTitleCol || c == JobWebsiteCol
  }

  predicate OptionalText(c: Column) {
    c == CompanyNameCol || c == JobUrlCol || c == LocationCol || c == SalaryRangeCol ||
    c == JobDescriptionCol || c == RequirementsCol || c == ContentHashCol
  }

  predicate StampColumn(c: Column) {
    c == WhenScrapedCol || c == LastSeenCol || c == CreatedAtCol || c == UpdatedAtCol
  }

  predicate FlagColumn(c: Column) {
    c == IsNewCol || c == IsRelevantCol || c == IsProcessedCol
  }

  /**
   * Whether the store accepts value `v` in column `c`: text columns take strings (and
   * NULL when nullable), timestamp columns take timestamps, flag columns take booleans.
   * The integer primary key is never taken from a job dictionary.
   */
  predicate Fits(c: Column, v: Val) {
    if RequiredText(c) then v.Str?
    else if OptionalText(c) then v.Str? || v.Null?
    else if StampColumn(c) then v.Stamp?
    else if FlagColumn(c) then v.Flag?
    else false
  }

  function OptVal(o: Option<string>): Val {
    match o
    case None => Null
    case Some(s) => Str(s)
  }

  /** The value of column `c` of a row, as a dictionary value (the primary key reads as NULL). */
  function ColumnValue(j: Job, c: Column): Val {
    match c
    case IdCol => Null
    case JobIdCol => Str(j.jobId)
    case CompanyNameCol => OptVal(j.companyName)
    case RoleTitleCol => Str(j.roleTitle)
    case JobWebsiteCol => Str(j.jobWebsite)
    case JobUrlCol => OptVal(j.jobUrl)
    case LocationCol => OptVal(j.location)
    case SalaryRangeCol => OptVal(j.salaryRange)
    case JobDescriptionCol => OptVal(j.jobDescription)
    case RequirementsCol => OptVal(j.requirements)
    case WhenScrapedCol => Stamp(j.whenScraped)
    case LastSeenCol => Stamp(j.lastSeen)
    case IsNewCol => Flag(j.isNew)
    case IsRelevantCol => Flag(j.isRelevant)
    case IsProcessedCol => Flag(j.isProcessed)
    case ContentHashCol => OptVal(j.contentHash)
    case CreatedAtCol => Stamp(j.createdAt)
    case UpdatedAtCol => Stamp(j.updatedAt)
  }

  function AsOpt(v: Val, prev: Option<string>): Option<string> {
    match v
    case Str(s) => Some(s)
    case Null => None
    case _ => prev
  }

  function AsStr(v: Val, prev: string): string {
    if v.Str? then v.s else prev
  }

  function AsStamp(v: Val, prev: int): int {
    if v.Stamp? then v.t else prev
  }

  function AsFlag(v: Val, prev: bool): bool {
    if v.Flag? then v.b else prev
  }

  /** `setattr(job, name, v)` for a column that accepts `v`: that column changes, no other does. */
  function Assign(j: Job, c: Column, v: Val): (r: Job)
    requires Fits(c, v)
    ensures r.id == j.id
  {
    Job(j.id,
        if c == JobIdCol then AsStr(v, j.jobId) else j.jobId,
        if c == CompanyNameCol then AsOpt(v, j.companyName) else j.companyName,
        if c == RoleTitleCol then AsStr(v, j.roleTitle) else j.roleTitle,
        if c == JobWebsiteCol then AsStr(v, j.jobWebsite) else j.jobWebsite,
        if c == JobUrlCol then AsOpt(v, j.jobUrl) else j.jobUrl,
        if c == LocationCol then AsOpt(v, j.location) else j.location,
        if c == SalaryRangeCol then AsOpt(v, j.salaryRange) else j.salaryRange,
        if c == JobDescriptionCol then AsOpt(v, j.jobDescription) else j.jobDescription,
        if c == RequirementsCol then AsOpt(v, j.requirements) else j.requirements,
        if c == WhenScrapedCol then AsStamp(v, j.whenScraped) else j.whenScraped,
        if c == LastSeenCol then AsStamp(v, j.lastSeen) else j.lastSeen,
        if c == IsNewCol then AsFlag(v, j.isNew) else j.isNew,
        if c == IsRelevantCol then AsFlag(v, j.isRelevant) else j.isRelevant,
        if c == IsProcessedCol then AsFlag(v, j.isProcessed) else j.isProcessed,
        if c == ContentHashCol then AsOpt(v, j.contentHash) else j.contentHash,
        if c == CreatedAtCol then AsStamp(v, j.createdAt) else j.createdAt,
        if c == UpdatedAtCol then AsStamp(v, j.updatedAt) else j.updatedAt)
  }

  /** After `setattr` the assigned column holds the new value. */
  lemma AssignHit(j: Job, c: Column, v: Val)
    requires Fits(c, v)
    ensures ColumnValue(Assign(j, c, v), c) == v
  {
  }

  /** After `setattr` the assigned column holds the new value and every other column is unchanged. */
  lemma AssignFrame(j: Job, c: Column, v: Val, d: Column)
    requires Fits(c, v)
    ensures ColumnValue(Assign(j, c, v), d) == if d == c then v else ColumnValue(j, d)
  {
    if d == c {
      AssignHit(j, c, v);
    }
  }

  /** Two rows with the same primary key that agree on every column are the same row. */
  lemma {:induction false} ColumnsDetermineJob(a: Job, b: Job)
    requires a.id == b.id
    requires forall c :: ColumnValue(a, c) == ColumnValue(b, c)
    ensures a == b
  {
    assert a.jobId == b.jobId by { assert ColumnValue(a, JobIdCol) == ColumnValue(b, JobIdCol); }
    assert a.companyName == b.companyName by { assert ColumnValue(a, CompanyNameCol) == ColumnValue(b, CompanyNameCol); }
    assert a.roleTitle == b.roleTitle by { assert ColumnValue(a, RoleTitleCol) == ColumnValue(b, RoleTitleCol); }
    assert a.jobWebsite == b.jobWebsite by { assert ColumnValue(a, JobWebsiteCol) == ColumnValue(b, JobWebsiteCol); }
    assert a.jobUrl == b.jobUrl by { assert ColumnValue(a, JobUrlCol) == ColumnValue(b, JobUrlCol); }
    assert a.location == b.location by { assert ColumnValue(a, LocationCol) == ColumnValue(b, LocationCol); }
    assert a.salaryRange == b.salaryRange by { assert ColumnValue(a, SalaryRangeCol) == ColumnValue(b, SalaryRangeCol); }
    assert a.jobDescription == b.jobDescription by { assert ColumnValue(a, JobDescriptionCol) == ColumnValue(b, JobDescriptionCol); }
    assert a.requirements == b.requirements by { assert ColumnValue(a, RequirementsCol) == ColumnValue(b, RequirementsCol); }
    assert a.whenScraped == b.whenScraped by { assert ColumnValue(a, WhenScrapedCol) == ColumnValue(b, WhenScrapedCol); }
    assert a.lastSeen == b.lastSeen by { assert ColumnValue(a, LastSeenCol) == ColumnValue(b, LastSeenCol); }
    assert a.isNew == b.isNew by { assert ColumnValue(a, IsNewCol) == ColumnValue(b, IsNewCol); }
    assert a.isRelevant == b.isRelevant by { assert ColumnValue(a, IsRelevantCol) == ColumnValue(b, IsRelevantCol); }
    assert a.isProcessed == b.isProcessed by { assert ColumnValue(a, IsProcessedCol) == ColumnValue(b, IsProcessedCol); }
    assert a.contentHash == b.contentHash by { assert ColumnValue(a, ContentHashCol) == ColumnValue(b, ContentHashCol); }
    assert a.createdAt == b.createdAt by { assert ColumnValue(a, CreatedAtCol) == ColumnValue(b, CreatedAtCol); }
    assert a.updatedAt == b.updatedAt by { assert ColumnValue(a, UpdatedAtCol) == ColumnValue(b, UpdatedAtCol); }
  }

  /** The value a job dictionary gives column `c`, unless `c` is one of the columns in `skip`. */
  function Given(data: Candidate, skip: set<Column>, c: Column): Option<Val> {
    if c !in skip && Name(c) in data then Some(data[Name(c)]) else None
  }

  /** Rows agreeing on the `created_at` column have the same creation time. */
  lemma CreationColumn(a: Job, b: Job)
    requires ColumnValue(a, CreatedAtCol) == ColumnValue(b, CreatedAtCol)
    ensures a.createdAt == b.createdAt
  {
  }

  /** A skipped column is never given. */
  lemma SkippedNotGiven(data: Candidate, skip: set<Column>, c: Column)
    requires c in skip
    ensures Given(data, skip, c) == None
  {
  }

  /** Every value the dictionary gives a non-key column fits that column. */
  predicate AllFit(data: Candidate, skip: set<Column>) {
    forall c :: c != IdCol && Given(data, skip, c).Some? ==> Fits(c, Given(data, skip, c).value)
  }

  /** What column `c` holds once the dictionary has been applied: its value there, else the base row's. */
  function Take(base: Job, data: Candidate, skip: set<Column>, c: Column): Val {
    if c !in skip && Name(c) in data then data[Name(c)] else ColumnValue(base, c)
  }

  /**
   * `Job(**data)`, and the `setattr` loop over a dictionary: every column the dictionary
   * names (other than those in `skip`) takes its value there, every other column keeps
   * its value in `base`; the key never changes. The columns are distinct, so the order
   * in which they are assigned does not matter.
   */
  function Overlay(base: Job, data: Candidate, skip: set<Column>): (r: Job)
    requires AllFit(data, skip)
    ensures r.id == base.id
  {
    Job(base.id,
        AsStr(Take(base, data, skip, JobIdCol), base.jobId),
        AsOpt(Take(base, data, skip, CompanyNameCol), base.companyName),
        AsStr(Take(base, data, skip, RoleTitleCol), base.roleTitle),
        AsStr(Take(base, data, skip, JobWebsiteCol), base.jobWebsite),
        AsOpt(Take(base, data, skip, JobUrlCol), base.jobUrl),
        AsOpt(Take(base, data, skip, LocationCol), base.location),
        AsOpt(Take(base, data, skip, SalaryRangeCol), base.salaryRange),
        AsOpt(Take(base, data, skip, JobDescriptionCol), base.jobDescription),
        AsOpt(Take(base, data, skip, RequirementsCol), base.requirements),
        AsStamp(Take(base, data, skip, WhenScrapedCol), base.whenScraped),
        AsStamp(Take(base, data, skip, LastSeenCol), base.lastSeen),
        AsFlag(Take(base, data, skip, IsNewCol), base.isNew),
        AsFlag(Take(base, data, skip, IsRelevantCol), base.isRelevant),
        AsFlag(Take(base, data, skip, IsProcessedCol), base.isProcessed),
        AsOpt(Take(base, data, skip, ContentHashCol), base.contentHash),
        AsStamp(Take(base, data, skip, CreatedAtCol), base.createdAt),
        AsStamp(Take(base, data, skip, UpdatedAtCol), base.updatedAt))
  }

  /** What a non-key column holds always fits it. */
  lemma ColumnValueFits(j: Job, c: Column)
    requires c != IdCol
    ensures Fits(c, ColumnValue(j, c))
  {
  }

  /** What a non-key column takes from the dictionary, or keeps, fits it. */
  lemma TakeFits(base: Job, data: Candidate, skip: set<Column>, c: Column)
    requires AllFit(data, skip)
    requires c != IdCol
    ensures Fits(c, Take(base, data, skip, c))
  {
    if Given(data, skip, c).Some? {
      assert Fits(c, Given(data, skip, c).value);
    } else {
      ColumnValueFits(base, c);
    }
  }

  /** The four kinds of non-key column, one lemma each: an overlaid column holds what `Take` picks. */
  lemma OverlayRequiredText(base: Job, data: Candidate, skip: set<Column>, c: Column)
    requires AllFit(data, skip)
    requires RequiredText(c)
    ensures ColumnValue(Overlay(base, data, skip), c) == Take(base, data, skip, c)
  {
    TakeFits(base, data, skip, c);
  }

  lemma OverlayOptionalText(base: Job, data: Candidate, skip: set<Column>, c: Column)
    requires AllFit(data, skip)
    requires OptionalText(c)
    ensures ColumnValue(Overlay(base, data, skip), c) == Take(base, data, skip, c)
  {
    TakeFits(base, data, skip, c);
  }

  lemma OverlayStamp(base: Job, data: Candidate, skip: set<Column>, c: Column)
    requires AllFit(data, skip)
    requires StampColumn(c)
    ensures ColumnValue(Overlay(base, data, skip), c) == Take(base, data, skip, c)
  {
    TakeFits(base, data, skip, c);
    assert Take(base, data, skip, c).Stamp?;
  }

  lemma OverlayFlag(base: Job, data: Candidate, skip: set<Column>, c: Column)
    requires AllFit(data, skip)
    requires FlagColumn(c)
    ensures ColumnValue(Overlay(base, data, skip), c) == Take(base, data, skip, c)
  {
    TakeFits(base, data, skip, c);
    assert Take(base, data, skip, c).Flag?;
  }

  /** Each non-key column of an overlaid row comes from the dictionary when it names it, else from the base row. */
  lemma OverlayColumn(base: Job, data: Candidate, skip: set<Column>, c: Column)
    requires AllFit(data, skip)
    requires c != IdCol
    ensures ColumnValue(Overlay(base, data, skip), c) == Given(data, skip, c).GetOr(ColumnValue(base, c))
  {
    assert Take(base, data, skip, c) == Given(data, skip, c).GetOr(ColumnValue(base, c));
    if RequiredText(c) {
      OverlayRequiredText(base, data, skip, c);
    } else if OptionalText(c) {
      OverlayOptionalText(base, data, skip, c);
    } else if StampColumn(c) {
      OverlayStamp(base, data, skip, c);
    } else {
      OverlayFlag(base, data, skip, c);
    }
  }

  /**
   * The column defaults of a freshly inserted row: `when_scraped`, `last_seen`,
   * `created_at` and `updated_at` default to the current time, `is_new` to true,
   * `is_relevant` and `is_processed` to false, every nullable text column to NULL.
   * The NOT NULL text columns have no default; an insert must supply them.
   */
  function DefaultRow(id: nat, now: int): (r: Job)
    ensures r.id == id
    ensures r.isNew && !r.isRelevant && !r.isProcessed
    ensures r.whenScraped == now && r.lastSeen == now && r.createdAt == now && r.updatedAt == now
    ensures forall c :: OptionalText(c) ==> ColumnValue(r, c) == Null
  {
    Job(id, "", None, "", "", None, None, None, None, None, now, now, true, false, false, None, now, now)
  }

  // ---------------------------------------------------------------------------
  // Fingerprint

  /** An f-string field: `None` is rendered as the text "None". */
  function Render(o: Option<string>): string {
    match o
    case None => "None"
    case Some(s) => s
  }

  /** The hashed content: title, company, location, salary and description joined by '|'. */
  function ContentString(j: Job): string {
    j.roleTitle + "|" + Render(j.companyName) + "|" + Render(j.location) + "|" +
    Render(j.salaryRange) + "|" + Render(j.jobDescription)
  }

  /** `generate_content_hash`: a 64-digit lowercase hex fingerprint of the content string. */
  function GenerateContentHash(j: Job, sha: Sha256): (h: string)
    ensures IsHexDigest(h, 64)
  {
    sha(ContentString(j))
  }

  /** Rows that agree on the five hashed fields have equal fingerprints, whatever else differs. */
  lemma FingerprintIgnoresOtherFields(a: Job, b: Job, sha: Sha256)
    requires a.roleTitle == b.roleTitle && a.companyName == b.companyName
    requires a.location == b.location && a.salaryRange == b.salaryRange
    requires a.jobDescription == b.jobDescription
    ensures GenerateContentHash(a, sha) == GenerateContentHash(b, sha)
  {
  }

  /** Equal text around two pieces: the pieces are equal. */
  lemma {:induction false} CancelAround(p: string, x: string, y: string, s: string)
    requires p + x + s == p + y + s
    ensures x == y
  {
    var l := p + x + s;
    assert |x| == |y|;
    assert x == l[|p|..|p| + |x|];
    assert y == (p + y + s)[|p|..|p| + |y|];
  }

  /** The five hashed fields as they appear in the content string. */
  function Fields(j: Job): seq<string> {
    [j.roleTitle, Render(j.companyName), Render(j.location), Render(j.salaryRange), Render(j.jobDescription)]
  }

  /**
   * Changing exactly one hashed field, while the other four stay fixed, changes the
   * content string (so equal fingerprints of such rows can only come from a hash collision).
   */
  lemma {:induction false} SingleFieldChangeChangesContent(a: Job, b: Job, k: nat)
    requires k < 5
    requires Fields(a)[k] != Fields(b)[k]
    requires forall i :: 0 <= i < 5 && i != k ==> Fields(a)[i] == Fields(b)[i]
    ensures ContentString(a) != ContentString(b)
  {
    var fa, fb := Fields(a), Fields(b);
    var pre := if k == 0 then "" else Join(fa[..k], "|") + "|";
    var post := if k == 4 then "" else "|" + Join(fa[k + 1..], "|");
    assert fa[..k] == fb[..k];
    assert fa[k + 1..] == fb[k + 1..];
    assert ContentString(a) == pre + fa[k] + post by { ContentSplit(a, k); }
    assert ContentString(b) == pre + fb[k] + post by { ContentSplit(b, k); }
    if ContentString(a) == ContentString(b) {
      CancelAround(pre, fa[k], fb[k], post);
    }
  }

  /** The content string is the hashed fields joined by `|`. */
  lemma ContentIsJoin(j: Job)
    ensures ContentString(j) == Join(Fields(j), "|")
  {
    var f := Fields(j);
    var g, h, i := [f[1], f[2], f[3], f[4]], [f[2], f[3], f[4]], [f[3], f[4]];
    assert f[1..] == g && g[1..] == h && h[1..] == i && i[1..] == [f[4]];
    assert Join(i, "|") == f[3] + "|" + f[4];
    assert Join(h, "|") == f[2] + "|" + Join(i, "|");
    assert Join(g, "|") == f[1] + "|" + Join(h, "|");
    assert Join(f, "|") == f[0] + "|" + Join(g, "|");
    RegroupFive(f[0], f[1], f[2], f[3], f[4], "|");
  }

  lemma RegroupFive(a: string, b: string, c: string, d: string, e: string, s: string)
    ensures a + s + b + s + c + s + d + s + e == a + s + (b + s + (c + s + (d + s + e)))
  {
  }

  /** The content string around its `k`-th field. */
  lemma ContentSplit(j: Job, k: nat)
    requires k < 5
    ensures ContentString(j) ==
      (if k == 0 then "" else Join(Fields(j)[..k], "|") + "|") + Fields(j)[k] +
      (if k == 4 then "" else "|" + Join(Fields(j)[k + 1..], "|"))
  {
    ContentIsJoin(j);
    JoinAround(Fields(j), "|", k);
  }


  /** Rendering distinguishes two optional fields except a NULL and the literal text "None". */
  lemma RenderInjective(x: Option<string>, y: Option<string>)
    requires x != y
    requires x != Some("None") && y != Some("None")
    ensures Render(x) != Render(y)
  {
  }

  /** A NULL company and the company "None" produce the same content string, hence the same fingerprint. */
  lemma NullRendersLikeNoneText(j: Job, sha: Sha256)
    requires j.companyName == None
    ensures ContentString(j) == ContentString(j.(companyName := Some("None")))
    ensures GenerateContentHash(j, sha) == GenerateContentHash(j.(companyName := Some("None")), sha)
  {
  }
}
