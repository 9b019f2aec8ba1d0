/**
 * The `job_applications` table: the `application_status` enum, the row shape,
 * the column length bounds and the values the database fills in on insert.
 */
module Schema {
  import opened Wrappers

  type UserId = string
  type ApplicationId = string

  /** An instant. Only the order of instants matters to this model. */
  type Timestamp = int

  /** The closed status enum; `Applied` is the column default. */
  datatype Status = Applied | Interviewing | Offer | Accepted | Rejected

  /** The enum's values in declaration order. */
  const AllStatuses: seq<Status> := [Applied, Interviewing, Offer, Accepted, Rejected]

  /** The labels of the Postgres enum type, in declaration order. */
  const StatusLabels: seq<string> := ["applied", "interviewing", "offer", "accepted", "rejected"]

  /** The text the database stores and returns for a status. */
  function StatusName(s: Status): (name: string)
    ensures name in StatusLabels
  {
    match s
    case Applied => "applied"
    case Interviewing => "interviewing"
    case Offer => "offer"
    case Accepted => "accepted"
    case Rejected => "rejected"
  }

  /** Every status is listed once, and the i-th status carries the i-th label. */
  lemma StatusEnumIsClosed()
    ensures |AllStatuses| == |StatusLabels| == 5
    ensures forall s: Status :: s in AllStatuses
    ensures forall i | 0 <= i < |AllStatuses| :: StatusName(AllStatuses[i]) == StatusLabels[i]
    ensures forall s: Status, t: Status :: StatusName(s) == StatusName(t) ==> s == t
  {
    forall s: Status ensures s in AllStatuses {
      var i := match s
        case Applied => 0
        case Interviewing => 1
        case Offer => 2
        case Accepted => 3
        case Rejected => 4;
      assert AllStatuses[i] == s;
    }
  }

  /** Column lengths of `company_name`, `job_title` (varchar(255)) and `application_url` (varchar(500)). */
  const CompanyNameLength := 255
  const JobTitleLength := 255
  const ApplicationUrlLength := 500

  /** A stored row. `applicationUrl` is the one nullable column. */
  datatype JobApplication = JobApplication(
    id: ApplicationId,
    userId: UserId,
    companyName: string,
    jobTitle: string,
    applicationUrl: Option<string>,
    status: Status,
    appliedDate: Timestamp,
    createdAt: Timestamp,
    updatedAt: Timestamp)

  /** An insert: the columns with a database default (id, status, createdAt, updatedAt) are not given or optional. */
  datatype NewJobApplication = NewJobApplication(
    userId: UserId,
    companyName: string,
    jobTitle: string,
    applicationUrl: Option<string>,
    status: Option<Status>,
    appliedDate: Timestamp)

  /** The table, keyed by the primary key `id`. */
  type Table = map<ApplicationId, JobApplication>

  /** The varchar bounds every stored row respects. */
  predicate FitsColumns(companyName: string, jobTitle: string, applicationUrl: Option<string>)
  {
    && |companyName| <= CompanyNameLength
    && |jobTitle| <= JobTitleLength
    && (applicationUrl.Some? ==> |applicationUrl.value| <= ApplicationUrlLength)
  }

  /**
   * What a `varchar(n)` column accepts when a value is written to it: a longer
   * value is an error unless every character past the n-th is a space.
   */
  predicate VarcharAccepts(s: string, n: nat)
  {
    forall i | n <= i < |s| :: s[i] == ' '
  }

  /** The value a `varchar(n)` column stores for an accepted value: only trailing spaces are cut. */
  function VarcharStore(s: string, n: nat): (r: string)
    requires VarcharAccepts(s, n)
    ensures |r| == if |s| <= n then |s| else n
    ensures r <= s
    ensures |s| <= n ==> r == s
    ensures forall i | |r| <= i < |s| :: s[i] == ' '
  {
    if |s| <= n then s else s[..n]
  }

  /** The three varchar columns accept the values. */
  predicate ColumnsAccept(companyName: string, jobTitle: string, applicationUrl: Option<string>)
  {
    && VarcharAccepts(companyName, CompanyNameLength)
    && VarcharAccepts(jobTitle, JobTitleLength)
    && (applicationUrl.Some? ==> VarcharAccepts(applicationUrl.value, ApplicationUrlLength))
  }

  /** The row as the database stores it, each varchar value cut to its column's length. */
  function StoreColumns(row: JobApplication): (r: JobApplication)
    requires ColumnsAccept(row.companyName, row.jobTitle, row.applicationUrl)
    ensures ValidRow(r)
    ensures r.companyName == VarcharStore(row.companyName, CompanyNameLength)
    ensures r.jobTitle == VarcharStore(row.jobTitle, JobTitleLength)
    ensures row.applicationUrl.None? ==> r.applicationUrl.None?
    ensures row.applicationUrl.Some? ==>
      r.applicationUrl == Some(VarcharStore(row.applicationUrl.value, ApplicationUrlLength))
    ensures r.id == row.id && r.userId == row.userId && r.status == row.status
    ensures r.appliedDate == row.appliedDate && r.createdAt == row.createdAt && r.updatedAt == row.updatedAt
    ensures ValidRow(row) ==> r == row
  {
    row.(
      companyName := VarcharStore(row.companyName, CompanyNameLength),
      jobTitle := VarcharStore(row.jobTitle, JobTitleLength),
      applicationUrl :=
        if row.applicationUrl.Some? then Some(VarcharStore(row.applicationUrl.value, ApplicationUrlLength))
        else None)
  }

  /** A value one space too long is stored cut; one with any other extra character is refused. */
  lemma VarcharTrailingSpaces(s: string, n: nat)
    requires |s| == n
    ensures VarcharAccepts(s + " ", n) && VarcharStore(s + " ", n) == s
    ensures !VarcharAccepts(s + "x", n)
  {
    assert (s + "x")[n] == 'x';
  }

  predicate IsHexDigit(c: char)
  {
    '0' <= c <= '9' || 'a' <= c <= 'f' || 'A' <= c <= 'F'
  }

  /**
   * PostgreSQL's uuid input syntax, for the text left after `i` of the 16
   * bytes: two hex digits per byte, and one optional `-` after each
   * odd-numbered byte but the last.
   */
  predicate UuidBytes(s: string, i: nat)
    requires i <= 16
    decreases 16 - i
  {
    if i == 16 then s == []
    else
      && |s| >= 2 && IsHexDigit(s[0]) && IsHexDigit(s[1])
      && var rest := s[2..];
         if |rest| > 0 && rest[0] == '-' && i % 2 == 1 && i < 15 then UuidBytes(rest[1..], i + 1)
         else UuidBytes(rest, i + 1)
  }

  /** Text the `uuid` type accepts: the 16 bytes, optionally inside braces. */
  predicate IsUuid(s: string)
  {
    if |s| > 0 && s[0] == '{' then |s| >= 2 && s[|s| - 1] == '}' && UuidBytes(s[1..|s| - 1], 0)
    else UuidBytes(s, 0)
  }

  /** Text too short for 16 bytes is no uuid. */
  lemma ShortTextIsNoUuid(s: string)
    requires |s| < 32
    ensures !IsUuid(s)
  {
    if |s| >= 2 && s[0] == '{' {
      UuidBytesNeedDigits(s[1..|s| - 1], 0);
    } else {
      UuidBytesNeedDigits(s, 0);
    }
  }

  lemma {:induction false} UuidBytesNeedDigits(s: string, i: nat)
    requires i <= 16
    ensures UuidBytes(s, i) ==> |s| >= 2 * (16 - i)
    decreases 16 - i
  {
    if i < 16 && |s| >= 2 {
      var rest := s[2..];
      if |rest| > 0 && rest[0] == '-' && i % 2 == 1 && i < 15 {
        UuidBytesNeedDigits(rest[1..], i + 1);
      } else {
        UuidBytesNeedDigits(rest, i + 1);
      }
    }
  }

  predicate ValidRow(row: JobApplication)
  {
    FitsColumns(row.companyName, row.jobTitle, row.applicationUrl)
  }

  /** Every stored row sits under its own id and respects the column bounds. */
  ghost predicate ValidTable(t: Table)
  {
    forall id | id in t :: t[id].id == id && ValidRow(t[id])
  }

  /**
   * The row the database builds for an insert: `id` is the freshly drawn uuid,
   * an omitted status becomes `applied`, and `createdAt` and `updatedAt` both
   * take the statement's `now()`.
   */
  function WithDefaults(n: NewJobApplication, id: ApplicationId, now: Timestamp): (row: JobApplication)
    ensures row.id == id && row.userId == n.userId
    ensures row.companyName == n.companyName && row.jobTitle == n.jobTitle
    ensures row.applicationUrl == n.applicationUrl && row.appliedDate == n.appliedDate
    ensures n.status.None? ==> row.status == Applied
    ensures n.status.Some? ==> row.status == n.status.value
    ensures row.createdAt == row.updatedAt == now
    ensures ValidRow(row) <==> FitsColumns(n.companyName, n.jobTitle, n.applicationUrl)
  {
    JobApplication(
      id, n.userId, n.companyName, n.jobTitle, n.applicationUrl,
      if n.status.Some? then n.status.value else Applied,
      n.appliedDate, now, now)
  }
}
