/**
 * The three server actions over the `job_applications` table. Each resolves
 * the session first and throws `Unauthorized` without one. None of them checks
 * the submitted fields, and update and delete select the row by `id` alone:
 * the caller's user id is never compared with the row's owner.
 */
module Actions {
  import opened Wrappers
  import opened Schema

  /** The four form fields every action reads; `applicationUrl` is not read. */
  datatype ApplicationForm = ApplicationForm(
    companyName: string,
    jobTitle: string,
    status: Status,
    appliedDate: Timestamp)

  /**
   * What the database itself refuses: a varchar value too long for its column
   * (beyond trailing spaces), a colliding primary key, or an `id` argument that
   * is not uuid text.
   */
  datatype DbError = ValueTooLong | DuplicateKey | InvalidUuid

  datatype ActionError = Unauthorized | Database(cause: DbError)

  /** What an action reports, and the table it leaves behind. */
  datatype Effect = Effect(outcome: Outcome<ActionError>, table: Table)

  /** The insert `createApplication` issues for a signed-in user. */
  function InsertFor(user: UserId, form: ApplicationForm): (n: NewJobApplication)
    ensures n.userId == user && n.applicationUrl.None? && n.status == Some(form.status)
    ensures n.companyName == form.companyName && n.jobTitle == form.jobTitle
    ensures n.appliedDate == form.appliedDate
  {
    NewJobApplication(user, form.companyName, form.jobTitle, None, Some(form.status), form.appliedDate)
  }

  /**
   * The row `updateApplication` writes over `row`: four form fields, the two
   * varchar ones as their columns store them, and a new `updatedAt`. The
   * columns the update does not set are not checked again.
   */
  function Overwrite(row: JobApplication, form: ApplicationForm, now: Timestamp): (r: JobApplication)
    requires ColumnsAccept(form.companyName, form.jobTitle, None)
    ensures r.id == row.id && r.userId == row.userId && r.createdAt == row.createdAt
    ensures r.applicationUrl == row.applicationUrl
    ensures r.companyName == VarcharStore(form.companyName, CompanyNameLength)
    ensures r.jobTitle == VarcharStore(form.jobTitle, JobTitleLength)
    ensures r.status == form.status && r.appliedDate == form.appliedDate && r.updatedAt == now
    ensures ValidRow(row) ==> ValidRow(r)
  {
    row.(companyName := VarcharStore(form.companyName, CompanyNameLength),
         jobTitle := VarcharStore(form.jobTitle, JobTitleLength),
         status := form.status, appliedDate := form.appliedDate, updatedAt := now)
  }

  /**
   * `createApplication`: `newId` is the uuid the database draws and `now` its clock.
   * On success exactly one row is added, owned by the session user, with
   * its varchar values cut to their columns' lengths.
   */
  function CreateEffect(t: Table, session: Option<UserId>, form: ApplicationForm,
                        newId: ApplicationId, now: Timestamp): (r: Effect)
    ensures session.None? ==> r == Effect(Fail(Unauthorized), t)
    ensures r.outcome.Fail? ==> r.table == t
    ensures r.outcome.Pass? <==>
      session.Some? && ColumnsAccept(form.companyName, form.jobTitle, None) && newId !in t
    ensures r.outcome.Pass? ==>
      && r.table.Keys == t.Keys + {newId}
      && (forall id | id in t :: r.table[id] == t[id])
      && r.table[newId].id == newId
      && r.table[newId].userId == session.value
      && r.table[newId].companyName == VarcharStore(form.companyName, CompanyNameLength)
      && r.table[newId].jobTitle == VarcharStore(form.jobTitle, JobTitleLength)
      && r.table[newId].status == form.status
      && r.table[newId].appliedDate == form.appliedDate
      && r.table[newId].applicationUrl.None?
      && r.table[newId].createdAt == r.table[newId].updatedAt == now
  {
    match session
    case None => Effect(Fail(Unauthorized), t)
    case Some(user) =>
      var row := WithDefaults(InsertFor(user, form), newId, now);
      if !ColumnsAccept(row.companyName, row.jobTitle, row.applicationUrl) then
        Effect(Fail(Database(ValueTooLong)), t)
      else if newId in t then Effect(Fail(Database(DuplicateKey)), t)
      else Effect(Pass, t[newId := StoreColumns(row)])
  }

  /**
   * `updateApplication`: `now` is the application server's clock. An `id`
   * that is not uuid text is refused by the database, and so is a company
   * name or job title its column does not accept: the bound values are cast
   * to the columns' types before any row is matched. Otherwise the row is
   * found by `id` alone, and a missing id updates no row and reports no error.
   */
  function UpdateEffect(t: Table, session: Option<UserId>, id: ApplicationId,
                        form: ApplicationForm, now: Timestamp): (r: Effect)
    ensures session.None? ==> r == Effect(Fail(Unauthorized), t)
    ensures session.Some? && !IsUuid(id) ==> r == Effect(Fail(Database(InvalidUuid)), t)
    ensures session.Some? && IsUuid(id) && !ColumnsAccept(form.companyName, form.jobTitle, None) ==>
      r == Effect(Fail(Database(ValueTooLong)), t)
    ensures session.Some? && IsUuid(id) && ColumnsAccept(form.companyName, form.jobTitle, None) && id !in t ==>
      r == Effect(Pass, t)
    ensures r.outcome.Fail? ==> r.table == t
    ensures r.outcome.Pass? <==>
      session.Some? && IsUuid(id) && ColumnsAccept(form.companyName, form.jobTitle, None)
    ensures r.outcome.Pass? ==>
      && r.table.Keys == t.Keys
      && (forall k | k in t && k != id :: r.table[k] == t[k])
    ensures r.outcome.Pass? && id in t ==>
      && (ValidRow(t[id]) ==> ValidRow(r.table[id]))
      && r.table[id].id == t[id].id
      && r.table[id].userId == t[id].userId
      && r.table[id].createdAt == t[id].createdAt
      && r.table[id].applicationUrl == t[id].applicationUrl
      && r.table[id].companyName == VarcharStore(form.companyName, CompanyNameLength)
      && r.table[id].jobTitle == VarcharStore(form.jobTitle, JobTitleLength)
      && r.table[id].status == form.status
      && r.table[id].appliedDate == form.appliedDate
      && r.table[id].updatedAt == now
  {
    match session
    case None => Effect(Fail(Unauthorized), t)
    case Some(_) =>
      if !IsUuid(id) then Effect(Fail(Database(InvalidUuid)), t)
      else if !ColumnsAccept(form.companyName, form.jobTitle, None) then
        Effect(Fail(Database(ValueTooLong)), t)
      else if id !in t then Effect(Pass, t)
      else Effect(Pass, t[id := Overwrite(t[id], form, now)])
  }

  /**
   * `deleteApplication`: removes the row with `id`, whoever owns it; a missing
   * id is a no-op, and an `id` that is not uuid text is refused.
   */
  function DeleteEffect(t: Table, session: Option<UserId>, id: ApplicationId): (r: Effect)
    ensures session.None? ==> r == Effect(Fail(Unauthorized), t)
    ensures session.Some? && !IsUuid(id) ==> r == Effect(Fail(Database(InvalidUuid)), t)
    ensures session.Some? && IsUuid(id) ==>
      && r.outcome == Pass
      && r.table.Keys == t.Keys - {id}
      && (forall k | k in r.table :: r.table[k] == t[k])
  {
    match session
    case None => Effect(Fail(Unauthorized), t)
    case Some(_) =>
      if !IsUuid(id) then Effect(Fail(Database(InvalidUuid)), t)
      else Effect(Pass, t - {id})
  }

  /** The `job_applications` table as the actions see it: one map, updated in place. */
  class JobApplicationsTable {
    var rows: Table

    ghost predicate Valid()
      reads this
    {
      ValidTable(rows)
    }

    constructor ()
      ensures Valid() && rows == map[]
    {
      rows := map[];
    }

    method CreateApplication(session: Option<UserId>, form: ApplicationForm,
                             newId: ApplicationId, now: Timestamp) returns (r: Outcome<ActionError>)
      requires Valid()
      modifies this
      ensures Valid()
      ensures Effect(r, rows) == CreateEffect(old(rows), session, form, newId, now)
    {
      if session.None? {
        return Fail(Unauthorized);
      }
      var row := WithDefaults(InsertFor(session.value, form), newId, now);
      if !ColumnsAccept(row.companyName, row.jobTitle, row.applicationUrl) {
        return Fail(Database(ValueTooLong));
      }
      if newId in rows {
        return Fail(Database(DuplicateKey));
      }
      rows := rows[newId := StoreColumns(row)];
      r := Pass;
    }

    method UpdateApplication(session: Option<UserId>, id: ApplicationId,
                             form: ApplicationForm, now: Timestamp) returns (r: Outcome<ActionError>)
      requires Valid()
      modifies this
      ensures Valid()
      ensures Effect(r, rows) == UpdateEffect(old(rows), session, id, form, now)
    {
      if session.None? {
        return Fail(Unauthorized);
      }
      if !IsUuid(id) {
        return Fail(Database(InvalidUuid));
      }
      if !ColumnsAccept(form.companyName, form.jobTitle, None) {
        return Fail(Database(ValueTooLong));
      }
      if id in rows {
        rows := rows[id := Overwrite(rows[id], form, now)];
      }
      r := Pass;
    }

    method DeleteApplication(session: Option<UserId>, id: ApplicationId) returns (r: Outcome<ActionError>)
      requires Valid()
      modifies this
      ensures Valid()
      ensures Effect(r, rows) == DeleteEffect(old(rows), session, id)
    {
      if session.None? {
        return Fail(Unauthorized);
      }
      if !IsUuid(id) {
        return Fail(Database(InvalidUuid));
      }
      rows := rows - {id};
      r := Pass;
    }
  }

  /** Each action keeps every row under its own id and within the column bounds. */
  lemma ActionsPreserveValidTable(t: Table, session: Option<UserId>, id: ApplicationId,
                                  form: ApplicationForm, now: Timestamp)
    requires ValidTable(t)
    ensures ValidTable(CreateEffect(t, session, form, id, now).table)
    ensures ValidTable(UpdateEffect(t, session, id, form, now).table)
    ensures ValidTable(DeleteEffect(t, session, id).table)
  {
  }

  /**
   * The ownership gap: a signed-in user who does not own a row can still
   * overwrite it or delete it; the owner recorded on the row is kept as it was.
   */
  lemma AnySignedInUserCanChangeAnyRow(t: Table, caller: UserId, id: ApplicationId,
                                       form: ApplicationForm, now: Timestamp)
    requires IsUuid(id) && id in t && t[id].userId != caller
    requires ColumnsAccept(form.companyName, form.jobTitle, None)
    ensures var u := UpdateEffect(t, Some(caller), id, form, now);
      && u.outcome == Pass
      && u.table[id].userId == t[id].userId != caller
      && u.table[id].companyName == VarcharStore(form.companyName, CompanyNameLength)
      && u.table[id].status == form.status
    ensures var d := DeleteEffect(t, Some(caller), id);
      d.outcome == Pass && id !in d.table && |d.table| == |t| - 1
  {
  }

  /**
   * Update and delete of a well-formed id that is not in the table change
   * nothing: delete reports success, and so does update unless a form value
   * is too long for its column, which is refused even though no row matches.
   */
  lemma MissingIdIsSilentNoOp(t: Table, user: UserId, id: ApplicationId,
                              form: ApplicationForm, now: Timestamp)
    requires IsUuid(id) && id !in t
    ensures ColumnsAccept(form.companyName, form.jobTitle, None) ==>
      UpdateEffect(t, Some(user), id, form, now) == Effect(Pass, t)
    ensures !ColumnsAccept(form.companyName, form.jobTitle, None) ==>
      UpdateEffect(t, Some(user), id, form, now) == Effect(Fail(Database(ValueTooLong)), t)
    ensures DeleteEffect(t, Some(user), id) == Effect(Pass, t)
  {
  }

  /**
   * Update and delete of an id that is not uuid text fail and change nothing,
   * whatever the table holds; text shorter than a uuid is such an id.
   */
  lemma MalformedIdIsRefused(t: Table, user: UserId, id: ApplicationId,
                             form: ApplicationForm, now: Timestamp)
    requires |id| < 32
    ensures UpdateEffect(t, Some(user), id, form, now) == Effect(Fail(Database(InvalidUuid)), t)
    ensures DeleteEffect(t, Some(user), id) == Effect(Fail(Database(InvalidUuid)), t)
  {
    ShortTextIsNoUuid(id);
  }

  /**
   * A company name or job title one trailing space too long is stored cut to
   * its column; one with any other extra character makes the insert fail.
   */
  lemma OverlongValuesOnCreate(t: Table, user: UserId, newId: ApplicationId, name: string,
                               form: ApplicationForm, now: Timestamp)
    requires newId !in t && |name| == CompanyNameLength
    requires |form.jobTitle| <= JobTitleLength
    ensures var r := CreateEffect(t, Some(user), form.(companyName := name + " "), newId, now);
      r.outcome == Pass && r.table[newId].companyName == name
    ensures CreateEffect(t, Some(user), form.(companyName := name + "x"), newId, now)
      == Effect(Fail(Database(ValueTooLong)), t)
  {
    VarcharTrailingSpaces(name, CompanyNameLength);
  }

  /** No action writes anything without a session. */
  lemma NoSessionNoChange(t: Table, id: ApplicationId, form: ApplicationForm, now: Timestamp)
    ensures CreateEffect(t, None, form, id, now) == Effect(Fail(Unauthorized), t)
    ensures UpdateEffect(t, None, id, form, now) == Effect(Fail(Unauthorized), t)
    ensures DeleteEffect(t, None, id) == Effect(Fail(Unauthorized), t)
  {
  }

  /** Empty company names and job titles are stored as given: nothing checks them. */
  lemma EmptyFieldsAreStored(t: Table, user: UserId, newId: ApplicationId,
                             status: Status, appliedDate: Timestamp, now: Timestamp)
    requires newId !in t
    ensures var r := CreateEffect(t, Some(user), ApplicationForm("", "", status, appliedDate), newId, now);
      r.outcome == Pass && r.table[newId].companyName == "" && r.table[newId].jobTitle == ""
  {
  }

  /**
   * Any status may follow any other: an update sets the form's status whatever
   * the row held before.
   */
  lemma AnyStatusTransition(t: Table, user: UserId, id: ApplicationId,
                            form: ApplicationForm, now: Timestamp)
    requires IsUuid(id) && id in t && ColumnsAccept(form.companyName, form.jobTitle, None)
    ensures UpdateEffect(t, Some(user), id, form, now).table[id].status == form.status
  {
  }

  /**
   * `updatedAt` comes from the caller's clock and is never compared with
   * `createdAt`, so an update can leave `updatedAt` before `createdAt`.
   */
  lemma UpdatedAtNotOrderedAfterCreatedAt(t: Table, user: UserId, id: ApplicationId,
                                          form: ApplicationForm, now: Timestamp)
    requires IsUuid(id) && id in t && ColumnsAccept(form.companyName, form.jobTitle, None)
    requires now < t[id].createdAt
    ensures var u := UpdateEffect(t, Some(user), id, form, now).table[id];
      u.updatedAt < u.createdAt
  {
  }
}
