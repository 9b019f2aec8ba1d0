# Job-application tracker: table, actions and dashboard views

A Dafny model of the logic in a small job-application tracking web application.
Signed-in users keep a list of job applications: company, job title, status and
applied date. The model covers:

- the `job_applications` table and its closed `application_status` enum, with the
  column bounds and the values the database fills in on insert (`Schema`);
- the three server actions `createApplication`, `updateApplication` and
  `deleteApplication`. Each sits behind a session gate that throws `Unauthorized`.
  They are modelled as a class over the table map, with pure effect functions that
  specify them (`Actions`);
- the dashboard page. It selects the user's rows ordered by `createdAt` and shows
  one Total card and four per-status cards, then either the empty state or one row
  per application. Each row carries a capitalised status badge (`Dashboard`);
- the filter and sort dropdowns. They have fixed option lists, button labels with
  fallbacks, and a check mark on the current entry (`Filters`);
- the applications table component. Its two handlers copy the query string, delete
  or set one key, and navigate to `/dashboard`. It also picks the empty-state text
  (`ApplicationsTable`).

Some external inputs become explicit parameters:

- The session becomes `Option<UserId>`.
- The database's random uuid becomes the `newId` parameter.
- The two clocks become `Timestamp` parameters. These are the database's `now()`
  for `createdAt`/`updatedAt` on insert and the server's `new Date()` for
  `updatedAt` on update.
- Navigation becomes the returned URL string.

The actions do not scope writes by owner, and they validate nothing themselves.
The model follows the code:

- Update and delete select by `id` alone. Any signed-in user can overwrite or delete
  any row (`AnySignedInUserCanChangeAnyRow`, `ForeignDeleteShrinksOwnersDashboard`).
- A well-formed id that matches no row is a silent success, not a not-found error.
  An update is still refused when a form value is too long for its column, since
  the values are cast before any row is matched.
- No action rejects empty names, and there is no validation error.
- The dashboard orders rows by `createdAt`, not by the applied date.
- An unrecognised filter is captioned "All Applications". It still checks no
  dropdown entry, and the empty-state message names it (`UnknownFilterShownAsAll`).
- `updatedAt >= createdAt` is not enforced (`UpdatedAtNotOrderedAfterCreatedAt`).

The database, not the actions, enforces the column types and the primary key:

- A `varchar(n)` value longer than `n` fails with `Database(ValueTooLong)`, unless
  every character past the `n`-th is a space. Such trailing spaces are cut and the
  write succeeds (`Schema.VarcharStore`, `Actions.OverlongValuesOnCreate`).
- An id argument to update or delete that is not uuid text fails with
  `Database(InvalidUuid)`, whether or not any row would match
  (`Schema.IsUuid`, `Actions.MalformedIdIsRefused`). The syntax accepted is
  PostgreSQL's: 32 hex digits, optionally in braces, with an optional `-` after
  every fourth digit but the last.
- A drawn id that collides fails with `Database(DuplicateKey)`.

## Model

| member | source | states |
|---|---|---|
| Schema.StatusEnumIsClosed | lib/db/schema.ts:4-10 | there are exactly five statuses, in declaration order, each with its own distinct enum label |
| Schema.VarcharStore | lib/db/schema.ts:16-18 | a `varchar(n)` column stores an accepted value as its prefix of exactly `n` characters when longer, dropping only spaces, and unchanged when it fits |
| Schema.StoreColumns | lib/db/schema.ts:16-18 | the stored row is within every bound, has each varchar field cut by its column, keeps every other field, and is the row itself when that already fits |
| Schema.VarcharTrailingSpaces | lib/db/schema.ts:16-17 | one trailing space too many is accepted and cut; any other extra character is refused |
| Schema.ShortTextIsNoUuid | lib/db/schema.ts:14 | text shorter than 32 characters is never a uuid |
| Schema.UuidBytesNeedDigits | lib/db/schema.ts:14 | the uuid syntax needs two characters per remaining byte |
| Schema.WithDefaults | lib/db/schema.ts:14-22 | an inserted row gets the drawn id, status `applied` when omitted, `createdAt == updatedAt == now`, and fits the columns iff the insert does |
| Actions.InsertFor | app/dashboard/actions.ts:27-34 | the insert is owned by the session user, carries the form's company, title, status and applied date, and leaves `applicationUrl` null |
| Actions.Overwrite | app/dashboard/actions.ts:54-64 | update writes the four form fields (company and title as their columns store them) and `updatedAt`; id, owner, `createdAt` and url are kept, and a row within the bounds stays within them |
| Actions.CreateEffect | app/dashboard/actions.ts:12-37 | no session means `Unauthorized` with the table unchanged; success iff signed in, accepted by the varchar columns and with a fresh id; success adds exactly one row, owned by the caller, carrying the submitted fields as the columns store them, and leaves every other row as it was |
| Actions.UpdateEffect | app/dashboard/actions.ts:39-67 | no session means `Unauthorized`; an id that is not uuid text means `InvalidUuid`, then a company or title its column refuses means `ValueTooLong`, both with nothing changed and whether or not a row matches; otherwise success, where a missing id changes nothing and otherwise only the row with that id changes, in its four fields (as stored) and `updatedAt` |
| Actions.DeleteEffect | app/dashboard/actions.ts:69-81 | no session means `Unauthorized`; an id that is not uuid text means `InvalidUuid` with nothing changed; otherwise success, with exactly the key `id` removed and every other row unchanged |
| Actions.JobApplicationsTable.CreateApplication | app/dashboard/actions.ts:12-37 | the in-place insert keeps the table valid and has the outcome and new table of `CreateEffect` |
| Actions.JobApplicationsTable.UpdateApplication | app/dashboard/actions.ts:39-67 | the in-place update keeps the table valid and has the outcome and new table of `UpdateEffect` |
| Actions.JobApplicationsTable.DeleteApplication | app/dashboard/actions.ts:69-81 | the in-place delete keeps the table valid and has the outcome and new table of `DeleteEffect` |
| Actions.ActionsPreserveValidTable | lib/db/schema.ts:14-18 | every action keeps each row under its own id and within the varchar bounds |
| Actions.AnySignedInUserCanChangeAnyRow | app/dashboard/actions.ts:54-78 | a signed-in non-owner's update succeeds and rewrites the row, keeping the original owner; a non-owner's delete removes it |
| Actions.MissingIdIsSilentNoOp | app/dashboard/actions.ts:54-78 | update and delete of a well-formed but absent id leave the table equal; delete succeeds, and update succeeds iff the company and title columns accept the form's values, failing with `ValueTooLong` otherwise |
| Actions.MalformedIdIsRefused | app/dashboard/actions.ts:64-78 | update and delete of text too short for a uuid fail with `InvalidUuid` and leave the table equal |
| Actions.OverlongValuesOnCreate | app/dashboard/actions.ts:27-34 | a company name one trailing space over 255 is stored cut to 255; one extra non-space character makes the create fail with `ValueTooLong` |
| Actions.NoSessionNoChange | app/dashboard/actions.ts:13-19 | without a session all three actions fail with `Unauthorized` and change nothing |
| Actions.EmptyFieldsAreStored | app/dashboard/actions.ts:21-34 | a create with empty company and title succeeds and stores them empty |
| Actions.AnyStatusTransition | app/dashboard/actions.ts:51-64 | an update sets any status, whatever the row held before |
| Actions.UpdatedAtNotOrderedAfterCreatedAt | app/dashboard/actions.ts:62 | an update with an earlier clock leaves `updatedAt < createdAt` |
| Dashboard.OwnedIds | app/dashboard/page.tsx:19-22 | exactly the ids whose row has the user's `userId` |
| Dashboard.OrderByCreatedAt | app/dashboard/page.tsx:23 | the selected ids, each once, in ascending `createdAt` order |
| Dashboard.ListApplications | app/dashboard/page.tsx:19-23 | the query returns one row per owned id, each with the user's `userId` |
| Dashboard.ListedRowsAreOwned | app/dashboard/page.tsx:19-22 | every listed row is a stored row with the user's `userId`, and the list has one entry per row the user owns |
| Dashboard.OwnedRowsAreListed | app/dashboard/page.tsx:19-22 | every stored row with the user's `userId` is listed |
| Dashboard.ListedRowsAscendByCreatedAt | app/dashboard/page.tsx:23 | the listed rows ascend by `createdAt` |
| Dashboard.WithStatus | app/dashboard/page.tsx:44-60 | the filtered list holds each row with that status exactly as often as the list does and no other row, and its length is that status's count |
| Dashboard.Stats | app/dashboard/page.tsx:36-61 | Total is the list length and each status card is the number of listed rows with that status |
| Dashboard.StatusCountsPartition | app/dashboard/page.tsx:36-61 | the five per-status counts sum to the list length |
| Dashboard.StatusCardsOmitRejected | app/dashboard/page.tsx:36-61 | Applied + Interviewing + Offer + Accepted equals Total minus the rejected rows, so it is at most Total |
| Dashboard.UpperAscii | app/dashboard/page.tsx:150 | a lowercase letter becomes its capital, and any other character is unchanged |
| Dashboard.StatusBadge | app/dashboard/page.tsx:139-153 | the badge label has the status's length, an upper-cased first character and the rest unchanged |
| Dashboard.StatusBadgeLabels | components/applications-table.tsx:115-129 | each of the five statuses shows as its capitalised name |
| Dashboard.RowFor | app/dashboard/page.tsx:102-118 | the row is keyed by the application id, shows its company, title and applied date, and a badge with the status's capitalised name |
| Dashboard.Rows | app/dashboard/page.tsx:101-120 | one row per application, in input order, each built from that application |
| Dashboard.RenderDashboard | app/dashboard/page.tsx:25-128 | the cards are the list's `Stats`; the empty-state message and hint are shown iff the list is empty; otherwise one row per application, in order, each its `RowFor` |
| Dashboard.DashboardPage | app/dashboard/page.tsx:10-17 | the page renders nothing exactly when there is no session |
| Dashboard.TotalCountsOwnRows | app/dashboard/page.tsx:37-41 | the Total card equals the number of rows the user owns |
| Dashboard.CreateAppearsOnDashboard | app/dashboard/page.tsx:19-39 | after a successful create, the new row is on its creator's list and Total grew by one |
| Dashboard.ForeignDeleteShrinksOwnersDashboard | app/dashboard/actions.ts:78 | another user's delete takes one row off the owner's dashboard |
| Filters.Find | components/application-filters.tsx:44-50 | finds the first option with the value, or none exactly when no option has it |
| Filters.OptionListsAreFixed | components/application-filters.tsx:30-42 | six filter options (`all`, then the five statuses in enum order) and two sort options (`latest`, `earliest`), all values distinct |
| Filters.FilterLabel | components/application-filters.tsx:44-46 | the filter caption is always the label of one of the filter options |
| Filters.SortLabel | components/application-filters.tsx:48-50 | the sort caption is always the label of one of the sort options |
| Filters.FilterLabelSpec | components/application-filters.tsx:44-46 | a listed filter shows its own label; any other value shows "All Applications"; that caption appears iff the filter is `all` or unlisted |
| Filters.SortLabelSpec | components/application-filters.tsx:48-50 | `latest` and `earliest` show their labels; any other value shows "Latest First" |
| Filters.Menu | components/application-filters.tsx:65-98 | one entry per option, in order, with its label; clicking passes exactly the option's value; checked iff the value is the current one |
| Filters.AtMostOneChecked | components/application-filters.tsx:72 | with distinct values, at most one entry carries the check mark |
| Filters.DropdownChecksCurrentValue | components/application-filters.tsx:72-96 | in both dropdowns only the current value's entry is checked, and at most one is |
| Filters.ApplicationFilters | components/application-filters.tsx:52-103 | the buttons read "Status: " and "Sort: " followed by the current labels; each menu has one entry per option, in order, with its label and value, checked iff its value is the current one |
| ApplicationsTable.GetAll | components/applications-table.tsx:24-30 | the values under a name, each as often as it is stored under that name |
| ApplicationsTable.RemoveName | components/applications-table.tsx:26 | `delete` keeps every entry with another name as often as it occurs, drops every entry with the name, and changes nothing when no entry has it |
| ApplicationsTable.SetName | components/applications-table.tsx:28 | after `set` the entry is present, at most one entry is added, and entries under other names keep their counts |
| ApplicationsTable.SetNameSpec | components/applications-table.tsx:28 | after `set`, the name holds exactly the one value, and every other entry is unchanged and in order |
| ApplicationsTable.SearchParams.constructor | components/applications-table.tsx:24 | the copy starts with the current entries |
| ApplicationsTable.SearchParams.Delete | components/applications-table.tsx:26 | the entries become those left by `delete` |
| ApplicationsTable.SearchParams.Set | components/applications-table.tsx:28 | the entries become those left by `set` |
| ApplicationsTable.Serialize | components/applications-table.tsx:30 | the query string is empty exactly when there are no entries |
| ApplicationsTable.HandleFilterChange | components/applications-table.tsx:23-31 | the target is `/dashboard?` followed by the query with `filter` deleted for `all` and set otherwise |
| ApplicationsTable.HandleSortChange | components/applications-table.tsx:33-37 | the target is `/dashboard?` followed by the query with `sort` set |
| ApplicationsTable.FilterChangeSpec | components/applications-table.tsx:23-29 | `all` leaves no `filter` entry, any other choice leaves exactly that value, and all other entries are untouched |
| ApplicationsTable.SortChangeSpec | components/applications-table.tsx:33-35 | `sort` holds exactly the choice; `filter` and all other entries are untouched |
| ApplicationsTable.ChangesAreIdempotent | components/applications-table.tsx:23-37 | the same filter or sort change applied twice gives the query it gives once |
| ApplicationsTable.EmptyStateMessageIdentifiesFilter | components/applications-table.tsx:50-56 | two filters give the same empty-state message iff they are equal |
| ApplicationsTable.EmptyStateMessage | components/applications-table.tsx:53-55 | "No applications yet." under `all`; otherwise "No " + filter + " applications." |
| ApplicationsTable.EmptyStateHint | components/applications-table.tsx:58-60 | the add-application hint shows iff the filter is `all`; "Try changing the filter." iff it is not |
| ApplicationsTable.TableList | components/applications-table.tsx:50-109 | the empty state (message and hint for the filter) is shown iff the list is empty; otherwise one row per application in input order |
| ApplicationsTable.ApplicationsTableView | components/applications-table.tsx:39-111 | the dropdowns get the current filter and sort; the list area is `TableList` for the list and filter, so the empty state appears iff the list is empty |
| ApplicationsTable.TableAgreesWithPage | components/applications-table.tsx:50-109 | a non-empty list renders as on the page; an empty list under `all` gets the page's message but a different hint |
| ApplicationsTable.UnknownFilterShownAsAll | components/application-filters.tsx:45 | an unlisted filter is captioned like `all` but checks no entry, and its empty-state message differs from the one for `all` |

## Left out

- Session resolution (`auth.api.getSession`, `headers()`), sign-up and sign-out belong to an external auth service. The session is a parameter.
- Query execution, `revalidatePath`, `router.push` and `router.refresh` are foreign I/O. The table is a map, and navigation is the returned URL.
- Dashboard.DashboardPage: says that nothing is rendered without a session. A pure function cannot express that no query runs.
- Dashboard.OrderByCreatedAt: the database breaks ties in `createdAt` in no stated way. The model picks one earliest row at each step, so the tie order is fixed.
- The filter-by-status and sort-by-applied-date query that feeds the applications table is not part of this model. That component takes its list as given.
- A status string outside the enum is rejected by the database. The model types the form's status as `Status`, as the action's cast declares it.
- Form fields missing from the submission (a null `formData.get`, a not-null violation) are not modelled. The form always carries all four fields.
- Parsing the applied-date string (`new Date(...)`, an invalid date) is not modelled. Dates and instants are abstract `Timestamp` integers. `toLocaleDateString` and `toISOString` are left out.
- Dashboard.UpperAscii: upper-cases ASCII letters only. JavaScript's `toUpperCase` covers all of Unicode and can change a string's length. The status names are ASCII.
- ApplicationsTable.Serialize: writes `name=value` joined by `&` without percent-encoding. So the `toString`/parse round trip behind the copy is modelled as a plain copy of the entries.
- `applicationUrl` is commented out in the actions. It is never written, and update keeps it as stored without checking it again.
- PostgreSQL compares uuids by value, so an id spelt with capital hex digits, without hyphens or in braces still matches its row. The model keys the table by the text of the id, so only the spelling stored matches. Keys are not required to be uuid text; the drawn `newId` is a parameter.
- The landing-page redirect, the database and environment probes, the register form and the logout button have no logic of their own here.
- The form, add, edit and delete dialogs are also left out. They are UI wrappers around the actions, with `confirm`/`alert` and loading flags.
- CSS classes, colour maps and the StatCard markup are presentation only. The duplicate `StatusBadge` in components/applications-table.tsx:115-129 differs from the page's only in colour classes, so both use `Dashboard.StatusBadge`.
