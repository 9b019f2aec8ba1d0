/**
 * The dashboard page: the signed-in user's rows ordered by `createdAt`, a
 * Total card and four per-status cards over that list, and either the
 * empty-state message or one table row per application.
 */
module Dashboard {
  import opened Wrappers
  import opened Schema
  import Actions

  /** The ids the page's `where userId = ?` selects. */
  function OwnedIds(t: Table, user: UserId): (ids: set<ApplicationId>)
    ensures ids <= t.Keys
    ensures forall id :: id in ids <==> id in t && t[id].userId == user
  {
    set id | id in t && t[id].userId == user
  }

  ghost predicate EarliestIn(t: Table, ids: set<ApplicationId>, first: ApplicationId)
    requires ids <= t.Keys
  {
    first in ids && forall other | other in ids :: t[first].createdAt <= t[other].createdAt
  }

  lemma {:induction false} EarliestExists(t: Table, ids: set<ApplicationId>)
    requires ids <= t.Keys && ids != {}
    ensures exists first :: EarliestIn(t, ids, first)
    decreases ids
  {
    var x :| x in ids;
    if ids != {x} {
      EarliestExists(t, ids - {x});
      var y :| EarliestIn(t, ids - {x}, y);
      if t[x].createdAt <= t[y].createdAt {
        assert EarliestIn(t, ids, x);
      } else {
        assert EarliestIn(t, ids, y);
      }
    } else {
      assert EarliestIn(t, ids, x);
    }
  }

  /**
   * `orderBy(createdAt)`: the ids in ascending `createdAt` order. The database
   * breaks ties in no stated way; this picks one earliest row at each step.
   */
  ghost function OrderByCreatedAt(t: Table, ids: set<ApplicationId>): (order: seq<ApplicationId>)
    requires ids <= t.Keys
    ensures |order| == |ids|
    ensures forall id :: id in order <==> id in ids
    ensures forall i, j | 0 <= i < j < |order| :: order[i] != order[j]
    ensures forall i, j | 0 <= i < j < |order| :: t[order[i]].createdAt <= t[order[j]].createdAt
    decreases ids
  {
    if ids == {} then []
    else
      EarliestExists(t, ids);
      var first :| EarliestIn(t, ids, first);
      [first] + OrderByCreatedAt(t, ids - {first})
  }

  /** The rows stored under a sequence of ids, in that order. */
  function Lookup(t: Table, order: seq<ApplicationId>): (rows: seq<JobApplication>)
    requires forall i | 0 <= i < |order| :: order[i] in t
    ensures |rows| == |order|
    ensures forall i | 0 <= i < |order| :: rows[i] == t[order[i]]
  {
    if order == [] then [] else [t[order[0]]] + Lookup(t, order[1..])
  }

  /** The page's query: the user's rows, in ascending `createdAt` order. */
  ghost function ListApplications(t: Table, user: UserId): (apps: seq<JobApplication>)
    ensures |apps| == |OwnedIds(t, user)|
    ensures forall i | 0 <= i < |apps| :: apps[i].userId == user
  {
    Lookup(t, OrderByCreatedAt(t, OwnedIds(t, user)))
  }

  /** Every listed row is a stored row of the user, and the list has one entry per owned row. */
  lemma ListedRowsAreOwned(t: Table, user: UserId)
    ensures var apps := ListApplications(t, user);
      && |apps| == |OwnedIds(t, user)|
      && (forall i | 0 <= i < |apps| :: apps[i].userId == user)
      && (forall i | 0 <= i < |apps| :: exists id :: id in t && t[id] == apps[i])
  {
    var order := OrderByCreatedAt(t, OwnedIds(t, user));
    var apps := Lookup(t, order);
    forall i | 0 <= i < |apps|
      ensures apps[i].userId == user
      ensures exists id :: id in t && t[id] == apps[i]
    {
      assert order[i] in order;
      assert t[order[i]] == apps[i];
    }
  }

  /** Every row whose `userId` is the user's is listed. */
  lemma OwnedRowsAreListed(t: Table, user: UserId)
    ensures forall id | id in t && t[id].userId == user :: t[id] in ListApplications(t, user)
  {
    var order := OrderByCreatedAt(t, OwnedIds(t, user));
    var apps := Lookup(t, order);
    forall id | id in t && t[id].userId == user
      ensures t[id] in apps
    {
      assert id in order;
      var i :| 0 <= i < |order| && order[i] == id;
      assert apps[i] == t[id];
    }
  }

  /** The listed rows are in ascending `createdAt` order (not `appliedDate`). */
  lemma ListedRowsAscendByCreatedAt(t: Table, user: UserId)
    ensures var apps := ListApplications(t, user);
      forall i, j | 0 <= i < j < |apps| :: apps[i].createdAt <= apps[j].createdAt
  {
    var order := OrderByCreatedAt(t, OwnedIds(t, user));
    var apps := Lookup(t, order);
    forall i, j | 0 <= i < j < |apps|
      ensures apps[i].createdAt <= apps[j].createdAt
    {
      assert apps[i] == t[order[i]] && apps[j] == t[order[j]];
    }
  }

  /** How many of the rows have status `s`. */
  function CountStatus(apps: seq<JobApplication>, s: Status): nat
  {
    if apps == [] then 0 else (if apps[0].status == s then 1 else 0) + CountStatus(apps[1..], s)
  }

  /**
   * `applications.filter((app) => app.status === s)`: every row with status `s`
   * as often as it occurs, and no other row.
   */
  function WithStatus(apps: seq<JobApplication>, s: Status): (r: seq<JobApplication>)
    ensures |r| == CountStatus(apps, s) <= |apps|
    ensures forall a :: multiset(r)[a] == if a.status == s then multiset(apps)[a] else 0
    ensures forall a :: a in r <==> a in apps && a.status == s
  {
    if apps == [] then []
    else
      assert apps == [apps[0]] + apps[1..];
      if apps[0].status == s then [apps[0]] + WithStatus(apps[1..], s)
      else WithStatus(apps[1..], s)
  }

  /** The five cards; there is no card for `rejected`. */
  datatype StatCards = StatCards(total: nat, applied: nat, interviewing: nat, offer: nat, accepted: nat)

  /** Total counts every row; each status card counts the rows with that status. */
  function Stats(apps: seq<JobApplication>): (c: StatCards)
    ensures c.total == |apps|
    ensures c.applied == CountStatus(apps, Applied)
    ensures c.interviewing == CountStatus(apps, Interviewing)
    ensures c.offer == CountStatus(apps, Offer)
    ensures c.accepted == CountStatus(apps, Accepted)
  {
    StatCards(
      |apps|,
      |WithStatus(apps, Applied)|,
      |WithStatus(apps, Interviewing)|,
      |WithStatus(apps, Offer)|,
      |WithStatus(apps, Accepted)|)
  }

  /** Every row falls in exactly one status. */
  lemma {:induction false} StatusCountsPartition(apps: seq<JobApplication>)
    ensures CountStatus(apps, Applied) + CountStatus(apps, Interviewing) + CountStatus(apps, Offer)
            + CountStatus(apps, Accepted) + CountStatus(apps, Rejected) == |apps|
  {
    if apps != [] {
      StatusCountsPartition(apps[1..]);
    }
  }

  /** The four status cards add up to Total less the rejected rows, so never more than Total. */
  lemma StatusCardsOmitRejected(apps: seq<JobApplication>)
    ensures var c := Stats(apps);
      && c.applied + c.interviewing + c.offer + c.accepted == c.total - CountStatus(apps, Rejected)
      && c.applied + c.interviewing + c.offer + c.accepted <= c.total
  {
    StatusCountsPartition(apps);
  }

  /** An uppercase letter for a lowercase ASCII letter; any other character unchanged. */
  function UpperAscii(c: char): (u: char)
    ensures 'a' <= c <= 'z' ==> 'A' <= u <= 'Z' && u as int == c as int - 32
    ensures !('a' <= c <= 'z') ==> u == c
  {
    if 'a' <= c <= 'z' then (c as int - 32) as char else c
  }

  /** `status.charAt(0).toUpperCase() + status.slice(1)` */
  function StatusBadge(status: string): (text: string)
    ensures |text| == |status|
    ensures |status| > 0 ==> text[0] == UpperAscii(status[0]) && text[1..] == status[1..]
  {
    if status == [] then [] else [UpperAscii(status[0])] + status[1..]
  }

  /** The badge shows each status's own name with a capital first letter. */
  lemma StatusBadgeLabels()
    ensures StatusBadge(StatusName(Applied)) == "Applied"
    ensures StatusBadge(StatusName(Interviewing)) == "Interviewing"
    ensures StatusBadge(StatusName(Offer)) == "Offer"
    ensures StatusBadge(StatusName(Accepted)) == "Accepted"
    ensures StatusBadge(StatusName(Rejected)) == "Rejected"
  {
    assert UpperAscii('a') == 'A' && UpperAscii('i') == 'I' && UpperAscii('o') == 'O';
    assert UpperAscii('r') == 'R';
    assert StatusBadge("applied") == ['A'] + "pplied";
    assert StatusBadge("interviewing") == ['I'] + "nterviewing";
    assert StatusBadge("offer") == ['O'] + "ffer";
    assert StatusBadge("accepted") == ['A'] + "ccepted";
    assert StatusBadge("rejected") == ['R'] + "ejected";
  }

  /** One rendered table row: React key, company, position, badge, applied date. */
  datatype ApplicationRow = ApplicationRow(
    key: ApplicationId,
    companyName: string,
    jobTitle: string,
    badge: string,
    appliedDate: Timestamp)

  /** The capitalised status names the badge shows. */
  function BadgeText(status: Status): string
  {
    match status
    case Applied => "Applied"
    case Interviewing => "Interviewing"
    case Offer => "Offer"
    case Accepted => "Accepted"
    case Rejected => "Rejected"
  }

  /** One table row: the row's id as key, its company, position and applied date, and its status badge. */
  function RowFor(app: JobApplication): (r: ApplicationRow)
    ensures r.key == app.id && r.companyName == app.companyName && r.jobTitle == app.jobTitle
    ensures r.appliedDate == app.appliedDate
    ensures r.badge == BadgeText(app.status)
  {
    StatusBadgeLabels();
    ApplicationRow(app.id, app.companyName, app.jobTitle, StatusBadge(StatusName(app.status)), app.appliedDate)
  }

  /** `applications.map(...)`: one row per application, in the order given. */
  function Rows(apps: seq<JobApplication>): (rows: seq<ApplicationRow>)
    ensures |rows| == |apps|
    ensures forall i | 0 <= i < |apps| :: rows[i] == RowFor(apps[i])
  {
    if apps == [] then [] else [RowFor(apps[0])] + Rows(apps[1..])
  }

  /** The list area: an empty-state message and hint, or the table. */
  datatype ApplicationList = EmptyState(message: string, hint: string) | RowTable(rows: seq<ApplicationRow>)

  datatype DashboardView = DashboardView(stats: StatCards, list: ApplicationList)

  const PageEmptyMessage := "No applications yet."
  const PageEmptyHint := "Click Add Application to get started!"

  /** What the page renders for an already selected list. */
  function RenderDashboard(apps: seq<JobApplication>): (v: DashboardView)
    ensures v.stats == Stats(apps)
    ensures v.list.EmptyState? <==> apps == []
    ensures v.list.EmptyState? ==> v.list == EmptyState(PageEmptyMessage, PageEmptyHint)
    ensures v.list.RowTable? ==>
      && |v.list.rows| == |apps|
      && forall i | 0 <= i < |apps| :: v.list.rows[i] == RowFor(apps[i])
  {
    DashboardView(
      Stats(apps),
      if |apps| == 0 then EmptyState(PageEmptyMessage, PageEmptyHint) else RowTable(Rows(apps)))
  }

  /** `DashboardPage`: nothing at all without a session. */
  ghost function DashboardPage(session: Option<UserId>, t: Table): (v: Option<DashboardView>)
    ensures v.None? <==> session.None?
  {
    match session
    case None => None
    case Some(user) => Some(RenderDashboard(ListApplications(t, user)))
  }

  /** The Total card counts the user's rows and no one else's. */
  lemma TotalCountsOwnRows(t: Table, user: UserId)
    ensures DashboardPage(Some(user), t).value.stats.total == |OwnedIds(t, user)|
  {
    ListedRowsAreOwned(t, user);
  }

  /** A successful create shows the new row on its creator's dashboard, and Total grows by one. */
  lemma CreateAppearsOnDashboard(t: Table, user: UserId, form: Actions.ApplicationForm,
                                 newId: ApplicationId, now: Timestamp)
    requires Actions.CreateEffect(t, Some(user), form, newId, now).outcome.Pass?
    ensures var t' := Actions.CreateEffect(t, Some(user), form, newId, now).table;
      && t'[newId] in ListApplications(t', user)
      && |ListApplications(t', user)| == |ListApplications(t, user)| + 1
  {
    var t' := Actions.CreateEffect(t, Some(user), form, newId, now).table;
    assert t'.Keys == t.Keys + {newId} && newId !in t;
    assert t'[newId].userId == user;
    forall id | id in t ensures t'[id] == t[id] { }
    assert OwnedIds(t', user) == OwnedIds(t, user) + {newId};
    ListedRowsAreOwned(t, user);
    ListedRowsAreOwned(t', user);
    OwnedRowsAreListed(t', user);
  }

  /**
   * The ownership gap as the owner sees it: another signed-in user's delete
   * takes the row off the owner's dashboard.
   */
  lemma ForeignDeleteShrinksOwnersDashboard(t: Table, owner: UserId, caller: UserId, id: ApplicationId)
    requires IsUuid(id) && id in t && t[id].userId == owner && caller != owner
    ensures var t' := Actions.DeleteEffect(t, Some(caller), id).table;
      |ListApplications(t', owner)| == |ListApplications(t, owner)| - 1
  {
    var t' := Actions.DeleteEffect(t, Some(caller), id).table;
    assert OwnedIds(t', owner) == OwnedIds(t, owner) - {id};
    ListedRowsAreOwned(t, owner);
    ListedRowsAreOwned(t', owner);
  }
}
