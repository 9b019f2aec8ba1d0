/**
 * The applications table component: the two handlers that rewrite the query
 * string and navigate to `/dashboard`, the empty-state text, and the rows.
 * The list it receives is already selected and ordered by its caller.
 */
module ApplicationsTable {
  import opened Schema
  import Dashboard
  import Filters

  /** A query-string entry, name then value. */
  type Param = (string, string)

  /** `getAll(name)`: the values stored under `name`, each as often as it is stored. */
  function GetAll(params: seq<Param>, name: string): (values: seq<string>)
    ensures |values| <= |params|
    ensures forall v :: multiset(values)[v] == multiset(params)[(name, v)]
    ensures forall v :: v in values <==> (name, v) in params
  {
    if params == [] then []
    else
      assert params == [params[0]] + params[1..];
      if params[0].0 == name then [params[0].1] + GetAll(params[1..], name)
      else GetAll(params[1..], name)
  }

  /** `delete(name)`: every entry named `name` goes, and every other entry stays. */
  function RemoveName(params: seq<Param>, name: string): (r: seq<Param>)
    ensures |r| <= |params|
    ensures forall p :: multiset(r)[p] == if p.0 == name then 0 else multiset(params)[p]
    ensures forall p :: p in r <==> p in params && p.0 != name
    ensures (forall i | 0 <= i < |params| :: params[i].0 != name) ==> r == params
  {
    if params == [] then []
    else
      assert params == [params[0]] + params[1..];
      if params[0].0 == name then RemoveName(params[1..], name)
      else [params[0]] + RemoveName(params[1..], name)
  }

  /**
   * `set(name, value)`: the first entry named `name` takes the value and the
   * later ones go; with no such entry, one is appended.
   */
  function SetName(params: seq<Param>, name: string, value: string): (r: seq<Param>)
    ensures (name, value) in r && |r| <= |params| + 1
    ensures forall p: Param | p.0 != name :: multiset(r)[p] == multiset(params)[p]
  {
    if params == [] then [(name, value)]
    else
      assert params == [params[0]] + params[1..];
      if params[0].0 == name then [(name, value)] + RemoveName(params[1..], name)
      else [params[0]] + SetName(params[1..], name, value)
  }

  lemma {:induction false} RemoveNameIdempotent(params: seq<Param>, name: string)
    ensures RemoveName(RemoveName(params, name), name) == RemoveName(params, name)
  {
    if params != [] {
      RemoveNameIdempotent(params[1..], name);
    }
  }

  lemma {:induction false} GetAllRemoved(params: seq<Param>, name: string)
    ensures GetAll(RemoveName(params, name), name) == []
  {
    if params != [] {
      GetAllRemoved(params[1..], name);
    }
  }

  /**
   * After `set(name, value)`, `name` holds exactly `[value]`, and every other
   * entry is as before, in the same order.
   */
  lemma {:induction false} SetNameSpec(params: seq<Param>, name: string, value: string)
    ensures GetAll(SetName(params, name, value), name) == [value]
    ensures RemoveName(SetName(params, name, value), name) == RemoveName(params, name)
  {
    if params == [] {
    } else if params[0].0 == name {
      GetAllRemoved(params[1..], name);
      RemoveNameIdempotent(params[1..], name);
    } else {
      SetNameSpec(params[1..], name, value);
    }
  }

  lemma {:induction false} SetNameIdempotent(params: seq<Param>, name: string, value: string)
    ensures SetName(SetName(params, name, value), name, value) == SetName(params, name, value)
  {
    if params == [] {
    } else if params[0].0 == name {
      RemoveNameIdempotent(params[1..], name);
    } else {
      SetNameIdempotent(params[1..], name, value);
    }
  }

  /** `URLSearchParams`: an ordered list of entries changed in place. */
  class SearchParams {
    var entries: seq<Param>

    /** `new URLSearchParams(searchParams.toString())`: a copy of the current entries. */
    constructor (init: seq<Param>)
      ensures entries == init
    {
      entries := init;
    }

    method Delete(name: string)
      modifies this
      ensures entries == RemoveName(old(entries), name)
    {
      entries := RemoveName(entries, name);
    }

    method Set(name: string, value: string)
      modifies this
      ensures entries == SetName(old(entries), name, value)
    {
      entries := SetName(entries, name, value);
    }

    function ToString(): string
      reads this
    {
      Serialize(entries)
    }
  }

  /** `name=value` entries joined by `&` (percent-encoding is not modelled). */
  function Serialize(params: seq<Param>): (s: string)
    ensures params == [] <==> s == []
  {
    if params == [] then []
    else if |params| == 1 then params[0].0 + "=" + params[0].1
    else params[0].0 + "=" + params[0].1 + "&" + Serialize(params[1..])
  }

  const DashboardPath := "/dashboard"

  /** The entries `handleFilterChange` navigates with. */
  function FilterChanged(params: seq<Param>, filter: string): seq<Param>
  {
    if filter == "all" then RemoveName(params, "filter") else SetName(params, "filter", filter)
  }

  /** The entries `handleSortChange` navigates with. */
  function SortChanged(params: seq<Param>, sort: string): seq<Param>
  {
    SetName(params, "sort", sort)
  }

  /** `handleFilterChange`: copy the current query, drop or set `filter`, and go to `/dashboard`. */
  method HandleFilterChange(current: seq<Param>, filter: string) returns (url: string)
    ensures url == DashboardPath + "?" + Serialize(FilterChanged(current, filter))
    ensures url[..|DashboardPath| + 1] == "/dashboard?"
  {
    var params := new SearchParams(current);
    if filter == "all" {
      params.Delete("filter");
    } else {
      params.Set("filter", filter);
    }
    url := DashboardPath + "?" + params.ToString();
  }

  /** `handleSortChange`: copy the current query, set `sort`, and go to `/dashboard`. */
  method HandleSortChange(current: seq<Param>, sort: string) returns (url: string)
    ensures url == DashboardPath + "?" + Serialize(SortChanged(current, sort))
    ensures url[..|DashboardPath| + 1] == "/dashboard?"
  {
    var params := new SearchParams(current);
    params.Set("sort", sort);
    url := DashboardPath + "?" + params.ToString();
  }

  /**
   * Choosing `all` removes `filter`; any other choice makes `filter` hold just
   * that value. Entries under every other name are untouched, in order.
   */
  lemma FilterChangeSpec(params: seq<Param>, filter: string)
    ensures filter == "all" ==> GetAll(FilterChanged(params, filter), "filter") == []
    ensures filter != "all" ==> GetAll(FilterChanged(params, filter), "filter") == [filter]
    ensures RemoveName(FilterChanged(params, filter), "filter") == RemoveName(params, "filter")
  {
    if filter == "all" {
      GetAllRemoved(params, "filter");
      RemoveNameIdempotent(params, "filter");
    } else {
      SetNameSpec(params, "filter", filter);
    }
  }

  /** Choosing a sort makes `sort` hold just that value; `filter` and the rest are untouched. */
  lemma SortChangeSpec(params: seq<Param>, sort: string)
    ensures GetAll(SortChanged(params, sort), "sort") == [sort]
    ensures RemoveName(SortChanged(params, sort), "sort") == RemoveName(params, "sort")
    ensures GetAll(SortChanged(params, sort), "filter") == GetAll(params, "filter")
  {
    SetNameSpec(params, "sort", sort);
    GetAllOtherName(SortChanged(params, sort), params, "sort", "filter");
  }

  /** Entries under another name are read the same once `name` is stripped. */
  lemma {:induction false} GetAllIgnoresRemoved(params: seq<Param>, name: string, other: string)
    requires name != other
    ensures GetAll(RemoveName(params, name), other) == GetAll(params, other)
  {
    if params != [] {
      GetAllIgnoresRemoved(params[1..], name, other);
    }
  }

  lemma GetAllOtherName(a: seq<Param>, b: seq<Param>, name: string, other: string)
    requires name != other && RemoveName(a, name) == RemoveName(b, name)
    ensures GetAll(a, other) == GetAll(b, other)
  {
    GetAllIgnoresRemoved(a, name, other);
    GetAllIgnoresRemoved(b, name, other);
  }

  /** Making the same filter or sort choice twice gives the same query as making it once. */
  lemma ChangesAreIdempotent(params: seq<Param>, filter: string, sort: string)
    ensures FilterChanged(FilterChanged(params, filter), filter) == FilterChanged(params, filter)
    ensures SortChanged(SortChanged(params, sort), sort) == SortChanged(params, sort)
  {
    if filter == "all" {
      RemoveNameIdempotent(params, "filter");
    } else {
      SetNameIdempotent(params, "filter", filter);
    }
    SetNameIdempotent(params, "sort", sort);
  }

  const AllEmptyMessage := "No applications yet."
  const AllEmptyHint := "Click 'Add Application' to get started!"
  const FilteredEmptyHint := "Try changing the filter."

  /** "No applications yet." under `all`; otherwise a sentence with the filter's value in it. */
  function EmptyStateMessage(currentFilter: string): (r: string)
    ensures currentFilter == "all" ==> r == AllEmptyMessage
    ensures currentFilter != "all" ==>
      && |r| == |currentFilter| + 17
      && r[..3] == "No "
      && r[3..3 + |currentFilter|] == currentFilter
      && r[3 + |currentFilter|..] == " applications."
  {
    if currentFilter == "all" then AllEmptyMessage else "No " + currentFilter + " applications."
  }

  /** The hint says to add an application exactly when the filter is `all`, and to change the filter otherwise. */
  function EmptyStateHint(currentFilter: string): (r: string)
    ensures r == AllEmptyHint <==> currentFilter == "all"
    ensures r == FilteredEmptyHint <==> currentFilter != "all"
  {
    if currentFilter == "all" then AllEmptyHint else FilteredEmptyHint
  }

  /** The empty-state message names the filter: two filters give the same message only if they are equal. */
  lemma EmptyStateMessageIdentifiesFilter(f: string, g: string)
    ensures EmptyStateMessage(f) == EmptyStateMessage(g) <==> f == g
  {
    if f != g {
      if f != "all" && g != "all" {
        if |f| == |g| {
          var k :| 0 <= k < |f| && f[k] != g[k];
          assert EmptyStateMessage(f)[3 + k] == f[k];
          assert EmptyStateMessage(g)[3 + k] == g[k];
        }
      } else {
        var h := if f == "all" then g else f;
        if |h| == 3 {
          assert EmptyStateMessage(h)[6] == ' ';
          assert AllEmptyMessage[6] == 'l';
        }
      }
    }
  }

  /** The list area for the list it is given and the current filter. */
  function TableList(applications: seq<JobApplication>, currentFilter: string): (v: Dashboard.ApplicationList)
    ensures v.EmptyState? <==> applications == []
    ensures v.EmptyState? ==> v.message == EmptyStateMessage(currentFilter) && v.hint == EmptyStateHint(currentFilter)
    ensures v.RowTable? ==> |v.rows| == |applications|
    ensures v.RowTable? ==> forall i | 0 <= i < |applications| :: v.rows[i] == Dashboard.RowFor(applications[i])
  {
    if |applications| == 0 then Dashboard.EmptyState(EmptyStateMessage(currentFilter), EmptyStateHint(currentFilter))
    else Dashboard.RowTable(Dashboard.Rows(applications))
  }

  datatype TableView = TableView(filters: Filters.FiltersView, list: Dashboard.ApplicationList)

  /** What `ApplicationsTable` renders. */
  function ApplicationsTableView(applications: seq<JobApplication>, currentFilter: string, currentSort: string): (v: TableView)
    ensures v.filters == Filters.ApplicationFilters(currentFilter, currentSort)
    ensures v.list == TableList(applications, currentFilter)
    ensures v.list.EmptyState? <==> applications == []
  {
    TableView(Filters.ApplicationFilters(currentFilter, currentSort), TableList(applications, currentFilter))
  }

  /**
   * A non-empty list renders the same rows as the dashboard page, one per
   * application in the given order; an empty list under `all` gives the same
   * message as the page but a different hint.
   */
  lemma TableAgreesWithPage(applications: seq<JobApplication>, currentFilter: string)
    ensures applications != [] ==>
      TableList(applications, currentFilter) == Dashboard.RenderDashboard(applications).list
    ensures applications == [] && currentFilter == "all" ==>
      && TableList(applications, currentFilter).message == Dashboard.RenderDashboard(applications).list.message
      && TableList(applications, currentFilter).hint != Dashboard.RenderDashboard(applications).list.hint
  {
  }

  /**
   * A filter value outside the option list is captioned "All Applications",
   * yet checks no dropdown entry and is named as such in the empty-state
   * message, unlike `all`.
   */
  lemma UnknownFilterShownAsAll(currentFilter: string, currentSort: string)
    requires forall i | 0 <= i < |Filters.FilterOptions| :: Filters.FilterOptions[i].value != currentFilter
    ensures Filters.FilterLabel(currentFilter) == Filters.FilterLabel("all")
    ensures var items := Filters.ApplicationFilters(currentFilter, currentSort).filterItems;
      forall i | 0 <= i < |items| :: !items[i].checked
    ensures EmptyStateMessage(currentFilter) != EmptyStateMessage("all")
  {
    Filters.FilterLabelSpec(currentFilter);
    Filters.FilterLabelSpec("all");
    EmptyStateMessageIdentifiesFilter(currentFilter, "all");
  }
}
