/**
 * The filter and sort dropdowns: two fixed option lists, the label shown on
 * each button (with a fallback for a value not in the list), and the menu
 * items, of which the one equal to the current value carries a check mark.
 */
module Filters {
  import opened Wrappers
  import opened Schema

  /** One `{ value, label }` entry of an option list; `text` is the label. */
  datatype MenuOption = MenuOption(value: string, text: string)

  const FilterOptions: seq<MenuOption> := [
    MenuOption("all", "All Applications"),
    MenuOption("applied", "Applied"),
    MenuOption("interviewing", "Interviewing"),
    MenuOption("offer", "Offer"),
    MenuOption("accepted", "Accepted"),
    MenuOption("rejected", "Rejected")
  ]

  const SortOptions: seq<MenuOption> := [
    MenuOption("latest", "Latest First"),
    MenuOption("earliest", "Earliest First")
  ]

  const DefaultFilterLabel := "All Applications"
  const DefaultSortLabel := "Latest First"

  ghost predicate DistinctValues(options: seq<MenuOption>)
  {
    forall i, j | 0 <= i < j < |options| :: options[i].value != options[j].value
  }

  /** `options.find((opt) => opt.value === value)`: the first option with that value. */
  function Find(options: seq<MenuOption>, value: string): (r: Option<MenuOption>)
    ensures r.None? <==> forall i | 0 <= i < |options| :: options[i].value != value
    ensures r.Some? ==> exists i | 0 <= i < |options| ::
      && options[i] == r.value
      && options[i].value == value
      && forall j | 0 <= j < i :: options[j].value != value
  {
    if options == [] then None
    else if options[0].value == value then Some(options[0])
    else
      var r := Find(options[1..], value);
      if r.Some? then
        var i :| 0 <= i < |options[1..]| && options[1..][i] == r.value && options[1..][i].value == value
                  && forall j | 0 <= j < i :: options[1..][j].value != value;
        assert options[i + 1] == r.value;
        r
      else r
  }

  /** `found?.text || fallback` */
  function LabelOr(found: Option<MenuOption>, fallback: string): string
  {
    if found.Some? && found.value.text != "" then found.value.text else fallback
  }

  /** The filter button's label: always the label of one of the filter options. */
  function FilterLabel(currentFilter: string): (text: string)
    ensures exists i | 0 <= i < |FilterOptions| :: text == FilterOptions[i].text
  {
    LabelOr(Find(FilterOptions, currentFilter), DefaultFilterLabel)
  }

  /** The sort button's label: always the label of one of the sort options. */
  function SortLabel(currentSort: string): (text: string)
    ensures exists i | 0 <= i < |SortOptions| :: text == SortOptions[i].text
  {
    LabelOr(Find(SortOptions, currentSort), DefaultSortLabel)
  }

  /** In a list of distinct values, the i-th option is the one found for its value. */
  lemma {:induction false} FindDistinct(options: seq<MenuOption>, i: nat)
    requires DistinctValues(options) && i < |options|
    ensures Find(options, options[i].value) == Some(options[i])
  {
    var r := Find(options, options[i].value);
    assert r.Some?;
    var k :| 0 <= k < |options| && options[k] == r.value && options[k].value == options[i].value
             && forall j | 0 <= j < k :: options[j].value != options[i].value;
    assert k == i;
  }

  /** The option lists, in order, with distinct values; the status filters follow the enum. */
  lemma OptionListsAreFixed()
    ensures |FilterOptions| == 6 && |SortOptions| == 2
    ensures DistinctValues(FilterOptions) && DistinctValues(SortOptions)
    ensures FilterOptions[0].value == "all"
    ensures forall i | 0 <= i < |AllStatuses| :: FilterOptions[i + 1].value == StatusName(AllStatuses[i])
    ensures SortOptions[0].value == "latest" && SortOptions[1].value == "earliest"
  {
  }

  /** A listed filter value shows its own label; any other value shows "All Applications". */
  lemma FilterLabelSpec(currentFilter: string)
    ensures forall i | 0 <= i < |FilterOptions| ::
      FilterOptions[i].value == currentFilter ==> FilterLabel(currentFilter) == FilterOptions[i].text
    ensures (forall i | 0 <= i < |FilterOptions| :: FilterOptions[i].value != currentFilter) ==>
      FilterLabel(currentFilter) == DefaultFilterLabel
    ensures FilterLabel(currentFilter) == DefaultFilterLabel <==>
      currentFilter == "all" || forall i | 0 <= i < |FilterOptions| :: FilterOptions[i].value != currentFilter
  {
    OptionListsAreFixed();
    forall i | 0 <= i < |FilterOptions| && FilterOptions[i].value == currentFilter
      ensures FilterLabel(currentFilter) == FilterOptions[i].text
    {
      FindDistinct(FilterOptions, i);
    }
  }

  /** A listed sort value shows its own label; any other value shows "Latest First". */
  lemma SortLabelSpec(currentSort: string)
    ensures currentSort == "latest" ==> SortLabel(currentSort) == "Latest First"
    ensures currentSort == "earliest" ==> SortLabel(currentSort) == "Earliest First"
    ensures currentSort != "latest" && currentSort != "earliest" ==> SortLabel(currentSort) == DefaultSortLabel
    ensures SortLabel(currentSort) == DefaultSortLabel <==> currentSort != "earliest"
  {
    OptionListsAreFixed();
    if currentSort == "latest" {
      FindDistinct(SortOptions, 0);
    } else if currentSort == "earliest" {
      FindDistinct(SortOptions, 1);
    }
  }

  /** A dropdown entry: its text, whether it shows the check mark, and the value its click passes on. */
  datatype MenuItem = MenuItem(text: string, checked: bool, selects: string)

  /** `options.map(...)` inside a dropdown, for the current value. */
  function Menu(options: seq<MenuOption>, current: string): (items: seq<MenuItem>)
    ensures |items| == |options|
    ensures forall i | 0 <= i < |options| ::
      && items[i].text == options[i].text
      && items[i].selects == options[i].value
      && (items[i].checked <==> options[i].value == current)
  {
    if options == [] then []
    else [MenuItem(options[0].text, current == options[0].value, options[0].value)] + Menu(options[1..], current)
  }

  /** With distinct values, at most one entry is checked, and only the current value's. */
  lemma AtMostOneChecked(options: seq<MenuOption>, current: string)
    requires DistinctValues(options)
    ensures var items := Menu(options, current);
      forall i, j | 0 <= i < |items| && 0 <= j < |items| && items[i].checked && items[j].checked :: i == j
  {
  }

  /** In both dropdowns, a listed value checks exactly its own entry, and any other value checks none. */
  lemma DropdownChecksCurrentValue(currentFilter: string, currentSort: string)
    ensures var items := Menu(FilterOptions, currentFilter);
      forall i | 0 <= i < |items| :: items[i].checked <==> FilterOptions[i].value == currentFilter
    ensures var items := Menu(FilterOptions, currentFilter);
      forall i, j | 0 <= i < |items| && 0 <= j < |items| && items[i].checked && items[j].checked :: i == j
    ensures var items := Menu(SortOptions, currentSort);
      forall i, j | 0 <= i < |items| && 0 <= j < |items| && items[i].checked && items[j].checked :: i == j
  {
    OptionListsAreFixed();
    AtMostOneChecked(FilterOptions, currentFilter);
    AtMostOneChecked(SortOptions, currentSort);
  }

  /** What `ApplicationFilters` renders: the two button captions and the two menus. */
  datatype FiltersView = FiltersView(
    filterButton: string,
    sortButton: string,
    filterItems: seq<MenuItem>,
    sortItems: seq<MenuItem>)

  function ApplicationFilters(currentFilter: string, currentSort: string): (v: FiltersView)
    ensures v.filterButton == "Status: " + FilterLabel(currentFilter)
    ensures v.sortButton == "Sort: " + SortLabel(currentSort)
    ensures |v.filterItems| == |FilterOptions| && |v.sortItems| == |SortOptions|
    ensures forall i | 0 <= i < |FilterOptions| ::
      && v.filterItems[i].text == FilterOptions[i].text
      && v.filterItems[i].selects == FilterOptions[i].value
      && (v.filterItems[i].checked <==> FilterOptions[i].value == currentFilter)
    ensures forall i | 0 <= i < |SortOptions| ::
      && v.sortItems[i].text == SortOptions[i].text
      && v.sortItems[i].selects == SortOptions[i].value
      && (v.sortItems[i].checked <==> SortOptions[i].value == currentSort)
  {
    FiltersView(
      "Status: " + FilterLabel(currentFilter),
      "Sort: " + SortLabel(currentSort),
      Menu(FilterOptions, currentFilter),
      Menu(SortOptions, currentSort))
  }
}
