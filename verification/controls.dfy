/**
 The view's five pieces of state and the handlers that change them, as a pure
 reducer: each user action maps the current state to the next one. Nothing here
 renders; the rows shown for a state are `Visible`.
 */
module Controls {
  import opened Seqs
  import opened Catalog
  import opened Sorting
  import opened Pipeline

  /** The five `useState` hooks of the view. */
  datatype FilterState = FilterState(
    selectedCategoriesIds: seq<int>,
    filterByUserId: int,
    query: string,
    sortType: SortType,
    isReversed: bool)

  /** The hooks' initial values, which the reset button restores. */
  const Initial: FilterState := FilterState([], 0, "", Unsorted, false)

  /** The rows the table shows for state `s`. */
  function Visible(products: seq<Enriched>, s: FilterState): seq<Enriched> {
    PreparedGoods(products, s.selectedCategoriesIds, s.filterByUserId, s.sortType, s.isReversed, s.query)
  }

  /** `isCategorySelected`: the category's button is highlighted. */
  predicate IsCategorySelected(selected: seq<int>, id: int) {
    id in selected
  }

  /**
   `toggleCategory`: removes every occurrence of a selected id, and appends an id
   that is not selected; the other ids keep their multiplicities.
   */
  function ToggleCategory(selected: seq<int>, id: int): (r: seq<int>)
    ensures IsCategorySelected(r, id) <==> !IsCategorySelected(selected, id)
    ensures IsCategorySelected(selected, id) ==> IsSubseq(r, selected)
    ensures IsCategorySelected(selected, id) ==> forall y :: y != id ==> multiset(r)[y] == multiset(selected)[y]
    ensures !IsCategorySelected(selected, id) ==> r == selected + [id]
  {
    if IsCategorySelected(selected, id) then
      var r := Filter(selected, (y: int) => y != id);
      FilterMembers(selected, (y: int) => y != id);
      assert forall y :: y != id ==> multiset(r)[y] == multiset(selected)[y] by {
        forall y | y != id
          ensures multiset(r)[y] == multiset(selected)[y]
        {
          FilterCount(selected, (y: int) => y != id, y);
        }
      }
      r
    else
      selected + [id]
  }

  /** Toggling an id that was not selected twice restores the list exactly. */
  lemma ToggleTwiceRestores(selected: seq<int>, id: int)
    requires !IsCategorySelected(selected, id)
    ensures ToggleCategory(ToggleCategory(selected, id), id) == selected
  {
    FilterAppend(selected, [id], (y: int) => y != id);
  }

  /** Toggling any id twice gives back the same set of ids. */
  lemma ToggleTwiceSameSet(selected: seq<int>, id: int)
    ensures forall y :: y in ToggleCategory(ToggleCategory(selected, id), id) <==> y in selected
  {
    if !IsCategorySelected(selected, id) {
      ToggleTwiceRestores(selected, id);
    } else {
      var once := ToggleCategory(selected, id);
      forall y
        ensures y in once <==> y in selected && y != id
      {
        if y != id {
          assert y in once <==> y in multiset(once);
          assert y in selected <==> y in multiset(selected);
        }
      }
    }
  }

  /** Toggling keeps a duplicate-free selection duplicate-free. */
  lemma ToggleKeepsNoDup(selected: seq<int>, id: int)
    requires NoDup(selected)
    ensures NoDup(ToggleCategory(selected, id))
  {
    if IsCategorySelected(selected, id) {
      FilterNoDup(selected, (y: int) => y != id);
    }
  }

  /**
   `handleSortClick`: the three guards are computed from the state before the click
   and the updates run in the source's order; a new column sorts ascending, the
   same column again sorts descending, and a third click clears the sort.
   */
  function HandleSortClick(s: FilterState, clicked: Field): (t: FilterState)
    ensures t.selectedCategoriesIds == s.selectedCategoriesIds
    ensures t.filterByUserId == s.filterByUserId && t.query == s.query
    ensures s.sortType != By(clicked) ==> t.sortType == By(clicked) && !t.isReversed
    ensures s.sortType == By(clicked) && !s.isReversed ==> t.sortType == By(clicked) && t.isReversed
    ensures s.sortType == By(clicked) && s.isReversed ==> t.sortType == Unsorted && !t.isReversed
  {
    var isFirstClick := By(clicked) != s.sortType;
    var isSecondClick := By(clicked) == s.sortType && !s.isReversed;
    var isThirdClick := By(clicked) == s.sortType && s.isReversed;
    var s1 := if isFirstClick then s.(sortType := By(clicked), isReversed := false) else s;
    var s2 := if isSecondClick then s1.(isReversed := true) else s1;
    if isThirdClick then s2.(sortType := Unsorted, isReversed := false) else s2
  }

  /** Three clicks on a column that is not the current sort column clear the sort again. */
  lemma ThreeClicksClear(s: FilterState, clicked: Field)
    requires s.sortType != By(clicked)
    ensures var t := HandleSortClick(HandleSortClick(HandleSortClick(s, clicked), clicked), clicked);
            t.sortType == Unsorted && !t.isReversed
  {
  }

  /** From the unsorted state, clicks on one column cycle with period three. */
  lemma ClickCycle(s: FilterState, clicked: Field)
    requires s.sortType == Unsorted && !s.isReversed
    ensures HandleSortClick(HandleSortClick(HandleSortClick(s, clicked), clicked), clicked) == s
  {
  }

  /** What the user can do in the view. */
  datatype Action =
    | ShowAllUsers              // the 'All' user tab
    | ShowUser(userId: int)     // one user's tab
    | EditQuery(text: string)   // typing into the search field
    | ClearQuery                // the clear button of the search field
    | ShowAllCategories         // the 'All' categories button
    | Toggle(categoryId: int)   // one category's button
    | ClickSort(field: Field)   // a column's sort icon
    | ResetAll                  // the 'Reset all filters' button

  /** The state after one action; each handler touches only the fields it sets. */
  function Step(s: FilterState, a: Action): (t: FilterState)
    ensures a.ResetAll? ==> t.selectedCategoriesIds == [] && t.filterByUserId == 0 && t.query == ""
                            && t.sortType == Unsorted && !t.isReversed
    ensures a.ShowAllUsers? ==> t.filterByUserId == 0
    ensures a.ShowUser? ==> t.filterByUserId == a.userId
    ensures a.EditQuery? ==> t.query == a.text
    ensures a.ClearQuery? ==> t.query == ""
    ensures a.ShowAllCategories? ==> t.selectedCategoriesIds == []
    ensures a.Toggle? ==> (IsCategorySelected(t.selectedCategoriesIds, a.categoryId)
                           <==> !IsCategorySelected(s.selectedCategoriesIds, a.categoryId))
    ensures a.ClickSort? && s.sortType != By(a.field) ==> t.sortType == By(a.field) && !t.isReversed
    ensures a.ClickSort? && s.sortType == By(a.field) && !s.isReversed ==> t.sortType == By(a.field) && t.isReversed
    ensures a.ClickSort? && s.sortType == By(a.field) && s.isReversed ==> t.sortType == Unsorted && !t.isReversed
    ensures !(a.ShowAllCategories? || a.Toggle? || a.ResetAll?) ==> t.selectedCategoriesIds == s.selectedCategoriesIds
    ensures !(a.ShowAllUsers? || a.ShowUser? || a.ResetAll?) ==> t.filterByUserId == s.filterByUserId
    ensures !(a.EditQuery? || a.ClearQuery? || a.ResetAll?) ==> t.query == s.query
    ensures !(a.ClickSort? || a.ResetAll?) ==> t.sortType == s.sortType && t.isReversed == s.isReversed
  {
    match a
    case ShowAllUsers => s.(filterByUserId := 0)
    case ShowUser(id) => s.(filterByUserId := id)
    case EditQuery(text) => s.(query := text)
    case ClearQuery => s.(query := "")
    case ShowAllCategories => s.(selectedCategoriesIds := [])
    case Toggle(id) => s.(selectedCategoriesIds := ToggleCategory(s.selectedCategoriesIds, id))
    case ClickSort(f) => HandleSortClick(s, f)
    case ResetAll => Initial
  }

  /** After a reset the table shows every enriched product in its original order. */
  lemma ResetShowsEverything(products: seq<Enriched>, s: FilterState)
    ensures Visible(products, Step(s, ResetAll)) == products
  {
  }

  /** The states the view can reach: no category selected twice, and reversed only while sorted. */
  ghost predicate Consistent(s: FilterState) {
    NoDup(s.selectedCategoriesIds) && (s.isReversed ==> s.sortType.By?)
  }

  /** Every action keeps a consistent state consistent. */
  lemma StepKeepsConsistent(s: FilterState, a: Action)
    requires Consistent(s)
    ensures Consistent(Step(s, a))
  {
    if a.Toggle? {
      ToggleKeepsNoDup(s.selectedCategoriesIds, a.categoryId);
    }
  }

  /** The state after a sequence of actions, the first one first. */
  function Run(s: FilterState, actions: seq<Action>): FilterState
    decreases |actions|
  {
    if |actions| == 0 then s else Run(Step(s, actions[0]), actions[1..])
  }

  /** Every state reachable from the initial one is consistent. */
  lemma {:induction false} RunKeepsConsistent(s: FilterState, actions: seq<Action>)
    requires Consistent(s)
    ensures Consistent(Run(s, actions))
    decreases |actions|
  {
    if |actions| > 0 {
      StepKeepsConsistent(s, actions[0]);
      RunKeepsConsistent(Step(s, actions[0]), actions[1..]);
    }
  }

  /** The initial state is consistent, so every reachable state is. */
  lemma ReachableConsistent(actions: seq<Action>)
    ensures Consistent(Run(Initial, actions))
  {
    RunKeepsConsistent(Initial, actions);
  }
}
