# Product catalogue: filter, search and sort pipeline

A Dafny model of the data logic of a React product-catalogue view. Three static
tables (users, categories, products) are joined into enriched products. The view
then filters them by selected categories, by owning user and by a search text.
It sorts them by one of four columns and optionally reverses the result. Five
pieces of view state drive this pipeline. Click handlers change them: the category
toggle, the three-phase sort click, and the reset button.

The React hooks are replaced by an explicit state record (`Controls.FilterState`)
and a pure reducer (`Controls.Step`). The enriched list is passed to the pipeline
as a parameter instead of being read from a module-level constant.

Modules, leaf first:

- `Wrappers`: `Option`, standing for JavaScript's `undefined` from a failed lookup.
- `Seqs`: `filter`, `findIndex`/`find` and `reverse` on sequences, with
  specifications independent of their code (subsequence, first match, mirror image).
- `Text`: `trim` (ECMA-262 WhiteSpace and LineTerminator), ASCII `toLowerCase`,
  and `includes`, with a reference definition of substring occurrence.
- `Collation`: the string order used by the name sorts.
- `Catalog`: the records and the enrichment join.
- `Sorting`: the four sort columns, the comparator, and an insertion sort.
- `Pipeline`: `getPreparedGoods` as five sequence-to-sequence stages.
- `Controls`: the view state, `toggleCategory`, `handleSortClick`, reset, and a
  reachable-state invariant.
- `WorkedCases`: four concrete cases: a join, a dangling category, a search for
  "mi", and a reversed ID sort.

The pipeline works on immutable sequences. So the view's `[...products]` copy, and
its promise that the enriched list is never mutated, hold by construction.

## Model

| member | source | states |
|---|---|---|
| Seqs.Filter | src/App.jsx:30-45 | every kept element satisfies the predicate, the result is an order-preserving subsequence of the input, and it equals the input when every element passes |
| Seqs.FilterMembers | src/App.jsx:30-45 | an element is kept exactly when it is in the input and satisfies the predicate |
| Seqs.FilterCount | src/App.jsx:30-45 | a kept value occurs as often as in the input, and a rejected value does not occur |
| Seqs.FilterFilter | src/App.jsx:30-45 | two filters in a row keep exactly what one filter with the conjunction keeps |
| Seqs.FindIndex | src/App.jsx:10-12 | the index of the first element satisfying the predicate (all earlier ones fail), or -1 exactly when none satisfies it |
| Seqs.Find | src/App.jsx:10-12 | `find` returns the first match, and returns `undefined` exactly when no element matches |
| Seqs.Reverse | src/App.jsx:64-66 | element i of the result is element n-1-i of the input |
| Seqs.ReverseReverse | src/App.jsx:64-66 | reversing twice restores the list |
| Catalog.CategoryById | src/App.jsx:10-11 | the category found is the first one in the table with the product's category id; no category is found exactly when no category has that id |
| Catalog.UserById | src/App.jsx:12 | the user found is the first one in the table with the owner id; none is found exactly when no user has that id |
| Catalog.EnrichProduct | src/App.jsx:9-19 | a product is enriched with its own fields, the first category with its category id and the first user with that category's owner id; the join fails exactly when no such enrichment exists |
| Catalog.Enrich | src/App.jsx:9-19 | the enriched list has one entry per product, in product order, each the join of its product; it fails exactly when some product's reference dangles |
| Text.Trim | src/App.jsx:41 | `trim` returns the slice after the leading and before the trailing whitespace; the cut parts are whitespace only, the slice neither starts nor ends with whitespace, and it is empty exactly when the text is whitespace only |
| Text.TrimPadded | src/App.jsx:41 | trimming a core padded by whitespace on either side returns the core |
| Text.Lower | src/App.jsx:41-44 | lower-casing keeps the length and lower-cases character by character |
| Text.LowerIdempotent | src/App.jsx:41-44 | lower-casing twice equals lower-casing once, and the result has no upper-case ASCII letter |
| Text.Contains | src/App.jsx:44 | the empty pattern is always contained, and a contained pattern is no longer than the text |
| Text.ContainsIffOccurs | src/App.jsx:44 | `includes` holds exactly when the pattern occurs at some position of the text |
| Collation.Collate | src/App.jsx:53-57 | the comparison is -1, 0 or 1, and is 0 exactly for equal strings |
| Collation.CollateAntisymmetric | src/App.jsx:53-57 | swapping the compared strings flips the sign |
| Collation.CollateTransitive | src/App.jsx:53-57 | sorting before-or-together is transitive |
| Sorting.LeTotal | src/App.jsx:48-61 | under each of the four comparators any two products are comparable |
| Sorting.LeTransitive | src/App.jsx:48-61 | each of the four comparators is transitive |
| Sorting.Sort | src/App.jsx:47-62 | the sort returns a permutation of its input that is non-decreasing under the chosen comparator |
| Sorting.SortSorted | src/App.jsx:47-62 | a list already in comparator order comes back unchanged |
| Pipeline.ByCategory | src/App.jsx:30-33 | with an empty selection the list is unchanged; otherwise every kept product's category id is selected, and the stage is the filter by that condition |
| Pipeline.ByUser | src/App.jsx:35-38 | with user id 0 the list is unchanged; otherwise every kept product's owner has that id, and the stage is the filter by that condition |
| Pipeline.ByQuery | src/App.jsx:40-45 | with the empty query the list is unchanged; otherwise every kept product's lower-cased name contains the trimmed, lower-cased query, and the stage is the filter by that condition |
| Pipeline.BlankQueryKeepsAll | src/App.jsx:40-45 | a whitespace-only query keeps every product |
| Pipeline.FilteredIsOnePass | src/App.jsx:28-45 | the three filter stages equal one filter by the conjunction of their conditions, so before sorting the list is an order-preserving subsequence of the enriched list |
| Pipeline.SortStage | src/App.jsx:47-62 | without a sort column the list is unchanged; with one, the result is a permutation sorted under that column's comparator |
| Pipeline.ReverseStage | src/App.jsx:64-66 | with the flag the result is the mirror image of the input, a permutation of it; without the flag it is the input |
| Pipeline.PreparedGoods | src/App.jsx:21-69 | with all defaults the result is the enriched list in its original order; without a sort column or the reversed flag it is the filtered list, an order-preserving subsequence of the enriched list; it is always a permutation of the filtered list; it is sorted by the chosen column when not reversed and sorted after reversing back when reversed |
| Pipeline.PreparedMembership | src/App.jsx:28-45 | a product is shown exactly when it is in the enriched list and passes the category, user and search conditions |
| Pipeline.PreparedRowsPassFilters | src/App.jsx:30-45 | with a selection every row's category is selected, with a user id every row has that owner, and with a query every row's lower-cased name contains the prepared query |
| Pipeline.ReversedIsMirror | src/App.jsx:64-66 | the reversed output is the mirror image of the unreversed output for the same parameters |
| Controls.ToggleCategory | src/App.jsx:86-97 | toggling flips whether the id is selected; a selected id is removed everywhere, leaving the other ids with their multiplicities, in order; an unselected id is appended |
| Controls.ToggleTwiceRestores | src/App.jsx:90-97 | toggling an unselected id twice restores the selection list exactly |
| Controls.ToggleTwiceSameSet | src/App.jsx:90-97 | toggling any id twice gives back the same set of selected ids |
| Controls.ToggleKeepsNoDup | src/App.jsx:90-97 | toggling keeps a duplicate-free selection duplicate-free |
| Controls.HandleSortClick | src/App.jsx:99-117 | a click on a new column sorts it ascending; a second click reverses it; a click on the reversed column clears the sort; the filters are untouched |
| Controls.ThreeClicksClear | src/App.jsx:99-117 | three clicks on a column that is not the current sort clear the sort |
| Controls.ClickCycle | src/App.jsx:99-117 | from the unsorted state, three clicks on one column return to the same state |
| Controls.Step | src/App.jsx:131-364 | reset sets all five fields to their defaults from any state; each other handler sets its field as the view does (user tab, search text, clear button, 'All' buttons, category toggle flipping that id's selection, sort click's three outcomes) and changes nothing else |
| Controls.ResetShowsEverything | src/App.jsx:216-222 | after a reset the table shows every enriched product in its original order |
| Controls.StepKeepsConsistent | src/App.jsx:72-117 | every action keeps the selection duplicate-free and keeps the reversed flag set only while a column is sorted |
| Controls.RunKeepsConsistent | src/App.jsx:72-117 | any sequence of actions keeps a consistent state consistent |
| Controls.ReachableConsistent | src/App.jsx:72-76 | every state reachable from the initial one is consistent |
| WorkedCases.JoinExample | src/App.jsx:9-19 | two products joined against two categories and one owner, in order |
| WorkedCases.DanglingCategoryExample | src/App.jsx:10-12 | a product whose category is missing makes the join fail |
| WorkedCases.SearchExample | src/App.jsx:40-45 | searching "mi" over Milk and Bread shows only Milk |
| WorkedCases.ReversedIdExample | src/App.jsx:47-66 | an ID sort of ids 1, 2, 3 with the reversed flag shows 3, 2, 1 |

## Left out

- Rendering: the JSX, `classNames`, CSS, icons, sex-based colours, the active and
  outlined button states, and the `onKeyDown` Enter handling (src/App.jsx:119-408).
  These are presentation only.
- React's `useState` plumbing. Each handler's several state updates are modelled
  by their combined effect, a new state record.
- The data modules `./api/users`, `./api/categories` and `./api/products` are not
  part of this model. The tables are parameters.
- Catalog.EnrichProduct: returns `None` when the product's category has no owner in
  the user table. The view instead builds the row with `user` undefined
  (src/App.jsx:12-18).
- Catalog.Enrich: fails the whole join when a category's owner is missing. The view
  itself only throws for a missing category, at line 12. A missing owner leaves
  `user` undefined and throws later: when the row is rendered, when the user filter
  reads `user.id` (src/App.jsx:37), or when a User sort reads `a.user.name`
  (src/App.jsx:57).
- Collation.Collate: stands in for `localeCompare` with the character-by-character
  lexicographic order. The host's collation tables are not modelled. The sort
  proofs use only totality and transitivity of the comparator.
- Text.Lower: maps only ASCII A-Z. The rest of Unicode's case mapping is not modelled.
- Text.Trim: works on Unicode scalar values, not UTF-16 code units.
  The two agree for the whitespace characters `trim` removes.
- Sorting.Sort: states sortedness and permutation, not stability. The view relies
  on the engine's `Array.prototype.sort`, which ECMA-262 requires to be stable only
  since its 2019 edition. The insertion sort used here happens to be stable, but
  no contract promises it.
- The comparator's `default: return 0` branch (src/App.jsx:58-59) is unreachable.
  The sort runs only when a column is chosen, and the view only ever passes one
  of the four column names. `Sorting.Field` therefore has exactly four values.
- Ids are unbounded integers, so the `a.id - b.id` comparison is exact. JavaScript
  numbers lose precision above 2^53; the model assumes ids are integers of magnitude
  below 2^53, where the two agree. The data tables are not part of this model.
- The search filter is guarded by the untrimmed query (src/App.jsx:40). So a
  whitespace-only query still runs the filter, with an empty pattern, and keeps
  every product (`Pipeline.BlankQueryKeepsAll`). The model follows the code.
