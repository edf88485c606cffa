/** The menu page's item filter (frontend/src/pages/MenuPage.tsx). */
module Menu {
  import opened Common
  import opened Text
  import opened Catalog

  /** The pseudo-category of the first tab, which shows every category. */
  const AllCategories: string := "Todos"

  predicate MatchesCategory(item: MenuItem, activeCategory: string) {
    activeCategory == AllCategories || item.category == activeCategory
  }

  /** Case-insensitive substring search on the item's name. */
  predicate MatchesSearch(item: MenuItem, searchQuery: string) {
    Includes(Lower(item.name), Lower(searchQuery))
  }

  function Shown(activeCategory: string, searchQuery: string): MenuItem -> bool {
    (item: MenuItem) => MatchesCategory(item, activeCategory) && MatchesSearch(item, searchQuery)
  }

  /** `filteredItems`: the items of `items` both tests keep, in menu order. */
  function FilteredItems(items: seq<MenuItem>, activeCategory: string, searchQuery: string): (r: seq<MenuItem>)
    ensures SubseqOf(r, items)
    ensures forall x :: x in r <==> x in items && MatchesCategory(x, activeCategory) && MatchesSearch(x, searchQuery)
    ensures activeCategory != AllCategories ==> forall x :: x in r ==> x.category == activeCategory
  {
    FilterIsSubseq(items, Shown(activeCategory, searchQuery));
    Filter(items, Shown(activeCategory, searchQuery))
  }

  /** The first tab with an empty search box shows the whole menu, unchanged. */
  lemma AllWithEmptySearch(items: seq<MenuItem>)
    ensures FilteredItems(items, AllCategories, "") == items
  {
    assert Lower("") == "";
    forall i | 0 <= i < |items| ensures Shown(AllCategories, "")(items[i]) {
      IncludesEmpty(Lower(items[i].name));
    }
    FilterKeepsAll(items, Shown(AllCategories, ""));
  }

  /** Every item shown has the lower-cased query somewhere in its lower-cased name. */
  lemma NameContainsQuery(items: seq<MenuItem>, activeCategory: string, searchQuery: string)
    ensures forall x :: x in FilteredItems(items, activeCategory, searchQuery) ==>
      exists i :: OccursAt(Lower(x.name), Lower(searchQuery), i)
  {
    forall x | x in FilteredItems(items, activeCategory, searchQuery)
      ensures exists i :: OccursAt(Lower(x.name), Lower(searchQuery), i)
    {
      IncludesIff(Lower(x.name), Lower(searchQuery));
    }
  }

  /** The search ignores case: changing the case of the query changes nothing. */
  lemma SearchIgnoresCase(items: seq<MenuItem>, activeCategory: string, searchQuery: string)
    ensures FilteredItems(items, activeCategory, Lower(searchQuery)) == FilteredItems(items, activeCategory, searchQuery)
  {
    LowerIdempotent(searchQuery);
    FilterAgree(items, Shown(activeCategory, Lower(searchQuery)), Shown(activeCategory, searchQuery));
  }

  /** Narrowing the filter again with the same tab and query changes nothing. */
  lemma FilterStable(items: seq<MenuItem>, activeCategory: string, searchQuery: string)
    ensures FilteredItems(FilteredItems(items, activeCategory, searchQuery), activeCategory, searchQuery)
         == FilteredItems(items, activeCategory, searchQuery)
  {
    FilterIdempotent(items, Shown(activeCategory, searchQuery));
  }

  /** Every seed item is in one of the listed categories, and its own tab shows it while the search box is empty. */
  lemma SeedMenuCovered()
    ensures forall x :: x in MenuItems ==> x.category in Categories && x in FilteredItems(MenuItems, x.category, "")
  {
    forall x | x in MenuItems
      ensures x.category in Categories && x in FilteredItems(MenuItems, x.category, "")
    {
      assert Lower("") == "";
      IncludesEmpty(Lower(x.name));
    }
  }
}
