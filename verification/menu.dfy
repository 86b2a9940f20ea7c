/** The menu page (menu.js): category and search filtering, sorting,
    resetting the filters, and the favourites list. */
module Menu {
  import opened Optional
  import opened Strings
  import opened Seqs

  /** A menu entry; the price is in cents, image and display fields are
      not modelled. */
  datatype MenuItem = MenuItem(
    id: int, name: string, description: string, category: string,
    price: int, popular: bool)

  /** The page's filter state: the selected category ('all' for none) and
      the search term, stored lower-cased. */
  datatype View = View(currentFilter: string, searchTerm: string)

  /** The state the page starts in. */
  const INITIAL_VIEW := View("all", "")

  // ---------------------------------------------------------------------
  // Filtering

  function InCategory(category: string): MenuItem -> bool {
    (m: MenuItem) => m.category == category
  }

  /** The name or description, lower-cased, contains the term. */
  predicate MatchesTerm(term: string, m: MenuItem) {
    Contains(ToLower(m.name), term) || Contains(ToLower(m.description), term)
  }

  function MatchesSearch(term: string): MenuItem -> bool {
    (m: MenuItem) => MatchesTerm(term, m)
  }

  /** What the two filters let through. */
  predicate Selected(view: View, m: MenuItem) {
    && (view.currentFilter == "all" || m.category == view.currentFilter)
    && (view.searchTerm == "" || MatchesTerm(view.searchTerm, m))
  }

  /** getFilteredItems: keep the current category unless it is 'all', then
      keep the items whose name or description contains the search term
      unless it is empty. The result keeps the menu's order, holds exactly
      the selected items, and is the whole menu when nothing is selected. */
  function GetFilteredItems(menu: seq<MenuItem>, view: View): (r: seq<MenuItem>)
    ensures IsSubsequence(r, menu)
    ensures forall i :: 0 <= i < |r| ==> r[i] in menu && Selected(view, r[i])
    ensures forall i :: 0 <= i < |menu| && Selected(view, menu[i]) ==> menu[i] in r
    ensures view == INITIAL_VIEW ==> r == menu
  {
    var byCategory :=
      if view.currentFilter != "all" then Filter(menu, InCategory(view.currentFilter)) else menu;
    var bySearch :=
      if view.searchTerm != "" then Filter(byCategory, MatchesSearch(view.searchTerm)) else byCategory;
    FilterSteps(menu, view, byCategory, bySearch);
    bySearch
  }

  /** The two filter steps, each optional, leave a subsequence of the menu. */
  lemma FilterSteps(menu: seq<MenuItem>, view: View, byCategory: seq<MenuItem>, bySearch: seq<MenuItem>)
    requires byCategory ==
      if view.currentFilter != "all" then Filter(menu, InCategory(view.currentFilter)) else menu
    requires bySearch ==
      if view.searchTerm != "" then Filter(byCategory, MatchesSearch(view.searchTerm)) else byCategory
    ensures IsSubsequence(bySearch, menu)
  {
    IsSubsequenceRefl(menu);
    IsSubsequenceRefl(byCategory);
    SubsequenceTrans(bySearch, byCategory, menu);
  }

  lemma {:induction false} IsSubsequenceRefl(s: seq<MenuItem>)
    ensures IsSubsequence(s, s)
  {
    if s != [] {
      IsSubsequenceRefl(s[1..]);
    }
  }

  /** An item is shown exactly when it is on the menu and selected. */
  lemma FilteredIff(menu: seq<MenuItem>, view: View, m: MenuItem)
    ensures m in GetFilteredItems(menu, view) <==> m in menu && Selected(view, m)
  {
    var r := GetFilteredItems(menu, view);
    if m in r {
      var i :| 0 <= i < |r| && r[i] == m;
    }
    if m in menu && Selected(view, m) {
      var i :| 0 <= i < |menu| && menu[i] == m;
    }
  }

  /** Filtering a second time with the same view changes nothing. */
  lemma FilterTwice(menu: seq<MenuItem>, view: View)
    ensures GetFilteredItems(GetFilteredItems(menu, view), view) == GetFilteredItems(menu, view)
  {
    var r := GetFilteredItems(menu, view);
    var byCategory :=
      if view.currentFilter != "all" then Filter(menu, InCategory(view.currentFilter)) else menu;
    if view.currentFilter != "all" {
      FilterAll(r, InCategory(view.currentFilter));
    }
    if view.searchTerm != "" {
      FilterAll(r, MatchesSearch(view.searchTerm));
    }
  }

  /** The search input's handler stores the typed text lower-cased. */
  function SetSearch(view: View, input: string): (r: View)
    ensures r.currentFilter == view.currentFilter
    ensures |r.searchTerm| == |input|
    ensures forall i :: 0 <= i < |input| ==> r.searchTerm[i] == LowerChar(input[i])
    ensures forall i :: 0 <= i < |input| ==> !('A' <= r.searchTerm[i] <= 'Z')
  {
    view.(searchTerm := ToLower(input))
  }

  /** Typing a search in upper or lower case shows the same items. */
  lemma SearchCaseInsensitive(menu: seq<MenuItem>, view: View, input: string)
    ensures GetFilteredItems(menu, SetSearch(view, ToUpper(input))) ==
            GetFilteredItems(menu, SetSearch(view, input))
  {
    LowerOfUpper(input);
  }

  /** filterByCategory: selects the category and keeps the search term. */
  function FilterByCategory(view: View, category: string): (r: View)
    ensures r.searchTerm == view.searchTerm
    ensures forall m :: Selected(r, m) <==>
      (category == "all" || m.category == category)
      && (view.searchTerm == "" || MatchesTerm(view.searchTerm, m))
  {
    view.(currentFilter := category)
  }

  /** After choosing a category the page shows exactly the menu items of
      that category (any, for 'all') that match the current search; going
      back to 'all' from the initial view shows the whole menu. */
  lemma CategoryShows(menu: seq<MenuItem>, view: View, category: string, m: MenuItem)
    ensures m in GetFilteredItems(menu, FilterByCategory(view, category)) <==>
      && m in menu
      && (category == "all" || m.category == category)
      && (view.searchTerm == "" || MatchesTerm(view.searchTerm, m))
    ensures GetFilteredItems(menu, FilterByCategory(INITIAL_VIEW, "all")) == menu
  {
    FilteredIff(menu, FilterByCategory(view, category), m);
  }

  /** clearFilters: back to every category and no search term, so the whole
      menu is shown again. */
  function ClearFilters(view: View): (r: View)
    ensures forall menu :: GetFilteredItems(menu, r) == menu
  {
    INITIAL_VIEW
  }

  // ---------------------------------------------------------------------
  // Sorting

  /** The sort keys the select offers. `Name` orders by a collation rank
      supplied by the caller, standing for `localeCompare`. */
  datatype SortKey = Name | PriceLow | PriceHigh | Popular

  /** The select's value; any other value keeps the filtered order. */
  function ParseSortKey(sortBy: string): (r: Option<SortKey>)
    ensures r.None? <==> sortBy !in {"name", "price-low", "price-high", "popular"}
  {
    if sortBy == "name" then Some(Name)
    else if sortBy == "price-low" then Some(PriceLow)
    else if sortBy == "price-high" then Some(PriceHigh)
    else if sortBy == "popular" then Some(Popular)
    else None
  }

  /** Each comparator `(a, b) => f(a) - f(b)` orders by a rank: the price,
      the negated price, popular (1) before not popular (0), or the
      collation rank of the name. */
  function RankOf(key: SortKey, nameRank: string -> int): MenuItem -> int {
    match key
    case Name => (m: MenuItem) => nameRank(m.name)
    case PriceLow => (m: MenuItem) => m.price
    case PriceHigh => (m: MenuItem) => -m.price
    case Popular => (m: MenuItem) => if m.popular then 0 else 1
  }

  predicate SortedBy(s: seq<MenuItem>, rank: MenuItem -> int) {
    forall i, j :: 0 <= i < j < |s| ==> rank(s[i]) <= rank(s[j])
  }

  function RankIs(rank: MenuItem -> int, k: int): MenuItem -> bool {
    (m: MenuItem) => rank(m) == k
  }

  /** Put `x` in front of the first entry that does not rank below it. */
  function Insert(x: MenuItem, t: seq<MenuItem>, rank: MenuItem -> int): (r: seq<MenuItem>)
    ensures |r| == |t| + 1
    ensures multiset(r) == multiset(t) + multiset{x}
  {
    if t == [] || rank(x) <= rank(t[0]) then [x] + t
    else
      assert t == [t[0]] + t[1..];
      [t[0]] + Insert(x, t[1..], rank)
  }

  /** Every entry of `s` ranks at least `b`. */
  predicate RanksAtLeast(s: seq<MenuItem>, rank: MenuItem -> int, b: int) {
    forall i :: 0 <= i < |s| ==> b <= rank(s[i])
  }

  /** A lower bound of `x` and of `t` bounds the result of inserting. */
  lemma RanksAtLeastInsert(x: MenuItem, t: seq<MenuItem>, rank: MenuItem -> int, b: int)
    requires b <= rank(x) && RanksAtLeast(t, rank, b)
    ensures RanksAtLeast(Insert(x, t, rank), rank, b)
  {
    var r := Insert(x, t, rank);
    forall i | 0 <= i < |r|
      ensures b <= rank(r[i])
    {
      assert r[i] in multiset(r);
      if r[i] != x {
        assert r[i] in multiset(t);
        var j :| 0 <= j < |t| && t[j] == r[i];
      }
    }
  }

  /** Inserting into a sorted sequence keeps it sorted. */
  lemma {:induction false} InsertSorted(x: MenuItem, t: seq<MenuItem>, rank: MenuItem -> int)
    requires SortedBy(t, rank)
    ensures SortedBy(Insert(x, t, rank), rank)
  {
    if t == [] || rank(x) <= rank(t[0]) {
    } else {
      var tail := t[1..];
      InsertSorted(x, tail, rank);
      RanksAtLeastInsert(x, tail, rank, rank(t[0]));
      var r := Insert(x, t, rank);
      assert r == [t[0]] + Insert(x, tail, rank);
    }
  }

  /** A stable insertion sort, the order `Array.prototype.sort` guarantees. */
  function SortBy(s: seq<MenuItem>, rank: MenuItem -> int): (r: seq<MenuItem>)
    ensures multiset(r) == multiset(s)
    ensures SortedBy(r, rank)
  {
    if s == [] then []
    else
      assert s == [s[0]] + s[1..];
      InsertSorted(s[0], SortBy(s[1..], rank), rank);
      Insert(s[0], SortBy(s[1..], rank), rank)
  }

  /** Inserting keeps the relative order of the entries of each rank, with
      the new entry first among its equals. */
  lemma {:induction false} InsertStable(x: MenuItem, t: seq<MenuItem>, rank: MenuItem -> int, k: int)
    ensures Filter(Insert(x, t, rank), RankIs(rank, k)) ==
      (if rank(x) == k then [x] else []) + Filter(t, RankIs(rank, k))
  {
    var p := RankIs(rank, k);
    var r := Insert(x, t, rank);
    if t == [] || rank(x) <= rank(t[0]) {
      assert r[0] == x && r[1..] == t;
    } else {
      var r' := Insert(x, t[1..], rank);
      assert r[0] == t[0] && r[1..] == r';
      InsertStable(x, t[1..], rank, k);
      assert !(p(x) && p(t[0]));
    }
  }

  /** The sort is stable: for every rank the entries of that rank appear in
      the same order before and after. */
  lemma {:induction false} SortStable(s: seq<MenuItem>, rank: MenuItem -> int, k: int)
    ensures Filter(SortBy(s, rank), RankIs(rank, k)) == Filter(s, RankIs(rank, k))
  {
    if s != [] {
      SortStable(s[1..], rank, k);
      InsertStable(s[0], SortBy(s[1..], rank), rank, k);
    }
  }

  /** sortMenuItems: sort the filtered items by the selected key; any other
      value leaves them in menu order. */
  function SortMenuItems(menu: seq<MenuItem>, view: View, sortBy: string, nameRank: string -> int): (r: seq<MenuItem>)
    ensures multiset(r) == multiset(GetFilteredItems(menu, view))
    ensures ParseSortKey(sortBy).None? ==> r == GetFilteredItems(menu, view)
    ensures ParseSortKey(sortBy).Some? ==> SortedBy(r, RankOf(ParseSortKey(sortBy).value, nameRank))
  {
    var items := GetFilteredItems(menu, view);
    match ParseSortKey(sortBy)
    case None => items
    case Some(key) => SortBy(items, RankOf(key, nameRank))
  }

  /** 'price-low' lists prices in non-decreasing order, 'price-high' in
      non-increasing order, and 'popular' puts every popular item first;
      items that compare equal keep their menu order. */
  lemma SortOrders(menu: seq<MenuItem>, view: View, nameRank: string -> int)
    ensures var r := SortMenuItems(menu, view, "price-low", nameRank);
      forall i, j :: 0 <= i < j < |r| ==> r[i].price <= r[j].price
    ensures var r := SortMenuItems(menu, view, "price-high", nameRank);
      forall i, j :: 0 <= i < j < |r| ==> r[i].price >= r[j].price
    ensures var r := SortMenuItems(menu, view, "popular", nameRank);
      forall i, j :: 0 <= i < j < |r| && r[j].popular ==> r[i].popular
  {
    var items := GetFilteredItems(menu, view);
    assert ParseSortKey("price-low") == Some(PriceLow);
    assert ParseSortKey("price-high") == Some(PriceHigh);
    assert ParseSortKey("popular") == Some(Popular);
    var r1 := SortBy(items, RankOf(PriceLow, nameRank));
    var r2 := SortBy(items, RankOf(PriceHigh, nameRank));
    var r3 := SortBy(items, RankOf(Popular, nameRank));
    assert SortMenuItems(menu, view, "price-low", nameRank) == r1;
    assert SortMenuItems(menu, view, "price-high", nameRank) == r2;
    assert SortMenuItems(menu, view, "popular", nameRank) == r3;
  }

  /** Sorting by a key keeps, for each rank, the menu order among the
      items of that rank. */
  lemma SortMenuItemsStable(menu: seq<MenuItem>, view: View, key: SortKey, nameRank: string -> int, k: int)
    ensures var rank := RankOf(key, nameRank);
      var items := GetFilteredItems(menu, view);
      Filter(SortBy(items, rank), RankIs(rank, k)) == Filter(items, RankIs(rank, k))
  {
    SortStable(GetFilteredItems(menu, view), RankOf(key, nameRank), k);
  }

  // ---------------------------------------------------------------------
  // Favourites

  function IsNot(id: int): int -> bool {
    (x: int) => x != id
  }

  /** toggleFavorite: a listed id is removed (every copy of it), an unlisted
      one is appended; no other id changes. */
  function ToggleFavorite(favorites: seq<int>, id: int): (r: seq<int>)
    ensures id in r <==> id !in favorites
    ensures forall x :: x != id ==> (x in r <==> x in favorites)
    ensures id !in favorites ==> r == favorites + [id]
    ensures id in favorites ==> IsSubsequence(r, favorites)
  {
    if id in favorites then
      var r := Filter(favorites, IsNot(id));
      assert forall x :: x != id && x in favorites ==> x in r by {
        forall x | x != id && x in favorites
          ensures x in r
        {
          var i :| 0 <= i < |favorites| && favorites[i] == x;
        }
      }
      r
    else favorites + [id]
  }

  /** Toggling an unlisted id twice restores the list; toggling a listed id
      twice moves it, once, to the end. */
  lemma {:induction false} ToggleTwice(favorites: seq<int>, id: int)
    ensures id !in favorites ==> ToggleFavorite(ToggleFavorite(favorites, id), id) == favorites
    ensures id in favorites ==>
      ToggleFavorite(ToggleFavorite(favorites, id), id) == Filter(favorites, IsNot(id)) + [id]
  {
    if id !in favorites {
      FilterAppend(favorites, [id], IsNot(id));
      FilterAll(favorites, IsNot(id));
      assert Filter([id], IsNot(id)) == [];
    }
  }
}
