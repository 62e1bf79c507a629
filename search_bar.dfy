/** The search box with suggestions (src/components/SearchBar.tsx). The
    component state is a class; each handler is a method, and the effect that
    recomputes the suggestions whenever the query or the product list changes
    is the method `Refresh`, run after the handler that changed them. The
    `onSearch` callback is the report a handler returns. */
module SearchBar {
  import opened Base
  import opened Search

  /** The limit of `results.slice(0, 10)`. */
  const MaxSuggestions := 10

  /** What the query effect shows for `query`: the first ten search results,
      or nothing for a query of fewer than two characters (the raw length,
      before trimming). */
  function Suggestions(products: seq<Product>, query: string): (r: seq<Product>)
    ensures |query| < 2 ==> r == []
    ensures |r| <= MaxSuggestions
  {
    if |query| >= 2 then
      var results := AdvancedSearch(products, query);
      results[..Min(MaxSuggestions, |results|)]
    else []
  }

  /** The suggestions are the leading search results: all of them when there
      are at most ten, and none exactly when the search finds nothing. */
  lemma SuggestionsSpec(products: seq<Product>, query: string)
    ensures Suggestions(products, query) <= AdvancedSearch(products, query)
    ensures |query| >= 2 && |AdvancedSearch(products, query)| <= MaxSuggestions ==>
      Suggestions(products, query) == AdvancedSearch(products, query)
    ensures |query| >= 2 ==> (Suggestions(products, query) == [] <==> AdvancedSearch(products, query) == [])
  {
  }

  /** Every suggestion is a catalogue product that matches the normalised query. */
  lemma SuggestionsMatch(products: seq<Product>, query: string)
    ensures forall p :: p in Suggestions(products, query) ==> p in products && Matches(p, SearchTerm(query))
  {
    var results := AdvancedSearch(products, query);
    if |SearchTerm(query)| >= 2 {
      AdvancedSearchSpec(products, query);
      assert forall p :: p in Suggestions(products, query) ==> p in results;
    }
  }

  /** A product whose name normalises to two characters or more is suggested
      for its own name, as long as it is among the first ten results. */
  lemma NameFindsItself(products: seq<Product>, p: Product)
    requires p in products && |SearchTerm(p.name)| >= 2
    ensures |p.name| >= 2
    ensures Suggestions(products, p.name) != []
  {
    var low := Lower(p.name);
    var term := SearchTerm(p.name);
    var k := |low| - |TrimStart(low)|;
    TrimSpec(low);
    assert StartsWith(low[k..], term);
    assert Contains(low, term);
    assert NameHit(p, term);
    AdvancedSearchSpec(products, p.name);
    assert p in AdvancedSearch(products, p.name);
  }

  // ---------------------------------------------------------------------------
  // The suggestion cursor.

  /** ArrowDown: `Math.min(prev + 1, suggestions.length - 1)`. */
  function CursorDown(index: int, count: nat): (r: int)
    ensures -1 <= r <= count - 1 || (index < -2 && r == index + 1)
    ensures index + 1 <= count - 1 ==> r == index + 1
  {
    Min(index + 1, count - 1)
  }

  /** ArrowUp: `Math.max(prev - 1, -1)`. */
  function CursorUp(index: int): (r: int)
    ensures r >= -1 && r <= Max(index - 1, -1)
    ensures index >= 0 ==> r == index - 1
  {
    Max(index - 1, -1)
  }

  datatype Key = ArrowDown | ArrowUp | Enter | Escape | OtherKey

  /** The cursor after a run of key presses with the list unchanged; only the
      arrows move it. */
  function Cursor(index: int, count: nat, keys: seq<Key>): int
    decreases |keys|
  {
    if keys == [] then index
    else
      var next := match keys[0]
        case ArrowDown => CursorDown(index, count)
        case ArrowUp => CursorUp(index)
        case _ => index;
      Cursor(next, count, keys[1..])
  }

  /** The cursor never leaves [-1, count - 1] once it is in it. */
  lemma {:induction false} CursorStaysInRange(index: int, count: nat, keys: seq<Key>)
    requires -1 <= index <= count - 1
    ensures -1 <= Cursor(index, count, keys) <= count - 1
    decreases |keys|
  {
    if keys != [] {
      var next := match keys[0]
        case ArrowDown => CursorDown(index, count)
        case ArrowUp => CursorUp(index)
        case _ => index;
      CursorStaysInRange(next, count, keys[1..]);
    }
  }

  /** A stale cursor (the list shrank under it) is pulled back into range by
      one ArrowDown, and from then on stays there. */
  lemma StaleCursorRecovers(index: int, count: nat, keys: seq<Key>)
    requires index >= -1
    ensures -1 <= Cursor(index, count, [ArrowDown] + keys) <= count - 1
  {
    assert ([ArrowDown] + keys)[1..] == keys;
    CursorStaysInRange(CursorDown(index, count), count, keys);
  }

  // ---------------------------------------------------------------------------
  // The component.

  /** The effect on `[query, products]`, as the new suggestions, dropdown
      flag and cursor; a short query leaves the cursor where it was. */
  method Effect(products: seq<Product>, query: string, index: int) returns (shown: seq<Product>, open: bool, cursor: int)
    ensures shown == Suggestions(products, query)
    ensures |query| >= 2 ==> open == (shown != []) && cursor == -1
    ensures |query| < 2 ==> !open && cursor == index
  {
    if |query| >= 2 {
      var results := AdvancedSearch(products, query);
      shown := results[..Min(MaxSuggestions, |results|)];
      open := |results| > 0;
      cursor := -1;
    } else {
      shown, open, cursor := [], false, index;
    }
  }

  /** What `onSearch(results, query)` receives. */
  datatype Report = Report(results: seq<Product>, query: string)

  class SearchBox {
    var products: seq<Product>
    var query: string
    var suggestions: seq<Product>
    var showSuggestions: bool
    var selectedIndex: int

    /** The shown list is always the effect's result for the current query
        and products, and the cursor never drops below -1. */
    predicate Valid()
      reads this
    {
      selectedIndex >= -1 && suggestions == Suggestions(products, query)
    }

    /** Mount: empty query, and the effect's short-query branch. */
    constructor(products: seq<Product>)
      ensures Valid()
      ensures this.products == products && query == ""
      ensures suggestions == [] && !showSuggestions && selectedIndex == -1
    {
      this.products := products;
      query := "";
      suggestions := [];
      showSuggestions := false;
      selectedIndex := -1;
    }

    /** The effect on `[query, products]`, run after a render that changed either. */
    method Refresh()
      modifies this
      requires selectedIndex >= -1
      ensures Valid()
      ensures products == old(products) && query == old(query)
      ensures |query| >= 2 ==> showSuggestions == (suggestions != []) && selectedIndex == -1
      ensures |query| < 2 ==> !showSuggestions && selectedIndex == old(selectedIndex)
    {
      suggestions, showSuggestions, selectedIndex := Effect(products, query, selectedIndex);
    }

    /** The input's `onChange`; the effect runs only when the text changed. */
    method Type(text: string)
      modifies this
      requires Valid()
      ensures Valid()
      ensures products == old(products) && query == text
      ensures text == old(query) ==> suggestions == old(suggestions) && showSuggestions == old(showSuggestions) && selectedIndex == old(selectedIndex)
      ensures text != old(query) && |text| >= 2 ==> showSuggestions == (suggestions != []) && selectedIndex == -1
      ensures text != old(query) && |text| < 2 ==> !showSuggestions && selectedIndex == old(selectedIndex)
    {
      if text != query {
        query := text;
        Refresh();
      }
    }

    /** A new `products` prop; the effect runs again on the same query. */
    method SetProducts(newProducts: seq<Product>)
      modifies this
      requires Valid()
      ensures Valid()
      ensures products == newProducts && query == old(query)
      ensures newProducts == old(products) ==> suggestions == old(suggestions) && showSuggestions == old(showSuggestions) && selectedIndex == old(selectedIndex)
      ensures newProducts != old(products) && |query| >= 2 ==> showSuggestions == (suggestions != []) && selectedIndex == -1
    {
      if newProducts != products {
        products := newProducts;
        Refresh();
      }
    }

    /** `selectProduct`: the query becomes the product's name, the dropdown
        closes and the product alone is reported; a changed query then runs
        the effect, which can open the dropdown again. */
    method SelectProduct(product: Product) returns (report: Report)
      modifies this
      requires Valid()
      ensures Valid()
      ensures report == Report([product], product.name)
      ensures query == product.name && products == old(products)
      ensures product.name == old(query) ==> !showSuggestions && selectedIndex == old(selectedIndex)
      ensures product.name != old(query) && |product.name| >= 2 ==> showSuggestions == (suggestions != []) && selectedIndex == -1
      ensures product.name != old(query) && |product.name| < 2 ==> !showSuggestions
    {
      var changed := product.name != query;
      query := product.name;
      showSuggestions := false;
      report := Report([product], product.name);
      if changed {
        Refresh();
      }
    }

    /** `doSearch`: the full result list for the current query. */
    method DoSearch() returns (report: Report)
      modifies this
      requires Valid()
      ensures Valid()
      ensures report == Report(AdvancedSearch(products, query), query)
      ensures !showSuggestions
      ensures products == old(products) && query == old(query) && suggestions == old(suggestions) && selectedIndex == old(selectedIndex)
    {
      report := Report(AdvancedSearch(products, query), query);
      showSuggestions := false;
    }

    /** `handleKeyDown`. Enter selects the highlighted suggestion when the
        cursor is on one, and otherwise searches. */
    method KeyDown(key: Key) returns (report: Option<Report>)
      modifies this
      requires Valid()
      ensures Valid()
      ensures products == old(products)
      ensures key == ArrowDown ==> (report.None? && selectedIndex == CursorDown(old(selectedIndex), |suggestions|)
        && query == old(query) && suggestions == old(suggestions) && showSuggestions == old(showSuggestions))
      ensures key == ArrowUp ==> (report.None? && selectedIndex == CursorUp(old(selectedIndex))
        && query == old(query) && suggestions == old(suggestions) && showSuggestions == old(showSuggestions))
      ensures key == Enter && 0 <= old(selectedIndex) < |old(suggestions)| ==>
        var chosen := old(suggestions)[old(selectedIndex)];
        && report == Some(Report([chosen], chosen.name)) && query == chosen.name
        && (chosen.name != old(query) && |chosen.name| >= 2 ==> showSuggestions == (suggestions != []) && selectedIndex == -1)
      ensures key == Enter && !(0 <= old(selectedIndex) < |old(suggestions)|) ==>
        report == Some(Report(AdvancedSearch(products, query), query)) && !showSuggestions
        && query == old(query) && suggestions == old(suggestions) && selectedIndex == old(selectedIndex)
      ensures key == Escape ==> (report.None? && !showSuggestions
        && query == old(query) && suggestions == old(suggestions) && selectedIndex == old(selectedIndex))
      ensures key == OtherKey ==> report.None? && unchanged(this)
    {
      match key
      case ArrowDown =>
        selectedIndex := Min(selectedIndex + 1, |suggestions| - 1);
        report := None;
      case ArrowUp =>
        selectedIndex := Max(selectedIndex - 1, -1);
        report := None;
      case Enter =>
        if selectedIndex >= 0 && selectedIndex < |suggestions| {
          var r := SelectProduct(suggestions[selectedIndex]);
          report := Some(r);
        } else {
          var r := DoSearch();
          report := Some(r);
        }
      case Escape =>
        showSuggestions := false;
        report := None;
      case OtherKey =>
        report := None;
    }

    /** The input's `onFocus`: reopen a non-empty list. */
    method Focus()
      modifies this
      requires Valid()
      ensures Valid()
      ensures showSuggestions == (old(showSuggestions) || suggestions != [])
      ensures products == old(products) && query == old(query) && suggestions == old(suggestions) && selectedIndex == old(selectedIndex)
    {
      if |suggestions| > 0 {
        showSuggestions := true;
      }
    }

    /** The document `mousedown` listener; `outside` is whether the press
        landed outside both the input and the list. */
    method MouseDown(outside: bool)
      modifies this
      requires Valid()
      ensures Valid()
      ensures showSuggestions == (old(showSuggestions) && !outside)
      ensures products == old(products) && query == old(query) && suggestions == old(suggestions) && selectedIndex == old(selectedIndex)
    {
      if outside {
        showSuggestions := false;
      }
    }
  }

  /** Picking a suggestion with Enter, when its name differs from what was
      typed, leaves the dropdown open on that name's own suggestions: the
      effect reruns on the new query after `selectProduct` closed it. */
  method SelectingReopens(box: SearchBox) returns (report: Option<Report>)
    modifies box
    requires box.Valid() && 0 <= box.selectedIndex < |box.suggestions|
    requires box.suggestions[box.selectedIndex].name != box.query
    requires |SearchTerm(box.suggestions[box.selectedIndex].name)| >= 2
    ensures box.Valid()
    ensures report.Some? && |report.value.results| == 1
    ensures box.showSuggestions
  {
    var chosen := box.suggestions[box.selectedIndex];
    SuggestionsMatch(box.products, box.query);
    assert chosen in box.products;
    NameFindsItself(box.products, chosen);
    report := box.KeyDown(Enter);
    assert box.query == chosen.name;
  }
}
