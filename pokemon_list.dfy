/** The list component: the fetched summaries, the loading flag driven by the
    single fetch attempt, and the name filter applied on every render. */
module PokemonList {
  import opened Common
  import opened JsString
  import opened UrlParams
  import SearchBar

  /** One entry of the fetched list: a name and the URL of its detail record. */
  datatype Pokemon = Pokemon(name: string, url: string)

  /** `searchParams.get("search")?.toLowerCase() || ""`. */
  function SearchQuery(params: seq<Pair>): (q: string)
    ensures IsLowered(q)
    ensures FirstValue(params, SearchBar.SearchKey).Some? ==> q == ToLowerCase(FirstValue(params, SearchBar.SearchKey).value)
    ensures !HasName(params, SearchBar.SearchKey) ==> q == ""
  {
    match FirstValue(params, SearchBar.SearchKey)
    case Some(s) =>
      ToLowerCaseIdempotent(s);
      ToLowerCase(s)
    case None => ""
  }

  /** The filter's test: the lower-cased name includes the query. */
  predicate Matches(p: Pokemon, query: string): (b: bool)
    ensures query == "" ==> b
    ensures b ==> |query| <= |p.name|
  {
    Includes(ToLowerCase(p.name), query)
  }

  /** `pokemon.filter((p) => p.name.toLowerCase().includes(searchQuery))`. */
  function Filter(list: seq<Pokemon>, query: string): (r: seq<Pokemon>)
    ensures |r| <= |list|
    ensures forall p :: p in r ==> p in list && Matches(p, query)
  {
    if list == [] then []
    else (if Matches(list[0], query) then [list[0]] else []) + Filter(list[1..], query)
  }

  /** `xs` can be obtained from `ys` by deleting elements, keeping the order of the rest. */
  predicate IsSubsequence<T(==)>(xs: seq<T>, ys: seq<T>) {
    if xs == [] then true
    else if ys == [] then false
    else (xs[0] == ys[0] && IsSubsequence(xs[1..], ys[1..])) || IsSubsequence(xs, ys[1..])
  }

  /** The filtered list is a subsequence of the fetched list: same order, nothing invented. */
  lemma {:induction false} FilterIsSubsequence(list: seq<Pokemon>, query: string)
    ensures IsSubsequence(Filter(list, query), list)
  {
    if list != [] {
      var r := Filter(list, query);
      FilterIsSubsequence(list[1..], query);
      if Matches(list[0], query) {
        assert r[0] == list[0] && r[1..] == Filter(list[1..], query);
      } else {
        assert r == Filter(list[1..], query);
      }
    }
  }

  /** An entry is kept exactly when it is in the fetched list and its lower-cased name contains the query. */
  lemma {:induction false} FilterKeepsExactlyMatches(list: seq<Pokemon>, query: string, p: Pokemon)
    ensures p in Filter(list, query) <==> p in list && Matches(p, query)
  {
    if list != [] {
      FilterKeepsExactlyMatches(list[1..], query, p);
      assert list == [list[0]] + list[1..];
    }
  }

  /** Filtering distributes over concatenation: each entry is judged on its own,
      and the kept entries of a prefix come before those of the rest. */
  lemma {:induction false} FilterConcat(a: seq<Pokemon>, b: seq<Pokemon>, query: string)
    ensures Filter(a + b, query) == Filter(a, query) + Filter(b, query)
  {
    if a != [] {
      assert (a + b)[0] == a[0] && (a + b)[1..] == a[1..] + b;
      FilterConcat(a[1..], b, query);
    } else {
      assert a + b == b;
    }
  }

  /** An empty query keeps the whole list, unchanged and in order. */
  lemma {:induction false} FilterEmptyQuery(list: seq<Pokemon>)
    ensures Filter(list, "") == list
  {
    if list != [] {
      FilterEmptyQuery(list[1..]);
    }
  }

  /** Filtering the filtered list again with the same query changes nothing. */
  lemma {:induction false} FilterIdempotent(list: seq<Pokemon>, query: string)
    ensures Filter(Filter(list, query), query) == Filter(list, query)
  {
    if list != [] {
      FilterIdempotent(list[1..], query);
      var tail := Filter(list[1..], query);
      if Matches(list[0], query) {
        assert Filter(list, query) == [list[0]] + tail;
        FilterConcat([list[0]], tail, query);
        assert [list[0]][1..] == [];
      } else {
        assert Filter(list, query) == tail;
      }
    }
  }

  /** What the component renders: the loading view, or a grid with one card per entry. */
  datatype ListView = Loading | Grid(cards: seq<Pokemon>)

  /** The search text a grid reflects, once the search bar has reconciled the URL
      with the debounced text `debounced`: the lower-cased text. */
  lemma QueryAfterSearchBar(params: seq<Pair>, debounced: string)
    ensures SearchQuery(SearchBar.Reconciled(params, debounced)) == ToLowerCase(debounced)
  {
  }

  /** The component's state: the fetched list and the loading flag. */
  class PokemonListView {
    var pokemon: seq<Pokemon>
    var loading: bool

    /** `useState<Pokemon[]>([])` and `useState(true)`. */
    constructor ()
      ensures pokemon == [] && loading
    {
      pokemon := [];
      loading := true;
    }

    /** The end of the one fetch attempt: `setPokemon(data.results)` when it
        succeeded, nothing when it threw, and `setLoading(false)` in every case. */
    method FetchSettled(outcome: FetchOutcome<seq<Pokemon>>)
      modifies this
      ensures !loading
      ensures pokemon == if outcome.Fetched? then outcome.payload else old(pokemon)
    {
      if outcome.Fetched? {
        pokemon := outcome.payload;
      }
      loading := false;
    }

    /** A render: the loading view while loading, otherwise the filtered grid.
        Rendering reads the stored list and never changes it. */
    function Render(params: seq<Pair>): (v: ListView)
      reads this
      ensures v.Loading? <==> loading
      ensures v.Grid? ==> v.cards == Filter(pokemon, SearchQuery(params))
      ensures v.Grid? ==> IsSubsequence(v.cards, pokemon)
      ensures v.Grid? ==> forall p :: p in v.cards <==> p in pokemon && Matches(p, SearchQuery(params))
    {
      if loading then Loading
      else
        var q := SearchQuery(params);
        FilterIsSubsequence(pokemon, q);
        assert forall p :: p in Filter(pokemon, q) <==> p in pokemon && Matches(p, q) by {
          forall p ensures p in Filter(pokemon, q) <==> p in pokemon && Matches(p, q) {
            FilterKeepsExactlyMatches(pokemon, q, p);
          }
        }
        Grid(Filter(pokemon, q))
    }
  }

  /** Mount, a failed fetch, then a render: the grid is empty whatever the search. */
  method MountWithFailedFetch(params: seq<Pair>) returns (v: ListView)
    ensures v == Grid([])
  {
    var view := new PokemonListView();
    view.FetchSettled(FetchFailed);
    v := view.Render(params);
  }

  /** Mount, a successful fetch, then a render with no search: every fetched entry gets a card, in order. */
  method MountWithFetchedList(list: seq<Pokemon>, params: seq<Pair>) returns (v: ListView)
    requires !HasName(params, SearchBar.SearchKey)
    ensures v == Grid(list)
  {
    var view := new PokemonListView();
    view.FetchSettled(Fetched(list));
    v := view.Render(params);
    FilterEmptyQuery(list);
  }
}
