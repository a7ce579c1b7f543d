/** The search bar: the text input's state and the effect that mirrors the
    debounced text into the `search` query parameter. The debounce timer and the
    navigation itself are outside the model; the effect is modelled as the
    reconciliation it performs on whatever debounced value arrives. */
module SearchBar {
  import opened Common
  import opened UrlParams

  /** The name of the query parameter the search text is stored under. */
  const SearchKey: string := "search"

  /** The input's initial text: the current `search` parameter, or `""` when it is absent. */
  function InitialValue(params: seq<Pair>): (v: string)
    ensures FirstValue(params, SearchKey).Some? ==> v == FirstValue(params, SearchKey).value
    ensures !HasName(params, SearchKey) ==> v == ""
  {
    match FirstValue(params, SearchKey)
    case Some(s) => s
    case None => ""
  }

  /** The parameters the effect navigates to: `search` set to the debounced text
      when it is non-empty, removed when it is empty. */
  function Reconciled(params: seq<Pair>, debounced: string): (r: seq<Pair>)
    ensures FirstValue(r, SearchKey) == if debounced != "" then Some(debounced) else None
    ensures CountName(r, SearchKey) == if debounced != "" then 1 else 0
    ensures WithoutName(r, SearchKey) == WithoutName(params, SearchKey)
  {
    if debounced != "" then
      SetValueGet(params, SearchKey, debounced);
      SetValueCount(params, SearchKey, debounced);
      SetValueKeepsOthers(params, SearchKey, debounced);
      SetValue(params, SearchKey, debounced)
    else
      WithoutNameRemoves(params, SearchKey);
      WithoutNameIdempotent(params, SearchKey);
      WithoutName(params, SearchKey)
  }

  /** The effect body: copy the current parameters into a fresh `URLSearchParams`,
      then `set` or `delete` the search parameter on it. The result is what
      `router.push` receives, before serialisation. */
  method SyncSearchParam(searchParams: seq<Pair>, debounced: string) returns (next: seq<Pair>)
    ensures next == Reconciled(searchParams, debounced)
    ensures debounced != "" ==> CountName(next, SearchKey) == 1 && FirstValue(next, SearchKey) == Some(debounced)
    ensures debounced == "" ==> CountName(next, SearchKey) == 0 && FirstValue(next, SearchKey) == None
    ensures WithoutName(next, SearchKey) == WithoutName(searchParams, SearchKey)
  {
    var params := new SearchParams(searchParams);
    if debounced != "" {
      params.Set(SearchKey, debounced);
    } else {
      params.Delete(SearchKey);
      WithoutNameIdempotent(searchParams, SearchKey);
    }
    next := params.list;
  }

  /** Reconciling keeps `get` of every other parameter name as it was. */
  lemma ReconciledKeepsOthers(params: seq<Pair>, debounced: string, other: string)
    requires other != SearchKey
    ensures FirstValue(Reconciled(params, debounced), other) == FirstValue(params, other)
  {
    if debounced != "" {
      SetValueGetOther(params, SearchKey, debounced, other);
    } else {
      WithoutNameGetOther(params, SearchKey, other);
    }
  }

  /** Running the effect again with the same debounced text changes nothing more. */
  lemma ReconciledIdempotent(params: seq<Pair>, debounced: string)
    ensures Reconciled(Reconciled(params, debounced), debounced) == Reconciled(params, debounced)
  {
    if debounced != "" {
      SetValueIdempotent(params, SearchKey, debounced);
    } else {
      WithoutNameIdempotent(params, SearchKey);
    }
  }

  /** Reading `search` back from the reconciled parameters gives the debounced
      text, or absence when it was empty; a search bar mounted on those parameters
      starts with that same text. */
  lemma ReconciledRoundTrip(params: seq<Pair>, debounced: string)
    ensures FirstValue(Reconciled(params, debounced), SearchKey)
      == if debounced != "" then Some(debounced) else None
    ensures InitialValue(Reconciled(params, debounced)) == debounced
  {
  }

  /** The text input's state. */
  class SearchInput {
    var value: string

    /** `useState(searchParams.get("search") || "")`. */
    constructor (params: seq<Pair>)
      ensures value == InitialValue(params)
    {
      value := InitialValue(params);
    }

    /** `onChange`: the state follows every keystroke. */
    method OnChange(text: string)
      modifies this
      ensures value == text
    {
      value := text;
    }
  }
}
