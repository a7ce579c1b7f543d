/** Small value types shared by the components: an optional value and the
    outcome of an asynchronous fetch whose network and JSON parts are not modelled. */
module Common {

  /** A value that may be absent (`null` / `undefined` in TypeScript). */
  datatype Option<+T> = None | Some(value: T)

  /** What an awaited `fetch(...)` followed by `response.json()` produced:
      the decoded payload, or a rejection caught by the component's `catch`. */
  datatype FetchOutcome<+T> = Fetched(payload: T) | FetchFailed
}
