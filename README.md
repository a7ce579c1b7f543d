# Pokédex viewer: search, list, card and camera-dialog state in Dafny

This project models the logic of a small browser Pokédex built with Next.js.
The app fetches the first entries of a public Pokémon API and shows them as a grid of cards.
A search bar filters the grid by name; the search text is mirrored into the `search` URL query parameter.
Each card fetches its own detail record and shows a zero-padded id label.
A camera dialog starts, switches and stops a video stream and simulates an image analysis.

The model has one module per component, plus shared modules:

- `Common`: `Option`, and `FetchOutcome` (a fetch either yields its decoded payload or throws).
- `JsString`: the JavaScript built-ins the components call. These are ASCII `toLowerCase`, `includes`, `padStart` with a one-character fill, and `Number.prototype.toString()` for integers of safe size. Decimal digits come with their inverse, `DecimalValue`.
- `UrlParams`: `URLSearchParams` (section 6.2 of the WHATWG URL Standard) as an ordered list of name/value pairs.
  - `FirstValue` is `get`, `SetValue` is `set`, `WithoutName` is `delete`.
  - The class `SearchParams` is the object the search bar copies and then mutates in place.
- `SearchBar`: the input's state and the effect that reconciles the URL with the debounced text (`SyncSearchParam`, specified by `Reconciled`).
- `PokemonList`: the search query, the name filter, and the `pokemon`/`loading` state driven by the one list fetch (class `PokemonListView`).
- `PokemonCard`: the `details`/`loading` state of one card, the skeleton-or-content choice (class `PokemonCardView`), and the id label.
- `CameraDetection`: the dialog (class `CameraDialog`).
  - Its fields are `isStreaming`, `facingMode`, `processing` and the attached stream `srcObject`.
  - Tracks are objects that stay live until stopped; `StopCamera` stops them in a loop, as the component's `forEach` does.
  - `captureImage` is split at its first `await`. `BeginCapture` holds the guard, `setProcessing(true)` and the 2D-context check. `FinishCapture` is the `finally`. Other handlers may run in between.
  - A ghost flag `capturing` marks a capture in flight. `Valid()` requires that an in-flight capture keeps `processing` set, so a second capture cannot start.

Network, media, canvas and timer calls are replaced by parameters. These are the fetch outcome, the `getUserMedia` outcome, whether the video and canvas elements are mounted, whether a 2D context exists, and how encoding ended.

Three behaviours of the code shape the model:

- The list is fetched with `limit=151`. The model does not depend on the count: the fetched list is an input.
- `switchCamera` does not request a new stream. It stops the stream and flips the facing mode; the user presses "Start Camera" again.
- After a failed detail fetch the card's `loading` becomes false. `details` stays null, so the skeleton stays on screen.

Three behaviours of the code are kept as written:

- When the canvas has no 2D context, `captureImage` returns with `processing` still true. No later handler clears it.
- A stream granted after the video element went away is not attached, and its tracks are not stopped.
- A stream granted while another is attached (two clicks on "Start Camera" during the permission prompt) replaces it. The replaced stream's tracks are never stopped, so `StopCamera` releases every track of the attached stream only.

## Model

| member | source | states |
|---|---|---|
| JsString.ToLowerCase | components/pokemon-list.tsx:39 | same length; each character is lower-cased (ASCII) |
| JsString.ToLowerCaseIdempotent | components/pokemon-list.tsx:18 | the result has no upper-case letter; lower-casing it again changes nothing |
| JsString.Includes | components/pokemon-list.tsx:39 | every string includes the empty query; no string includes a longer one |
| JsString.PadStart | components/pokemon-card.tsx:124 | length is max(target, original); the original is the suffix; every added character is the fill |
| JsString.Digits | components/pokemon-card.tsx:124 | at least one character, all decimal digits, no leading zero except for 0 |
| JsString.NumberToString | components/pokemon-card.tsx:124 | the digits of a non-negative id; a minus sign then the digits of a negative one |
| JsString.DecimalValueOfDigits | components/pokemon-card.tsx:124 | reading the digits of n back gives n |
| JsString.DecimalValueLeadingZeros | components/pokemon-card.tsx:124 | leading zeros do not change the value of a digit string |
| JsString.StripRepeatedZeros | components/pokemon-card.tsx:124 | removing padded zeros from a string not starting with '0' gives it back |
| JsString.DigitsLength | components/pokemon-card.tsx:124 | ids of at least 100 have at least three digits, smaller ones at most two |
| UrlParams.FirstValue | components/search-bar.tsx:13 | `get` is absent exactly when no pair has the name; a present value is one of that name's pairs |
| UrlParams.FirstValueAt | components/search-bar.tsx:13 | `get` returns the value at the first index of the name |
| UrlParams.WithoutName | components/search-bar.tsx:22 | `delete` keeps exactly the pairs of other names, one result pair per kept input pair (length drops by the count of the name) |
| UrlParams.WithoutNameConcat | components/search-bar.tsx:22 | `delete` of a concatenation concatenates the results: kept pairs stay in their relative order, duplicates included |
| UrlParams.WithoutNameSingle | components/search-bar.tsx:22 | a single pair is kept exactly when it has another name |
| UrlParams.SetValue | components/search-bar.tsx:20 | after `set` the new pair is present, and every other pair is an old pair of another name |
| UrlParams.CountNameZero | components/search-bar.tsx:22 | a name has zero pairs exactly when no pair carries it |
| UrlParams.SetValueReplacesFirst | components/search-bar.tsx:20 | `set` overwrites the first pair of the name in place, keeps earlier pairs, drops later pairs of the name |
| UrlParams.SetValueAppends | components/search-bar.tsx:20 | `set` of an absent name appends the pair at the end |
| UrlParams.WithoutNameRemoves | components/search-bar.tsx:22 | after `delete` no pair has the name and `get` is absent |
| UrlParams.WithoutNameIdempotent | components/search-bar.tsx:22 | `delete` twice equals `delete` once |
| UrlParams.SetValueCount | components/search-bar.tsx:20 | after `set` exactly one pair has the name |
| UrlParams.SetValueGet | components/search-bar.tsx:20 | after `set`, `get` of the name returns the value set |
| UrlParams.SetValueKeepsOthers | components/search-bar.tsx:20 | `set` keeps the other names' pairs with their values and order, and adds no other pair |
| UrlParams.SetValueIdempotent | components/search-bar.tsx:20 | `set` twice with the same value equals `set` once |
| UrlParams.WithoutNameGetOther | components/search-bar.tsx:22 | `delete` does not change `get` of any other name |
| UrlParams.SetValueGetOther | components/search-bar.tsx:20 | `set` does not change `get` of any other name |
| UrlParams.SearchParams.constructor | components/search-bar.tsx:18 | the copy holds the same pairs in the same order |
| UrlParams.SearchParams.Set | components/search-bar.tsx:20 | the list becomes `SetValue` of the old list; one pair of the name, carrying the value; other pairs kept |
| UrlParams.SearchParams.Delete | components/search-bar.tsx:22 | the list becomes `WithoutName` of the old list; no pair of the name |
| SearchBar.InitialValue | components/search-bar.tsx:13 | the existing `search` value, or "" when the parameter is absent |
| SearchBar.Reconciled | components/search-bar.tsx:18-22 | `search` reads back as the text, or absent for ""; one `search` pair for a non-empty text, none for ""; other pairs kept in order |
| SearchBar.SyncSearchParam | components/search-bar.tsx:17-25 | non-empty text: exactly one `search` pair, holding the text; empty text: no `search` pair; all other pairs kept in order |
| SearchBar.ReconciledKeepsOthers | components/search-bar.tsx:18-22 | `get` of every other parameter is unchanged by the effect |
| SearchBar.ReconciledIdempotent | components/search-bar.tsx:17-25 | running the effect twice with the same text gives the parameters of running it once |
| SearchBar.ReconciledRoundTrip | components/search-bar.tsx:19-22 | reading `search` back gives the text, or absence when it was empty; the input's initial value is the text |
| SearchBar.SearchInput.constructor | components/search-bar.tsx:13 | the input starts with the existing `search` value, or "" |
| SearchBar.SearchInput.OnChange | components/search-bar.tsx:34 | the input holds the typed text |
| PokemonList.SearchQuery | components/pokemon-list.tsx:18 | the lower-cased `search` value, "" when it is absent; never has an upper-case letter |
| PokemonList.Matches | components/pokemon-list.tsx:38-39 | every entry matches the empty query; a match needs a query no longer than the name |
| PokemonList.Filter | components/pokemon-list.tsx:38-40 | no longer than the list; every kept entry is from the list and matches |
| PokemonList.FilterIsSubsequence | components/pokemon-list.tsx:38-40 | the filtered list is a subsequence of the fetched list, in the original order |
| PokemonList.FilterKeepsExactlyMatches | components/pokemon-list.tsx:39 | an entry is kept iff it is in the list and its lower-cased name contains the query |
| PokemonList.FilterConcat | components/pokemon-list.tsx:38-40 | filtering a concatenation concatenates the filtered parts: each entry is judged alone, order kept |
| PokemonList.FilterEmptyQuery | components/pokemon-list.tsx:39 | an empty query returns the whole list unchanged |
| PokemonList.FilterIdempotent | components/pokemon-list.tsx:38-40 | filtering the filtered list again with the same query changes nothing |
| PokemonList.QueryAfterSearchBar | components/pokemon-list.tsx:18 | after the search bar reconciles the URL with a text, the list's query is that text lower-cased |
| PokemonList.PokemonListView.constructor | components/pokemon-list.tsx:15-16 | initially an empty list, loading |
| PokemonList.PokemonListView.FetchSettled | components/pokemon-list.tsx:20-36 | loading ends false in every outcome; the list becomes the payload on success and stays as it was on failure |
| PokemonList.PokemonListView.Render | components/pokemon-list.tsx:38-57 | the loading view iff loading; otherwise the grid is the filtered list (duplicates included), a subsequence of the stored list holding exactly the matching entries |
| PokemonList.MountWithFailedFetch | components/pokemon-list.tsx:15-31 | after a failed fetch the grid is empty |
| PokemonList.MountWithFetchedList | components/pokemon-list.tsx:18-40 | with no `search` parameter, every fetched entry gets a card, in order |
| PokemonCard.IdLabel | components/pokemon-card.tsx:124 | length max(3, length of the id's text); the id's text is the suffix; every character before it is '0' |
| PokemonCard.IdLabelShape | components/pokemon-card.tsx:124 | the label is '0's followed by the id's text, of length max(3, that text's length) |
| PokemonCard.IdLabelWide | components/pokemon-card.tsx:124 | ids of three or more digits are shown unchanged |
| PokemonCard.IdLabelNarrow | components/pokemon-card.tsx:124 | ids below 100 are shown with exactly three characters |
| PokemonCard.IdLabelRoundTrip | components/pokemon-card.tsx:124 | for a positive id, stripping leading zeros recovers its digits, and the label read as a number is the id |
| PokemonCard.IdLabelExamples | components/pokemon-card.tsx:124 | ids 1, 25 and 151 are shown as "001", "025" and "151" |
| PokemonCard.PokemonCardView.constructor | components/pokemon-card.tsx:63-64 | initially no details, loading |
| PokemonCard.PokemonCardView.FetchSettled | components/pokemon-card.tsx:66-80 | loading ends false in every outcome; details become the payload on success and stay as they were on failure |
| PokemonCard.PokemonCardView.Render | components/pokemon-card.tsx:82-124 | the skeleton iff loading or no details; otherwise the name, the types and the padded id label |
| PokemonCard.MountWithFailedFetch | components/pokemon-card.tsx:63-89 | after a failed fetch loading is false and the skeleton persists |
| PokemonCard.MountWithFetchedDetails | components/pokemon-card.tsx:63-124 | after a successful fetch the content of the fetched record is shown |
| CameraDetection.Toggle | components/camera-detection.tsx:49 | the facing mode always changes |
| CameraDetection.ToggleTwice | components/camera-detection.tsx:49 | switching twice restores the facing mode |
| CameraDetection.MediaTrack.Stop | components/camera-detection.tsx:41 | a stopped track is no longer live |
| CameraDetection.CameraDialog.constructor | components/camera-detection.tsx:18-22 | not streaming, facing `environment`, not processing, no stream attached |
| CameraDetection.CameraDialog.StartCamera | components/camera-detection.tsx:24-36 | a granted stream with a mounted video is attached and streaming starts; a denial or no video element changes nothing |
| CameraDetection.CameraDialog.StopCamera | components/camera-detection.tsx:38-45 | with a stream attached: every track stopped, stream detached, not streaming; without one: nothing changes |
| CameraDetection.CameraDialog.SwitchCamera | components/camera-detection.tsx:47-50 | every old track stopped, not streaming and not restarted, facing mode flipped |
| CameraDetection.CameraDialog.BeginCapture | components/camera-detection.tsx:52-60 | no-op while processing or without a ref; otherwise processing is set, and stays set when there is no 2D context; at most one capture in flight |
| CameraDetection.CameraDialog.FinishCapture | components/camera-detection.tsx:69-90 | processing ends false whether encoding succeeded or threw |
| CameraDetection.CameraDialog.OnOpenChange | components/camera-detection.tsx:94 | closing stops every track and detaches the stream; opening changes nothing |
| CameraDetection.StartThenClose | components/camera-detection.tsx:24-45 | starting a stream then closing the dialog leaves no live track and no streaming |
| CameraDetection.CaptureTwice | components/camera-detection.tsx:52-90 | a capture during processing is skipped; after the first finishes a new one starts |

## Left out

- Network fetches and JSON decoding (components/pokemon-list.tsx:23-27, components/pokemon-card.tsx:69-71) are external I/O. Each is an input: the decoded payload, or a failure.
- A successful list response without a `results` field is not modelled. In the source it stores `undefined`, and the filter then throws.
- The `useDebounce` timer (components/search-bar.tsx:15) is not part of this model. Its hook file is not among the modelled files, and it is timer-based. The effect is modelled for whatever debounced text arrives.
- `router.push` and `params.toString()` (components/search-bar.tsx:24) are not modelled. They are navigation and percent-encoding. The parameters stay an abstract list of pairs.
- `toLowerCase` is ASCII-only: Unicode case mapping is not modelled.
- `getUserMedia`, canvas drawing, `toBlob`, `FormData`, `setTimeout` and `alert` (components/camera-detection.tsx:26, 58-84) are browser and hardware I/O. Only their success or failure is an input.
- The `facingMode` constraint passed to `getUserMedia` is not modelled. A granted stream is taken as given.
- The video's `onPlay` handler (components/camera-detection.tsx:117) is left out. It only sets `isStreaming`, which the model already has true whenever a stream is attached.
- `StopCamera` assumes the video element is mounted. Its callers are the dialog's buttons and close handler, which run while the dialog content is mounted.
- Display arithmetic is not modelled: `height / 10`, `weight / 10` and `base_stat / 255 * 100` (components/pokemon-card.tsx:149, 153, 165) are floating point.
- NumberToString: prints every integer exactly. JavaScript prints integers beyond 2^53 with rounded digits, and from 10^21 in exponent form (`1e+21`); neither is modelled, and non-integral numbers are not modelled either. Pokémon ids stay far below 2^53, so `IdLabel` and its lemmas describe the labels the app actually shows.
- The `typeColors` table, the images, and all JSX and CSS rendering are left out. `Render` keeps only the values the views are built from.
- app/page.tsx is pure layout with no logic.
- React's re-render and effect scheduling is not modelled. Neither is a card re-fetching when its `url` prop changes, nor the concurrency of independent card fetches. Each fetch completion is one `FetchSettled` call, applied atomically.
