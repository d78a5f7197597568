# tvmaze.ts in Dafny

A model of the TVMaze search widget in `tvmaze.ts`. A user types a term and the page
asks the TVMaze catalog for matching shows. It draws one item per show, each with an
"Episodes" button. A click on that button fetches the show's episodes and lists them
in a separate episode area.

The model has five modules:

- `Wrappers` holds `Option`. It stands for optional chaining (`?.`) on the raw JSON.
  It also stands for a request that resolves (`Some`) or rejects (`None`).
- `JsText` gives the JSON values that end up in template strings: undefined, null,
  integer numbers and strings. It also gives how `${…}` writes them out, with a
  decimal parser that reads integer numerals back.
- `Catalog` is the catalog client: the `DEFAULT_IMG` constant, the two request URLs,
  the raw and normalised show and episode records, and the two `data.map(...)`
  normalisations. The HTTP transport is a `CatalogService` value. It maps the
  requested URL to the response data, or to `None` for a rejected request.
- `Rendering` holds what the page draws. A show item is the show plus the id its
  click handler captured. An episode item is its label text. A label parser reads
  season and number back from a label.
- `TvMaze` has the class `Page`. Its three fields are the shows list, the episode
  list texts and the visibility of the episode area. Its methods are
  `populateShows`, `populateEpisodes`, `displayEpisodesOfShow`, the "Episodes" click
  and `searchForShowAndDisplay`. Two client methods state the idempotence and
  accumulation behaviour.

`populateEpisodes` (tvmaze.ts:126-137) never clears the list. So every expansion
appends its labels to those already there. A new search only hides the episode area
(tvmaze.ts:93) and keeps its items. The next expansion appends to them and shows
them again. `Page.PopulateEpisodes` and
`ExpandSearchExpand` state this behaviour.

## Model

| member | source | states |
|---|---|---|
| `Catalog.ImageOf` | tvmaze.ts:42 | the picture is never empty; it is the hit's medium URL when that is present and not the empty string, and otherwise `DEFAULT_IMG`; it is never taken from any other field |
| `Catalog.ImageDefaulting` | tvmaze.ts:8 | the picture equals `DEFAULT_IMG` exactly when the image object is missing, or its medium URL is missing, empty or the default URL itself |
| `Catalog.NormalizeShows` | tvmaze.ts:37-44 | the mapping throws (None) exactly when some hit has no nested show; otherwise one show per raw hit, same length and order, element i copying id, name and summary from hit i's nested show, with its image following the defaulting rule and non-empty |
| `Catalog.NormalizeEpisodes` | tvmaze.ts:111-116 | one episode per raw episode, same length and order; id, name, season and number are copied unchanged and every other raw field is dropped |
| `Catalog.SearchUrl` | tvmaze.ts:35 | the search URL is the endpoint prefix followed by the term unchanged, its length the sum of the two |
| `Catalog.SearchUrlCharacterised` | tvmaze.ts:35 | a URL reads back as term t exactly when it is the search URL of t: no escaping, trimming or validation, so an empty term gives the bare prefix |
| `Catalog.EpisodesUrl` | tvmaze.ts:108 | the episodes URL is longer than its fixed prefix and suffix together |
| `Catalog.EpisodesUrlRoundTrip` | tvmaze.ts:108 | the show id is read back from the episodes URL built from it |
| `Catalog.EpisodesUrlInjective` | tvmaze.ts:108 | two show ids give the same episodes URL exactly when they are equal |
| `Catalog.GetShowsByTerm` | tvmaze.ts:33-47 | the search is sent to the search URL of the term; a rejected request propagates as `None`; otherwise the answer is the normalisation of the response data, which is `None` when a hit lacks its nested show |
| `Catalog.GetEpisodesOfShow` | tvmaze.ts:107-119 | the request goes to the episodes URL of the id; a rejection propagates as `None`; otherwise the answer is the normalisation of the response data |
| `JsText.NatToDecimal` | tvmaze.ts:108 | the numeral written for a non-negative number is non-empty, all digits, and has no leading zero |
| `JsText.ParseNatToDecimal` | tvmaze.ts:108 | reading a non-negative number's numeral gives back that number |
| `JsText.IntToDecimal` | tvmaze.ts:132 | an integer's text is non-empty and starts with a minus sign exactly when the integer is negative |
| `JsText.IntToDecimalRoundTrip` | tvmaze.ts:132 | reading an integer's text gives back that integer |
| `JsText.IntToDecimalInjective` | tvmaze.ts:108 | distinct integers are written as distinct texts |
| `JsText.Interpolate` | tvmaze.ts:132 | the text that `${v}` gives a number reads back as that number |
| `Rendering.RenderShows` | tvmaze.ts:60-81 | one item per show, in order; item k carries show k, and its button is bound to show k's own id |
| `Rendering.EpisodeLabel` | tvmaze.ts:132 | a label starts with the episode's name and ends with `)` |
| `Rendering.EpisodeLabels` | tvmaze.ts:130-134 | one label per episode, in order |
| `Rendering.EpisodeLabelRoundTrip` | tvmaze.ts:132 | for an episode whose season and number are integers (negative ones included), season and number are parsed back from `name (season S, number N)` |
| `Rendering.EpisodeLabelDistinguishes` | tvmaze.ts:132 | for two episodes with the same name and integer season and number, the labels are equal exactly when season and number both agree |
| `TvMaze.Page.constructor` | tvmaze.ts:4-5 | the page starts with both lists empty and the episode area hidden, and every show item is bound to its own show |
| `TvMaze.Page.PopulateShows` | tvmaze.ts:57-82 | the shows list afterwards is exactly the rendering of the input, in order, whatever it held before; the episode area is untouched; every item stays bound to its own show's id |
| `TvMaze.Page.PopulateEpisodes` | tvmaze.ts:126-137 | the episode list afterwards is the old list followed by the labels of the input episodes in order (it is never cleared); the area is then visible; the shows list is untouched |
| `TvMaze.Page.DisplayEpisodesOfShow` | tvmaze.ts:50-53 | when the episode request for the id resolves, its normalised episodes are appended and shown; when it rejects, nothing on the page changes |
| `TvMaze.Page.ClickEpisodes` | tvmaze.ts:79 | clicking item k's button requests the episodes of item k's own show and appends them; a rejected request changes nothing |
| `TvMaze.Page.SearchForShowAndDisplay` | tvmaze.ts:89-95 | when the search for the untrimmed term resolves, the episode area is hidden with its list kept as it was, and the shows list is replaced by the rendering of the results; a search that rejects (failed request, or a hit without nested show) stops before hiding and changes nothing |
| `TvMaze.PopulateShowsTwice` | tvmaze.ts:58 | drawing the same shows twice leaves exactly one drawing of them, with no duplication |
| `TvMaze.ExpandSearchExpand` | tvmaze.ts:93 | expanding, searching and expanding again leaves the area visible, with a list equal to the old list plus the first show's labels plus the second show's labels |

## Left out

- The HTTP requests (axios), their status codes and transport failures are foreign I/O. Each endpoint is a function parameter from URL to `Option` of response data, with `None` standing for any rejection.
- Concurrency and the interleaving of overlapping requests are left out, including the race where a slow earlier search overwrites a later one. Each flow is modelled as if its request resolved at once.
- jQuery and DOM specifics are left out: selectors, `.empty()`/`.append()`, `.hide()`, `setAttribute("style", …)` and `innerText`. The model keeps only the item sequences and one visibility flag.
- The HTML template of a show item (tvmaze.ts:61-77) is rendering, and so is any markup injection through `summary`, `name` or `image`. A rendered item is the show record plus its bound id.
- The wiring of the submit handler and its `preventDefault` (tvmaze.ts:97-100) are left out. `console.log` (tvmaze.ts:45) is left out too.
- Reading the search box (`.val()` and `.toString()`, tvmaze.ts:90-91) is not modelled. The term enters as a string parameter, untrimmed.
- The initial hidden state of the episode area comes from the page's markup. That markup is not part of this model, so `Page.constructor` takes it as given.
- JSON numbers are integers here. Fractional numbers, `-0`, and the exponent notation JavaScript uses for numbers of magnitude 10^21 or more are not modelled. Show and episode ids are integers. Names and summaries are strings, and a `null` summary is not modelled. Season and number can be undefined, null, an integer or a string.
- `Rendering.EpisodeLabelRoundTrip`: it is stated only for integer seasons and numbers. A string season or number may itself contain `, number ` or look like a numeral (`JsString("1")` is labelled like `JsNumber(1)`), so the label is then ambiguous.
- `Rendering.EpisodeLabelDistinguishes`: it is stated only for integer seasons and numbers, for the same reason.
- The shapes of response data that throw other than a hit without a nested show are not modelled: a `null` element of either response array, or response data that is not an array, makes `data.map` or the field reads (tvmaze.ts:37, 111) throw, and the flow then rejects like a failed request. The record types here do not admit those shapes.
