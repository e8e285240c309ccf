# Complaint analysis service: a verified model of its kernel

The service answers `POST /analyze` with a `location` and a `problem`. It ranks the stored
complaints for that location by how similar their text is to the problem, looks up related news
with a web search, and asks a generative model for a summary. Almost all of it is calls to
Firestore, the Serper search API and Gemini. This project models the part with behaviour of its
own, with those services turned into function parameters:

- `PyText`: Python's `str.strip()`, `str.title()` and `str.lower()` on ASCII text, and the
  location normalisation `location.strip().title()`. It is idempotent and gives the empty string
  exactly for an all-whitespace location.
- `PyValues`: record field values (strings, floats, and values of types without string
  methods), the two exceptions the kernel can raise (`KeyError`,
  `AttributeError`) with their `str(e)` text, and `Option`/`Result`.
- `Ranking` (`search_firebase`): each stored complaint is scored by an abstract `score` on the
  lower-cased problem and text. Complaints below the threshold (default 70) are dropped. Each
  survivor is copied with a `similarity` field. The copies are sorted by similarity, highest first,
  by a stable insertion sort. Proved: sound, complete, ordered, a permutation of the survivors,
  stable (for each similarity, the entries keep the store's order), nothing but `similarity`
  changes, and the first complaint without a string `text` makes the ranking fail with its error.
  The stable descending order is also proved unique, so these properties fix the result exactly.
- `News` (`search_online`, `generate_summary`): a status other than 200, or a body without
  `organic`, gives no news. Otherwise there is one `{title, link, snippet}` per result, in order,
  with the defaults `"No Title"`, `"#"` and `"No snippet available."`. The news is rendered as
  markdown bullets joined by newlines, or as `No relevant news found` when there is none.
  For non-empty news, splitting the rendered text on newlines gives back exactly its bullets,
  one per item, when no field holds a newline.
- `Handler` (`analyze`): validation (400 with the fixed message exactly when the normalised
  location or the stripped problem is empty), the pipeline, and the catch-all that turns an
  escaping exception from validation, ranking or the summary into a 500 carrying `str(e)`.
  Encoding the response as JSON is not modelled (see below).

External services are parameters. `query: string -> seq<Record>` is the Firestore range query
for a normalised location. `score: (string, string) -> Percent` is `fuzz.token_sort_ratio`.
`search: string -> SearchResponse` is the Serper call for a query string. `generate` is the
Gemini call for the prompt built from the location, problem, complaints and rendered news.

## Model

| member | source | states |
|---|---|---|
| `PyText.Strip` | app.py:87 | the result has no whitespace at either end and is a slice of the input with only whitespace cut from each side |
| `PyText.Title` | app.py:86 | same length; a character that starts a word (first, or after a non-letter) is upper-cased, every other one lower-cased |
| `PyText.Lower` | app.py:37 | same length, every character lower-cased |
| `PyText.TitleOnlyChangesCase` | app.py:86 | title-casing changes only the case of letters: lower-casing before or after gives the same string |
| `PyText.TitleIdempotent` | app.py:29 | title-casing twice is title-casing once |
| `PyText.StripStripped` | app.py:29 | stripping a string with no whitespace at either end leaves it unchanged |
| `PyText.StripEmptyIff` | app.py:87-89 | `strip()` gives the empty string exactly when every character is whitespace |
| `PyText.TitleKeepsStripped` | app.py:86 | title-casing keeps a stripped string stripped |
| `PyText.NormalizeIdempotent` | app.py:29 | re-normalising the normalised location that `analyze` passes to `search_firebase` leaves it unchanged |
| `PyText.NormalizeEmptyIff` | app.py:86-89 | the normalised location is empty exactly when the raw one is all whitespace |
| `Ranking.TextOf` | app.py:37 | `data["text"].lower()` gets the stored text exactly when the key is present with a string; a missing key raises `KeyError('text')`, a value of any other modelled type (one without string methods) `AttributeError(<its type>, 'lower')` |
| `Ranking.Annotate` | app.py:39 | `{**data, "similarity": s}`: keys are the record's plus `similarity`, which holds `s`; every other field is unchanged |
| `Ranking.Filter` | app.py:34-39 | the loop keeps only annotated entries, never more than there are candidates |
| `Ranking.SortBySimilarity` | app.py:41 | the result is sorted by similarity, highest first, is a permutation of the input, and for each similarity keeps the input's order (stable sort) |
| `Ranking.SearchFirebase` | app.py:28-42 | the result is the ranking of what the store returns for the stripped, title-cased location; an empty store answer gives an empty list |
| `Ranking.FilterFailsAtFirstBadText` | app.py:35-37 | the loop fails exactly when some candidate has no string `text`, with the first such candidate's error |
| `Ranking.FilterSound` | app.py:35-39 | every survivor is a candidate annotated with its own score, which is at or above the threshold |
| `Ranking.FilterComplete` | app.py:35-39 | every candidate scoring at or above the threshold survives, annotated with its score |
| `Ranking.RankedFailure` | app.py:35-42 | ranking fails exactly when some candidate lacks a string `text`, with the first one's error, every earlier one having been scored |
| `Ranking.RankedSound` | app.py:36-41 | every returned complaint has a similarity in [threshold, 100] and is a stored complaint with only `similarity` set to its own score |
| `Ranking.RankedComplete` | app.py:36-41 | every stored complaint scoring at or above the threshold is returned, annotated with its score |
| `Ranking.SortedUnique` | app.py:41 | two sorted lists with the same entries, in the same order, for each similarity are equal: a stable descending sort has one answer |
| `Ranking.RankedUnique` | app.py:34-42 | the ranking is fully determined by the candidates, problem, threshold and scorer |
| `News.Project` | app.py:53 | each of title, link and snippet is copied when present and is exactly `"No Title"`, `"#"` or `"No snippet available."` when absent |
| `News.ProjectAll` | app.py:53 | one item per organic result, in the same order |
| `News.SearchOnline` | app.py:45-55 | status other than 200 gives `[]`; a 200 without `organic` gives `[]`; otherwise one projected item per organic result, in order |
| `News.ProjectAsResult` | app.py:53 | projecting a result that has all three fields gives them back unchanged |
| `News.NewsSection` | app.py:59-69 | no news renders as `No relevant news found`; any news renders as the joined bullets, which never equal that marker |
| `News.NewsTextStart` | app.py:59-61 | rendered news that is not empty starts with a bullet `- **` |
| `News.SplitJoin` | app.py:59-61 | splitting a non-empty list of newline-free lines, joined by newlines, on newlines gives the lines back |
| `News.NewsTextLines` | app.py:59-61 | for non-empty news with no field holding a newline, the rendered news has exactly one line per item, its bullet |
| `News.GenerateSummary` | app.py:58-79 | a failing model call fails the summary with its message; otherwise the summary is the response text, or `No summary available.` for a falsy response object (a response whose text is `""` gives an empty summary) |
| `Handler.Validate` | app.py:85-90 | a present non-string field raises `AttributeError` (location first); otherwise the request is rejected exactly when either field is absent or all whitespace; an accepted location is normalised and non-empty, and an accepted problem is stripped and non-empty |
| `Handler.Analyze` | app.py:83-105 | the status is 200, 400 or 500 by outcome; 400 with the fixed message exactly when validation rejects; a ranking error or model failure gives 500 with its text; otherwise 200 with the normalised location, the stripped problem, the stable ranking at threshold 70, the projected news and the summary |

## Left out

- Flask, the routing, `request.get_json`, `jsonify`, the `GET /` welcome route and `app.run`: web framework I/O. The handler is a function from the body's two optional fields to an outcome. A body that is not a JSON object is not modelled.
- Handler.Analyze: `jsonify` runs inside the `try`. A matched complaint holding a value it cannot encode (a GeoPoint, a DocumentReference) makes `analyze` answer 500 with `Object of type … is not JSON serializable`. The model assumes every record value can be encoded and answers 200 there.
- Environment variables, Firebase initialisation and the Gemini configuration: process set-up.
- The Firestore range query, whose upper bound is the location followed by U+F8FF: a foreign client. It is the parameter `query`, called with the normalised location. Store failures are not modelled.
- `fuzz.token_sort_ratio`: a library whose source is not part of this model. It is the parameter `score`, whose value is only known to lie in [0, 100]. The token-order symmetry of the score is not modelled.
- `requests.post`, its headers, its JSON encoding and the `"num": 5` hint: network I/O. The service is the parameter `search`, called with the query string `"{problem} in {location}"`. Transport exceptions and a malformed body are not modelled. Organic results hold string fields only, and `organic` is always a list.
- The prompt wording, the dump of the complaints inside it, and the Gemini model name: a foreign generative call. It is the parameter `generate`, which receives what the prompt embeds.
- PyText.Strip, PyText.Title, PyText.Lower: follow Python only for ASCII text. A character outside ASCII counts as neither whitespace nor a letter, whereas Python uses the Unicode tables.
- Ranking.TextOf: a `bytes` or `bytearray` `text` (what Firestore returns for a Blob field) is not a modelled value. Python lowers it and hands it to the scorer instead of raising, and the model does not cover that case, so the failure equivalence of `Ranking.FilterFailsAtFirstBadText` and `Ranking.RankedFailure` is stated only for string, float and other values without string methods.
- Ranking.SortBySimilarity: returns a new sequence rather than sorting the list in place. The list is local to `search_firebase`, so no caller can observe the difference.
- The similarity is the float rapidfuzz returns, modelled as a real. It is only compared and copied, so no rounding is involved.
- `search_online` does not truncate the news list; `"num": 5` is only a hint to the search service, so the model keeps every organic result.
- `generate_summary` does not catch the model's exception; it reaches `analyze` and becomes a 500, as `Handler.Analyze` states.
- Dictionary key order in the JSON output is not modelled: records are maps.
