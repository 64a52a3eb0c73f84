# SecureCheck batch exposure check, in Dafny

This project models the `/api` upload handler `api_page` of SecureCheck
(`mp/app.py`). The handler takes an uploaded CSV file and reads its first column
as email addresses. It then asks a public breach-lookup service about each address,
one at a time, and builds one report record per address. Each record is "safe",
"breached" (with a count and the list of breach sources), "API error" or
"processing error". A failing lookup never stops the batch. A file that cannot
be read stops everything before any lookup.

Modules, one per concern of the handler:

- `Wrappers` (`wrappers.dfy`): `Option` and `Result`. `Result.Err` carries the text `str(e)` gives for an exception.
- `PyText` (`pytext.dfy`): the Python string behaviour the handler uses.
  - `str.strip()`, with Python's own whitespace set (`str.isspace`).
  - `str.endswith`.
  - `str(int)`, together with its inverse (decimal reading), which shows it is injective.
- `Json` (`json.dfy`): the decoded response body. It is `Null | Bool | Int | Str | List | Obj`, plus the three Python facts the classifier relies on:
  - `dict.get` with a default;
  - `v == 0` (true for `0` and for `False`);
  - `type(v).__name__`.
- `Exposure` (`exposure.dfy`): the classifier over `found` and `sources`. It also builds the record for one email from the lookup outcome and renders the status, icon and style class strings.
- `Api` (`api.dfy`): the per-email loop, written as an imperative method over the cells (`RunBatch`). It is proved against the specification functions `Candidates`, `Report` and `CallTrace`. `ApiPage` covers the whole handler: the GET case, the upload check, the CSV-reading error cases, then the loop.

The lookup service is a parameter `lookup: (nat, string) -> LookupOutcome`: the
outcome of the `k`-th lookup of the batch, made for a given email. An outcome is
one of three things:

- a decoded body;
- a `requests` exception, meaning a transport failure, a timeout, or a 4xx/5xx status raised by `raise_for_status`;
- any other exception while reading the body.

The handler's observable side effects are returned as a trace of events,
`Query(email)` and `Sleep`.

Behaviour of the code that the model reproduces and states explicitly:

- Only `found is None or found == 0` counts as safe: `found` that is absent, `None`, `0` or `False` gives "Safe", and the `sources` the service returned are dropped. Any other value, including `""`, `[]` and `"0"`, gives "Breached".
- An absent `sources` key defaults to `[]`, which is a list. So `{"found": 5}` gives "Breached — 0 breach(es)": the `found` fallback is used only when `sources` is present and is not a list.
- `isinstance(True, int)` holds. So `{"found": true, "sources": null}` counts `True`, and the status text reads "Breached — True breach(es)".
- A `found` integer can be negative and is printed as is.
- A body that is not a JSON object makes `data.get` raise. That gives "Processing Error: '<type>' object has no attribute 'get'".
- The one-second pause comes after each processed email, whatever the outcome. Blank cells get none.
- The two error kinds are distinct status strings, `API Error: …` and `Processing Error: …`. Both are styled `bg-yellow-500`.

## Model

| member | source | states |
|---|---|---|
| `PyText.IsSpace` | mp/app.py:70 | the whitespace `strip()` removes includes space, tab, newline and carriage return, and never a letter, digit, `@`, `.`, `-` or `_` |
| `PyText.ContentStart` | mp/app.py:70 | the first non-whitespace index: everything before it is whitespace, the character at it is not |
| `PyText.ContentEnd` | mp/app.py:70 | the end of the content: everything after it is whitespace, the character before it is not |
| `PyText.Strip` | mp/app.py:70-71 | `email.strip()` is empty exactly when the cell is all Python whitespace, otherwise it neither starts nor ends with whitespace |
| `PyText.StripInfix` | mp/app.py:70 | what `strip()` keeps is a contiguous infix of the cell, with only whitespace removed on either side |
| `PyText.StripIdempotent` | mp/app.py:70 | stripping an already stripped email changes nothing |
| `PyText.EndsWith` | mp/app.py:49 | `s.endswith(suffix)` holds exactly when the last `|suffix|` characters of `s` are those of `suffix`, one by one |
| `PyText.NatToDecimal` | mp/app.py:112 | the digits printed for a count are non-empty, all decimal digits, with no leading zero |
| `PyText.NatDecimalRoundTrip` | mp/app.py:112 | reading back the printed digits gives the number |
| `PyText.IntToDecimal` | mp/app.py:112 | `str(i)` is non-empty, starts with `-` exactly for a negative number, and is digits otherwise |
| `PyText.IntToDecimalInjective` | mp/app.py:112 | two integer counts print the same only when they are equal |
| `Json.Get` | mp/app.py:87-88 | `d.get(key, default)` is the key's value when the key is present and the default otherwise |
| `Json.EqualsZero` | mp/app.py:98 | `found == 0` holds for an int exactly when it is 0, for a bool exactly when it is `False`, and for nothing else |
| `Json.TypeName` | mp/app.py:84-88 | the type name in the `AttributeError` text is non-empty, is `dict` exactly for an object and `NoneType` exactly for null |
| `Exposure.Repr` | mp/app.py:110-112 | the printed count is non-empty; an int prints as an optional leading `-` (exactly when negative) and digits; a bool prints as a word, never starting with a digit or `-` |
| `Exposure.Classify` | mp/app.py:87-114 | a non-object body raises with Python's AttributeError text; `found` absent/None/0/False gives Safe whatever `sources` holds; otherwise Breached with `sources` passed on as given and a count that is the length of a list `sources`, else `found` when it is an int (`True` included), else 0; an absent `sources` gives count 0 |
| `Exposure.EntryFor` | mp/app.py:74-129 | one record per lookup, carrying the email: a `requests` exception (and only that) gives API Error with its message; any other exception or a non-object body gives Processing Error; errors and Safe carry `[]` as breaches; an object body is reported as `Classify` decides |
| `Exposure.StatusText` | mp/app.py:99-128 | the status strings of lines 99, 112, 125 and 128: their first letter tells Safe, Breached, API Error and Processing Error apart, and an error status ends with the exception's message |
| `Exposure.Icon` | mp/app.py:100-129 | the warning icon exactly for the two error statuses, the check mark exactly for Safe, the cross exactly for Breached |
| `Exposure.StyleClass` | mp/app.py:99-129 | the class is yellow exactly for the two error statuses, green exactly for Safe, red exactly for Breached |
| `Exposure.ReprInjective` | mp/app.py:110-112 | two counts print the same only when they are the same Python value (`True` is not `1`) |
| `Exposure.StatusTextInjective` | mp/app.py:98-129 | the status string determines the status: an API error, a processing error, a safe and a breached email never read alike, and neither do two counts or two messages |
| `Api.Candidates` | mp/app.py:69-72 | the emails looked up are at most as many as the cells, and each is non-empty and stripped |
| `Api.CallTrace` | mp/app.py:76-132 | the events of a batch, one lookup and then one pause per email looked up, are twice as many as the emails |
| `Api.Report` | mp/app.py:68-132 | the results list has exactly one entry per non-blank cell |
| `Api.CallTraceSnoc` | mp/app.py:76-132 | processing one more email adds its lookup and then one pause to the events |
| `Api.CandidatesAppend` | mp/app.py:69-72 | the candidates of two runs of cells concatenate: input order is kept, nothing is merged or reordered |
| `Api.CandidatesSkipBlank` | mp/app.py:70-72 | a blank or whitespace-only cell contributes nothing |
| `Api.CandidatesFromCells` | mp/app.py:69-70 | every email looked up is the stripped form of some cell |
| `Api.CellsBecomeCandidates` | mp/app.py:69-72 | every cell that is not blank after stripping is looked up |
| `Api.ReportAt` | mp/app.py:68-132 | entry `j` of the results is built from the `j`-th non-blank stripped cell and the `j`-th lookup outcome, obtained for that email |
| `Api.ReportSkipBlank` | mp/app.py:70-72 | inserting a blank cell changes neither the entries nor which lookup each uses |
| `Api.FailureIsolated` | mp/app.py:124-126 | a lookup that raises a `requests` exception yields an API Error entry with empty breaches at its own position, and every other entry is unchanged |
| `Api.CallTraceAt` | mp/app.py:76-132 | event `2j` is the lookup of the `j`-th email and event `2j+1` is the pause after it |
| `Api.SleepsPerCandidate` | mp/app.py:131-132 | exactly one pause per processed email, none for skipped cells |
| `Api.FirstEventIsLookup` | mp/app.py:69-80 | a batch with at least one email starts with the lookup of the first email, not with a pause |
| `Api.LookupsSeparated` | mp/app.py:131-132 | between any two lookups there is a pause |
| `Api.CellStep` | mp/app.py:69-129 | one more cell adds nothing when blank, or one candidate and one entry, built from the next lookup |
| `Api.RunBatch` | mp/app.py:68-132 | the loop's results are exactly `Report` of the cells and its events exactly `CallTrace` of the candidates; with `ReportAt` and `CallTraceAt`, that is one entry per non-blank cell, in input order, entry `j` from lookup `j`, each lookup followed by one pause |
| `Api.IsCsvUpload` | mp/app.py:46-49 | an upload is accepted only when a file is present and its name has at least four characters, the last four being `.csv` exactly (case-sensitive) |
| `Api.ApiPage` | mp/app.py:40-137 | GET: no results, no error, no lookups; POST without a file or with a name not ending in ".csv" (case-sensitive): "Please upload a valid CSV file.", nothing else; a read failure or a missing column 0: its error message, no results and no lookups; otherwise no error and the full batch |

## Left out

- The Flask routes, static files, `render_template` and the `app.run`/PORT startup (mp/app.py:18-36, 137, 139-142). They are web scaffolding. `ApiPage` returns the values passed to the template.
- The HTTP request itself: the URL, the query parameter and the 10-second timeout (mp/app.py:76-80). They are replaced by the `lookup` parameter.
- Request outcome classes: a body that is not JSON is a `DecodeFailure` (Processing Error), as the handler's two `except` clauses read. With `requests` 2.27 and later, `response.json()` raises `requests.exceptions.JSONDecodeError`, which is a `RequestException`. Under those versions a non-JSON body is reported as an API Error. In the model that is simply a `RequestFailure` outcome.
- pandas: UTF-8 decoding and `read_csv(header=None)` are foreign code. Only their result is modelled: an exception message, a frame without column 0, or column 0 as strings. `astype(str)` turns an empty cell into the string "nan", so such a cell is looked up, not skipped. The model takes the cells as pandas gives them and skips only what `strip()` empties.
- `time.sleep(1)`: only the pause is recorded, as a `Sleep` event after each lookup, not its duration.
- Floating-point values of `found` and `sources` (`0.0 == 0`), which JSON can carry. The `Json` value has no float case.
- JSON objects with repeated keys. They are a `map`, the way Python's decoder keeps the last value.
- The "⚠️ Unknown Status" default status, icon and class (mp/app.py:91-93). They are always overwritten before use.
- `if not error`: the model tests `error.None?`. Every error message the handler can set is non-empty, so the two tests agree.
- `FileStorage` truthiness (`bool(uploaded_file)` is `bool(filename)`). An empty filename fails the ".csv" suffix test anyway.
