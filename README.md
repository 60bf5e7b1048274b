# Reddit insight engine — a Dafny model of its scanning core

The repository's scripts turn a research goal into a plan of subreddits and keywords, search
the platform for each planned subreddit, keep the posts with enough discussion, and hand the
collected text to a language model for a report. A background variant stores every captured
post in a small table keyed by post id and writes a daily digest of the last 24 hours.

This project models the parts that carry logic, and proves what they promise:

- `Extractor` covers `get_list_from_data` in `appv1.py`. It reads one column out of a record, a
  list of records or a table: exact normalised column name first, then the first column whose
  name contains the target, else nothing, and never an exception.
- `Recipe` covers the end of `generate_recipe` in `appv1.py`: a decoded object is unwrapped to
  its first list-valued entry, or wrapped as a one-row list.
- `Universal` covers `run_universal_engine` in `appv1.py`:
  - targets and keywords are read from the plan and the targets are cleaned and deduplicated;
  - an empty target list stops the run before any search;
  - the i-th target in the set's order is searched with the i-th keyword of the plan, or the
    first keyword when the plan has fewer; since that order is arbitrary, which keyword goes
    with which subreddit is not fixed;
  - failures are tolerated per target;
  - the first 40 blocks go to the model.
- `Engine` covers `run_universal_engine` in `app.py`:
  - every listed target, duplicates included, is searched with one shared `" OR "` query, each
    entry by a call of its own;
  - posts with more than two comments are kept;
  - the first 25 blocks go to the model.
- `Watchdog` covers `production_bot.py`:
  - the strategy constants;
  - the insert-or-ignore table, as the class `Store` over a map of rows plus the keys in
    insertion order;
  - the hourly scan loop;
  - the 24-hour window read, highest heat first;
  - the high-heat/low-heat selection and the text blob of the daily report.
- `Posts` holds what the three scanning loops share:
  - a post;
  - a search request;
  - the search service, a function from a request to its outcome, which lists posts or raises
    after listing some;
  - the listing a `for post in search(limit=…)` loop sees;
  - the language model, a function from the user message to an answer or an error;
  - the synthesis step the two Streamlit scripts share.
- `Text`, `Json` and `Wrappers` hold the string operations the code uses (`[:n]`, `lower()`,
  `strip()`, `replace()`, `in`, `join`, `str()` of an integer) and the decoded JSON values with
  Python's `str()` and `repr()` of them.

The network, the clock and the model are parameters:
- `search` is the search service: it gives the outcome of every request. The scripts
  `appv1.py` and `production_bot.py` send each request of a run once, since their targets
  are distinct, so one outcome per request is all they can observe.
- `calls` is the search service as `app.py` sees it: it gives the outcome of the search sent
  for each entry of the target list. A subreddit listed twice is searched twice, and the two
  searches can fare differently.
- `model` is the language model: it gives the reply to every message.
- `connectError` is the exception creating the platform client raises, if any.
- `writeError` is the exception a database write raises, if any.
- `now` is the time in integer seconds.

Every loop of the source that builds up its result step by step is a `method` with loop
invariants. Each is proved equal to a recursive specification function, for example
`Universal.ScanRange` and `Watchdog.Handed`, and the properties are proved as lemmas about
those functions. The two loops that return at their first match, the column search at
appv1.py:62-64 and the search for a list-valued entry at appv1.py:106-107, are recursive
functions (`Extractor.FirstContaining`, `Recipe.FirstList`), as are the comprehensions.

Notable behaviour of the code, which the model follows; the last two bullets differ from the
program's own comment and docstring:
- The `"r/"` prefix is removed case-sensitively, wherever it occurs in the target (appv1.py:138).
  For example, `"rr//"` cleans to `"r/"` (`Text.EraseIsOnePass`), and `"R/x"` keeps its prefix
  (`Universal.UpperPrefixIsKept`).
- app.py scans an empty or duplicated target list as given (app.py:93-95). There is no guard.
- `save_post` returns `True` also when the insert was ignored as a duplicate
  (production_bot.py:64), although the comment at production_bot.py:113 says otherwise.
- The window read never looks at `is_reported` (production_bot.py:74-75), although its
  docstring (production_bot.py:70) says it skips reported rows. Nothing sets the flag.
  `Watchdog.NothingIsReported` shows that the difference cannot be observed.

## Model

| member | source | states |
|---|---|---|
| Extractor.Lookup | appv1.py:44-45 | a record without the key gives a missing cell; with the key, the value of its first entry |
| Extractor.KeysOf | appv1.py:44-45 | a record's keys, one per entry, in its order |
| Extractor.FirstSeenMembers | appv1.py:44-45 | the reference column order `FirstSeen` holds each unseen key once |
| Extractor.FirstSeenSame | appv1.py:44-45 | the reference order depends only on which keys were seen before |
| Extractor.FirstSeenAppend | appv1.py:44-45 | the reference order of two runs of keys is that of the first, then the new keys of the second |
| Extractor.AddKeys | appv1.py:44-45 | a row adds its keys not yet labels, each once, in the row's order, after the existing labels |
| Extractor.Labels | appv1.py:44-45 | the columns of a list of records: every key of every row, each once, in order of first appearance (`FirstSeen` of `AllKeys`) |
| Extractor.LabelsInFirstAppearanceOrder | appv1.py:44-45 | rows `{b, a}` and `{c, a}` give the columns `b`, `a`, `c` |
| Extractor.AsTable | appv1.py:44-51 | a scalar is not turned into a table (the `return []` branch) |
| Extractor.FirstExact | appv1.py:58 | the index found is the first column equal to the target, or none is |
| Extractor.FirstContaining | appv1.py:62-64 | the index found is the first column containing the target, or none does |
| Extractor.FirstExactAt | appv1.py:58 | the first exact column is the one found |
| Extractor.FirstExactNone | appv1.py:58 | with no exact column, none is found |
| Extractor.FirstContainingAt | appv1.py:62-64 | the first containing column is the one found |
| Extractor.FirstContainingNone | appv1.py:62-66 | with no containing column, none is found |
| Extractor.Values | appv1.py:59 | `dropna().astype(str)` keeps at most as many values as cells |
| Extractor.Headers | appv1.py:54 | each column label is `Norm`ed: lower-cased and stripped, in column order |
| Extractor.GetListFromData | appv1.py:38-68 | a value of any other type gives the empty list |
| Extractor.Records | appv1.py:44-45 | a list of records is a list with one item per record |
| Extractor.ValuesOfLookups | appv1.py:59 | the values of a key's column are the non-missing values under that key, in row order |
| Extractor.RecordsTable | appv1.py:44-45 | a list of records becomes the records' table, `FromRecords` |
| Extractor.TableExact | appv1.py:58-59 | on a table, the first exactly matching column is read (`ColumnValues`) |
| Extractor.TableFallback | appv1.py:61-64 | on a table, without an exact match, the first containing column is read |
| Extractor.TableNoMatch | appv1.py:66 | on a table, with no match, nothing is read |
| Extractor.RecordHeaders | appv1.py:44-45 | the table of a list of records has the records' labels as headers, in order |
| Extractor.ExactMatch | appv1.py:54-59 | records: the first column whose normalised name equals the normalised target gives its values |
| Extractor.SubstringFallback | appv1.py:61-64 | records: without an exact match, the first column containing the target gives its values |
| Extractor.NoMatchIsEmpty | appv1.py:66 | records: no column equals or contains the target, so the result is empty |
| Extractor.SingleRecordIsOneRow | appv1.py:46-47 | a dict is read as a one-row table |
| Json.Quote | appv1.py:59 | `repr()` of a string uses double quotes exactly when it holds a single quote and no double quote |
| Json.EscapeChar | appv1.py:59 | a character other than the quote, the backslash and the ASCII controls is written as itself |
| Json.Escaped | appv1.py:59 | a string without those characters is written as itself |
| Json.UnescapeChar | appv1.py:59 | each escape sequence reads back as the character it stands for |
| Json.EscapedRoundTrip | appv1.py:59 | the escaped text of a string reads back as the string |
| Json.ReprString | appv1.py:59 | `repr()` of a string: between two quotes, an escaped text that reads back as the string |
| Json.ReprPlainString | appv1.py:59 | a plain word is just put in single quotes |
| Json.Repr | appv1.py:59 | `repr()` of a value: `None`, `True`/`False`, an integer's decimal digits, a string's quoted form, a list in brackets, a dict in braces |
| Json.Render | appv1.py:59 | `astype(str)`: a string cell is itself, any other cell its `repr()` |
| Json.RenderScalars | appv1.py:59 | the cells `42`, `-7` and `True` are written `"42"`, `"-7"` and `"True"` |
| Recipe.FirstList | appv1.py:105-107 | the first list-valued entry of the dict, or none has a list |
| Recipe.Unwrap | appv1.py:104-111 | a dict gives its first list, else itself wrapped in a list; any other value is kept |
| Recipe.GenerateRecipe | appv1.py:101-115 | None exactly for a failed call or decode or a `null` reply; otherwise the unwrapped reply, never a dict |
| Recipe.UnwrapIdempotent | appv1.py:104-111 | unwrapping twice is unwrapping once |
| Recipe.WrappedDictReadsTheSame | appv1.py:108-109 | a wrapped dict without lists extracts exactly as the dict itself |
| Text.Take | appv1.py:159 | `s[:n]` is a prefix of at most n items, and all of s when s is shorter |
| Text.Lower | appv1.py:54-55 | lower-casing maps each character and keeps the length |
| Text.Strip | appv1.py:138 | `strip()`: a slice without whitespace at either end, only whitespace around it |
| Text.StripIdempotent | appv1.py:138 | stripping twice is stripping once |
| Text.Erase | appv1.py:138 | `replace(p, "")` never lengthens, and text without p is unchanged |
| Text.EraseAtFirst | appv1.py:138 | the first occurrence of p is removed and the rest is erased in turn, the text before it kept |
| Text.EraseIsOnePass | appv1.py:138 | a single pass: `"rr//"` becomes `"r/"` |
| Text.Join | appv1.py:178 | joining one item gives that item, and the first item starts the result |
| Text.JoinPrefix | appv1.py:178 | joining a prefix of the list gives a prefix of the joined text |
| Text.JoinSnoc | production_bot.py:146 | one more item adds the separator and the item at the end |
| Text.NatToStringRoundTrip | production_bot.py:146 | the digits `NatToString` writes for a heat score read back as that number |
| Text.IntToString | production_bot.py:146 | `str()` of an integer: a leading minus exactly when it is negative, then decimal digits that read back as its absolute value |
| Posts.FetchListing | appv1.py:157-170 | `Fetch`: the loop sees at most `limit` posts, the prefix the service lists, and the error only when it came before the limit |
| Posts.Commented | appv1.py:158 | the comment filter never adds posts |
| Posts.CommentedMembers | appv1.py:158 | a post is kept exactly when it was listed and has more than the threshold of comments |
| Posts.CommentedAppend | appv1.py:157-160 | filtering distributes over concatenation, keeping listing order |
| Posts.CorpusIsPrefix | appv1.py:178 | the `Corpus` is a prefix of the joined text of all blocks, with min(count, cap) blocks |
| Posts.Synthesize | appv1.py:175-201 | nothing collected gives the no-data message and no model call; else the answer, or the failure text |
| Universal.Targets | appv1.py:131-133 | the singular column, falling back to the plural one when it is empty |
| Universal.CleanTarget | appv1.py:138 | a target without `r/` is only stripped |
| Universal.CleanPrefixed | appv1.py:138 | `r/` followed by a name without `r/` cleans to the name, stripped |
| Universal.UpperPrefixIsKept | appv1.py:138 | the match is case-sensitive: `R/x` is kept |
| Universal.CleanTargets | appv1.py:138 | the cleaned targets are exactly the cleaned non-empty inputs |
| Universal.ListOfSet | appv1.py:139 | deduplication: no repeats, same members, order left to the set |
| Universal.QueryFor | appv1.py:153 | for the i-th target in scanning order, the i-th keyword, else the first one, and the IndexError exactly when there are none |
| Universal.Blocks | appv1.py:157-160 | never more blocks than posts |
| Universal.BlocksOfCommented | appv1.py:157-160 | the `Block`s are those of the commented posts, in listing order |
| Universal.BlocksStep | appv1.py:157-160 | one more post adds its block exactly when it has a comment |
| Universal.Step | appv1.py:147-170 | a Found note counts the blocks found, which are some; a NoResults note has none |
| Universal.Notes | appv1.py:162-170 | one status line per target |
| Universal.NotesAt | appv1.py:162-170 | each status line is its own target's |
| Universal.Requests | appv1.py:147-156 | one search per target, none at all without keywords |
| Universal.RequestsAt | appv1.py:147-156 | the j-th search is target j's, with the j-th keyword or the first |
| Universal.ScanSplit | appv1.py:147-170 | `ScanRange`: the blocks of a scan split at any target |
| Universal.TargetAgrees | appv1.py:147-170 | a target other than the failing one scans the same way |
| Universal.ScanAgrees | appv1.py:147-170 | services agreeing off one subreddit collect the same blocks where it is absent |
| Universal.ScanAround | appv1.py:147-170 | blocks before target k, then k's own, then after |
| Universal.FailureIsIsolated | appv1.py:169-170 | whatever the search does for one target, the others contribute as before, the later ones included |
| Universal.PartialListingIsKept | appv1.py:156-170 | a search failing part way keeps the blocks listed before the error, with a failure note |
| Universal.NoKeywordsNoData | appv1.py:153 | with no keywords, every target fails with IndexError, no search is sent and nothing is collected |
| Universal.ScanTarget | appv1.py:148-170 | one loop pass appends the target's blocks and yields its note and search |
| Universal.ScanAll | appv1.py:147-170 | the loop collects the blocks, notes and searches of all targets in order |
| Universal.RunUniversalEngine | appv1.py:117-201 | a connection error comes first; no cleaned target gives the error with no search; otherwise the scan is synthesised with a cap of 40 |
| Engine.Query | app.py:101 | the shared query: the single keyword itself, or "" with none |
| Engine.Blocks | app.py:104-106 | never more blocks than posts |
| Engine.BlocksOfCommented | app.py:104-106 | the `Block`s are those of posts with more than two comments, in listing order |
| Engine.BlocksStep | app.py:104-106 | one more post adds its block exactly when it has more than two comments |
| Engine.Requests | app.py:95-104 | one search per target entry |
| Engine.RequestsAt | app.py:95-104 | the j-th search is entry j's, with the shared query |
| Engine.ScanSplit | app.py:95-110 | `ScanRange`: the blocks of a scan split at any target |
| Engine.DuplicateScannedTwice | app.py:95-106 | a target listed twice is searched twice, by two calls that need not agree, and the blocks of both are collected in order |
| Engine.ScanAgrees | app.py:95-110 | platforms agreeing on the calls of a range of entries collect the same blocks there |
| Engine.ScanAround | app.py:95-110 | blocks before entry k, then k's own (`Step`), then after |
| Engine.FailureIsIsolated | app.py:109-110 | whatever the call for entry k does, every other entry, a duplicate of it included, contributes as before, and the later ones are still scanned |
| Engine.ScanTarget | app.py:99-110 | one loop pass appends the target's blocks and yields its warning and search |
| Engine.ScanAll | app.py:95-110 | the loop collects the blocks, warnings (`Skipped`) and searches of all entries in order |
| Engine.RunUniversalEngine | app.py:74-147 | a connection error comes first; otherwise the scan is synthesised with a cap of 25 |
| Watchdog.Capture | production_bot.py:102-111 | heat is score plus comments; the body is at most the first 1000 characters |
| Watchdog.InsertOrIgnoreKeeps | production_bot.py:58-61 | `InsertOrIgnore`: an insert keeps ids unique, changes no stored row and adds exactly the new id |
| Watchdog.FirstSaveWins | production_bot.py:58-61 | two saves of one id leave one row, holding the first post's fields |
| Watchdog.SaveAllKeeps | production_bot.py:53-67 | a run of saves (`SaveAll` of `Save`) never alters or drops a stored row |
| Watchdog.SaveAllIds | production_bot.py:53-67 | an id is stored exactly when it was before or a post with it was written without error |
| Watchdog.NothingIsReported | production_bot.py:58-61 | saves never mark a row as reported |
| Watchdog.SaveAllAppend | production_bot.py:93-115 | saving two runs one after another is saving them joined |
| Watchdog.Recent | production_bot.py:75 | the window never has more rows than the table |
| Watchdog.RecentMembers | production_bot.py:75 | a row is in the window exactly when it is stored and captured after the cut-off |
| Watchdog.ByHeatOrdered | production_bot.py:75 | heat order holds between any two rows, not only neighbours |
| Watchdog.InsertByHeat | production_bot.py:75 | inserting a row adds exactly that row |
| Watchdog.InsertByHeatOrdered | production_bot.py:75 | inserting keeps heat order |
| Watchdog.SortByHeat | production_bot.py:75 | `ORDER BY heat_score DESC`: a permutation in heat order |
| Watchdog.WindowIsRecentRows | production_bot.py:74-75 | the `Window` holds exactly the rows of the last 24 hours, highest heat first |
| Watchdog.Captures | production_bot.py:99-111 | one captured post per listed post, in order |
| Watchdog.SaveStep | production_bot.py:99-115 | one more post saves its capture on top |
| Watchdog.HandedCount | production_bot.py:114-115 | of the posts `Handed` over, the count is the number of posts listed, new or not |
| Watchdog.HandedSplit | production_bot.py:93-119 | what is handed over splits at any subreddit |
| Watchdog.HandedAgrees | production_bot.py:93-119 | services agreeing off one subreddit hand over the same posts where it is absent |
| Watchdog.HandedAround | production_bot.py:93-119 | posts before subreddit k, then k's own, then after |
| Watchdog.FailureIsIsolated | production_bot.py:117-119 | a failing subreddit costs only its own posts; the later ones are still scanned |
| Watchdog.High | production_bot.py:140 | never more high rows than rows |
| Watchdog.Low | production_bot.py:142 | never more low rows than rows |
| Watchdog.HighLowMembers | production_bot.py:140-142 | high rows are the read rows with heat at least 2, and low rows those below |
| Watchdog.HighLowSplit | production_bot.py:140-142 | high and low rows together are the read rows |
| Watchdog.CombinedBounds | production_bot.py:140-144 | the `Combined` selection: all high rows come first, at most 20 more follow, none invented, none lost with 20 low rows or fewer |
| Watchdog.AllLow | production_bot.py:140-142 | heat-ordered rows starting below 2 are all low |
| Watchdog.ByHeatTail | production_bot.py:75 | the tail of a heat-ordered sequence is heat-ordered |
| Watchdog.SortedHighIsPrefix | production_bot.py:140-144 | on heat-ordered rows, the high part, then the low part, is the rows |
| Watchdog.SortedSelectionIsPrefix | production_bot.py:140-144 | the selection from the window is the window's first rows |
| Watchdog.Context | production_bot.py:146 | each context is at most the first 300 characters of the body |
| Watchdog.Entries | production_bot.py:146 | one `Entry` per selected row, in order: heat, subreddit, title and context |
| Watchdog.EntriesInOrder | production_bot.py:146 | entries are newline-joined in selection order |
| Watchdog.BlobStartsWithFirstEntry | production_bot.py:146 | the `Blob` starts with the first entry, and is it when only one row is selected |
| Watchdog.Report | production_bot.py:130-186 | no rows, no report; otherwise the answer is saved or the failure logged |
| Watchdog.Sent | production_bot.py:130-176 | the model gets a message exactly when there are rows, and the message is the blob itself |
| Watchdog.Store.constructor | production_bot.py:36-51 | `init_db` on a first start: an empty, well-formed table; a restart over an existing file, whose rows `CREATE TABLE IF NOT EXISTS` keeps, is any `Store` with `Valid()`, which is all the methods require |
| Watchdog.Store.SavePost | production_bot.py:53-67 | True exactly when the write did not raise, duplicate or not; the table is insert-or-ignore |
| Watchdog.Store.GetUnreportedData | production_bot.py:69-78 | the rows of the last 24 hours, each pair in heat order; it changes nothing |
| Watchdog.Store.ScanSubreddit | production_bot.py:94-119 | every listed post is captured, saved and counted, and the listing's error is returned |
| Watchdog.Store.ScanSubreddits | production_bot.py:93-119 | the loop hands over, counts and saves the posts of all subreddits, and logs each failure |
| Watchdog.Store.RunHourlyScan | production_bot.py:81-124 | a client error changes nothing; otherwise the strategy's subreddits are scanned in order |
| Watchdog.Store.GenerateDailyReport | production_bot.py:127-186 | an empty window returns early with no model call; otherwise the blob of the selection is sent |

## Left out

- Streamlit UI: widgets, status lines as screen output, progress bars, sleeps and session state are presentation, not logic. Status lines and warnings are returned as values.
- Credentials and the language model's prompts: they are prompt text, so the system prompts are not modelled. Only the user message sent (`RAW DATA:` plus the corpus, or the blob) is.
- `project_name` and `ai_instruction` of app.py go only into the system prompt: they are carried in `Engine.Plan` and not read.
- The platform and model clients: they are foreign code, so they are given functions. A listing consumed lazily is modelled as the posts listed before an exception.
- Creating the model client: `OpenAI(api_key=…)` runs before the `try` around the model call (production_bot.py:148, appv1.py:180, app.py:120), so with the key unset its exception leaves the run uncaught. The model takes every model client as created; a run ends in the no-data message, the answer or the caught failure.
- A target that cleans to the empty name (`" "` or `"r/"`) passes `if t` and the empty-list guard (appv1.py:137-141). The model sends its search with the empty subreddit name, where `reddit.subreddit("")` raises inside the `try` (appv1.py:150) before any request; the outcome the search service gives for that request stands for the error.
- Wall-clock time: a scan uses one timestamp for all its saves, whereas the source takes `datetime.now()` at each save. The window's cut-off is `now` minus 86400 seconds on integer seconds.
- SQLite: it is modelled as an in-memory map plus the insertion order. Among rows of equal heat the model keeps insertion order, an order SQLite does not promise.
- Logging, the report file written on success, and the scheduler loop at production_bot.py:188-212: these are I/O and wall-clock plumbing. A report run yields its outcome instead.
- Pandas corner cases: lists of lists or of mixed items, float promotion of an integer column that has missing cells (pandas writes `1.0` where the model writes `1`), and duplicate column names after lower-casing, where the model takes the first of equal names. Cells may hold any decoded value; a list or dict cell is written as its `repr()`.
- Lookup: a decoded object is taken as it is listed. `json.loads` keeps only the last value of a repeated key, at the key's first position; the model reads the first entry of a repeated key instead.
- Json.Repr: a non-ASCII character that Python does not count as printable (such as U+0085 or U+2028) is written as it is, where Python's `repr()` escapes it. JSON numbers with a fraction are not modelled; an `Int` is an integer.
- Universal.ListOfSet: the iteration order of a Python set is not fixed, so the method promises membership and no repeats, not an order.
- Text.Lower: it lower-cases ASCII letters only, not the full Unicode case mapping.
- A plan of `app.py` missing one of its keys: the plan is a typed record, so these paths are not modelled. Without `target_subreddits` the `KeyError` at app.py:93 leaves the app. Without `search_keywords` the `KeyError` at app.py:101 is raised inside the per-target `try`, so every target is skipped with a warning and the run ends with the no-data message. Without `project_name` or `ai_instruction` the `KeyError` at app.py:124-125 is raised only after some data was collected.
- `check_models.py`: it only lists the models of a remote service.
- The `generate_recipe` call and `json.loads` are not modelled: their failure is the `None` input of `Recipe.GenerateRecipe`.
