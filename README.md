# AI Chat Organizer: a verified model of the extraction pipeline

The AI Chat Organizer is a small web app (`app.py`). The user pastes one AI chat
transcript, or many separated by a line of five dashes. The app sends each transcript to
an inference capability with a fixed pair of instructions. It validates and normalises
the JSON object that comes back: title, summary, tags, bullets and action items. It turns
the result into a flat row and keeps the rows in a session history that can be exported
as a table.

This Dafny project models the pipeline behind the buttons and proves what it does. The
modules follow the pipeline in `app.py`. `Wrappers` and `PyStr` supply the result types
and the Python string operations it relies on.

- `PyStr`: the parts of Python's `str` the pipeline relies on.
  - `strip()` with Python's full whitespace set.
  - `split(sep)`: leftmost, non-overlapping occurrences.
  - `sep.join(items)`, the substring test, and `str(n)`.
- `Json`: the parsed response as an RFC 8259 value, plus the Python operations applied to
  it.
  - `k in v`, including the `TypeError` raised on None, a bool or a number.
  - `d.get(k, default)`.
  - `d[k] = v`: an existing key keeps its place, a new key goes to the end.
  - `list(v)`: a str gives its characters, a list its elements, a dict its keys; None, a
    bool or a number raise `TypeError`.
- `Splitter`: `split_by_delimiter`.
- `Prompt`: the constant prompts and the substitution of the trimmed transcript into the
  user template.
- `Extraction`: `ensure_openai_client` and `process_chat`. The capability is a function
  parameter (the *oracle*). It maps a request to the parsed JSON value, or to the message
  of the exception the call or `json.loads` raised.
  - `Validate` and `Extract` define the result.
  - The method `ProcessChat` keeps the source's shape: the key loop with its early exit,
    then the three in-place coercions. It is proved equal to `Extract`.
  - Every exception inside the `try` becomes `Failure(str(e))`. The message texts are
    Python's own.
- `Projector`: `to_row`, the 500-character snippet, the three joins, and the column order
  of the exported table.
- `Session`: the history (`st.session_state["history"]`) as the class `History`, and the
  two buttons.
  - `SingleRun` and `BatchRun` are the specifications.
  - `History.ProcessOne` appends the one row `to_row` built, and nothing after a blank
    paste, a failed key check or a raising `to_row`. `History.ProcessBatch` extends the
    history once, after the loop, and only when the loop completed.
  - The loop itself is the method `ProcessParts`.
  - Both methods also return the requests they sent, in order.
  - The SDK's presence, the key typed in, today's date and the oracle are parameters.

## Behaviour worth knowing

These are consequences of what `app.py` does that a reader of the prompts or the button
labels might not expect. The cited lemmas state each one.

- A list field holding `null`, a bool or a number is not treated as absent. `data.get`
  returns the `null`, `list(None)` raises inside the `try` at app.py:71-73, and the result
  is a `Failure`
  (`Extraction.ValidateNotIterable`).
- A list field holding an item that is not a str (for example `"tags": [1]`) passes
  validation. The join in `to_row` (app.py:93-95) then raises, outside `process_chat`'s
  `try`:
  - A single run shows the error and appends nothing.
  - A batch aborts at that part. No row of that batch is appended, and the parts after it
    are not processed (`Session.PartRowRaisesIff`, `Session.BatchAllOrNothing`,
    `Session.ProcessParts`).
- A single run whose extraction failed does append the degraded row. It then shows
  `result["summary"]`, which a failure does not have, so the user sees the `KeyError`
  text `'summary'` and not the failure message (`Session.SingleFailureAppends`).
- A successful response that happens to carry an `error` key is projected as a failed
  row (`Projector.ToRowErrorKey`).
- A paste that is not blank but holds no chat between the delimiters raises no error
  (app.py:146-161). It still checks the key, then completes with no rows
  (`Session.EmptyBatchCompletes`).

## Model

| member | source | states |
|---|---|---|
| PyStr.IsSpace | app.py:100 | definition of `str.isspace()` for one character: the characters Python 3 treats as whitespace (ASCII controls 9-13 and 28-31, space, U+0085, U+00A0, U+1680, U+2000-U+200A, U+2028, U+2029, U+202F, U+205F, U+3000) |
| PyStr.Strip | app.py:100 | `strip()` leaves neither end of the result whitespace |
| PyStr.StripIsInfix | app.py:100 | the input is whitespace, then the stripped text verbatim, then whitespace |
| PyStr.StripTrimmed | app.py:100 | a string with no whitespace at either end is its own `strip()` |
| PyStr.StripIdempotent | app.py:100 | stripping twice is stripping once |
| PyStr.StripEmptyIff | app.py:122 | `not s.strip()` holds exactly when every character of `s` is whitespace |
| PyStr.LeadingSpace | app.py:100 | the leading run of whitespace is maximal |
| PyStr.TrailingSpace | app.py:100 | the trailing run of whitespace is maximal |
| PyStr.Split | app.py:100 | `split` always gives at least one piece |
| PyStr.SplitJoin | app.py:100 | splitting the join of pieces a split can produce gives those pieces back |
| PyStr.JoinSplit | app.py:100 | joining the pieces of a split with the separator rebuilds the text, and the pieces are the ones a split can produce |
| PyStr.SplitAfterCut | app.py:100 | the first occurrence of the separator ends the first piece |
| PyStr.SplitFree | app.py:100 | a text without the separator is one piece |
| PyStr.Join | app.py:93-95 | definition of `sep.join(items)`: the items in order with `sep` between neighbours; `PyStr.SplitJoin` and `PyStr.JoinSplit` prove it undoes `split` |
| PyStr.IsSubstring | app.py:68 | definition of `k in s` for two strings: `k` occurs at some position of `s` |
| PyStr.NatToString | app.py:93-95 | `str(i)` of an index is a non-empty string of decimal digits (that they spell `i` is `PyStr.NatToStringValue`) |
| PyStr.NatToStringValue | app.py:93-95 | `str(n)` spells `n` in decimal digits and has no leading zero unless `n` is zero |
| Json.TypeName | app.py:68-76 | definition of `type(v).__name__` for a parsed value, as the error messages print it: `NoneType`, `bool`, `int` or `float` after the number's literal, `str`, `list`, `dict` |
| Json.Lookup | app.py:83 | `d[k]` finds a value exactly when the key is present |
| Json.GetOr | app.py:71-73 | definition of `d.get(k, default)`: the value of `k` when present, else `default`; `to_row` uses it the same way at lines 91-95 |
| Json.Keys | app.py:80-97 | the keys of a dict, in insertion order |
| Json.Put | app.py:71-73 | definition of `d[k] = v`; `Json.PutLookup`, `Json.PutKeys`, `Json.PutExisting` and `Json.PutAbsent` state what it does |
| Json.PutLookup | app.py:71-73 | after `d[k] = v`, `d[k]` is `v` and every other key reads as before |
| Json.PutKeys | app.py:71-73 | `d[k] = v` keeps an existing key in place and appends a new key |
| Json.PutOtherKey | app.py:71-73 | `d[k] = v` neither adds nor removes any other key |
| Json.PutExisting | app.py:71-72 | assigning to a present key replaces its item in place |
| Json.PutAbsent | app.py:73 | assigning to an absent key appends an item |
| Json.LookupAt | app.py:71-73 | the item with a key is the one `d[k]` finds |
| Json.Contains | app.py:68 | `key in v` raises exactly on None, bools and numbers, and on a dict tests its keys |
| Json.ListOf | app.py:71-73 | `list(v)` raises exactly on None, bools and numbers, with Python's message; a list is kept as it is, a str gives its one-character strings in order, a dict its keys in insertion order |
| Splitter.DefaultDelimiter | app.py:99 | the delimiter is a newline, five dashes and a newline |
| Splitter.StripAll | app.py:100 | each segment is replaced by its `strip()`, one for one |
| Splitter.KeepNonEmpty | app.py:101 | the kept segments are non-empty and come from the input |
| Splitter.SplitByDelimiter | app.py:99-101 | every transcript returned is non-empty and equal to its own `strip()` |
| Splitter.SplitByDelimiterKeepsOrder | app.py:99-101 | the transcripts are the trimmed segments of `text.split(delimiter)` in their original order, one for each segment that is not blank |
| Splitter.KeepNonEmptyOrder | app.py:100-101 | filtering the trimmed segments keeps their order and exactly the non-blank ones |
| Splitter.SplitExample | app.py:99-101 | `"Chat A text\n-----\n\n-----\nChat B text"` gives exactly the two chats |
| Splitter.TwoChatsAroundBlank | app.py:99-101 | two single-line trimmed chats around an empty one give exactly the two chats |
| Splitter.KeepTrimmedChats | app.py:100-101 | an empty middle segment is dropped and trimmed chats are kept |
| Prompt.SystemPrompt | app.py:18-28 | `DEFAULT_SYSTEM`, character for character |
| Prompt.TemplateHead | app.py:30-33 | the text of `DEFAULT_USER_INSTRUCTION` before its `{chat}` field, including the newline that ends its line |
| Prompt.TemplateTail | app.py:34-36 | the text of `DEFAULT_USER_INSTRUCTION` after its `{chat}` field |
| Prompt.Compose | app.py:62-63 | definition of the two prompts for a transcript; `Prompt.ComposeLayout`, `Prompt.TranscriptRecovered` and `Prompt.ComposeSameIff` state what they contain |
| Prompt.ComposeLayout | app.py:62-63 | the system prompt is always `DEFAULT_SYSTEM`; the user prompt is the fixed head, `chat.strip()` verbatim, then the fixed tail |
| Prompt.EmbeddedTranscript | app.py:30-36 | a transcript read back from a user prompt rebuilds that prompt when put back in the template |
| Prompt.TranscriptRecovered | app.py:63 | the trimmed transcript can be read back from the composed prompt |
| Prompt.ComposeSameIff | app.py:62-63 | two transcripts give the same request exactly when they are equal after `strip()` |
| Extraction.EnsureClient | app.py:38-44 | a client is made exactly when the SDK is present and the key is non-empty; otherwise the SDK message, then the missing-key message |
| Extraction.ProcessChat | app.py:61-76 | the key loop with early exit and the in-place coercions give exactly `Extract(chat, oracle)` |
| Extraction.Extract | app.py:61-76 | definition of `process_chat`'s result: the exception from the call becomes a failure carrying its message, a parsed value goes to `Validate`; `Extraction.ProcessChat` is proved equal to it |
| Extraction.Validate | app.py:66-76 | definition of the `try` body after the call: the key loop, then `data.get` (which fails on a non-dict), then the coercions; `Extraction.ValidateSuccessIff` and `Extraction.ValidateSuccessContents` state its outcome |
| Extraction.CheckKeys | app.py:67-69 | definition of the key loop: the first exception it raises, or none |
| Extraction.CheckKeysFirstMissing | app.py:67-69 | on a dict the key loop fails naming the first absent key, in order |
| Extraction.CheckKeysPassIff | app.py:67-69 | on a dict the key loop passes exactly when every key is present |
| Extraction.ValidateMissingKey | app.py:64-76 | with any of title, summary, tags, bullets absent the result is `Failure("Missing key in JSON: " + k)` for the first absent `k` |
| Extraction.ValidateNotContainer | app.py:64-76 | a parsed None, bool or number fails with the `in` TypeError message |
| Extraction.ValidateNotDict | app.py:64-76 | a parsed str or list that passes the key loop fails on `.get` |
| Extraction.Coerced | app.py:71-73 | definition of `list(d.get(key, []))` |
| Extraction.Coerce | app.py:71-73 | definition of the three assignments in order, the first raising `list(...)` ending the run; `Extraction.CoerceOkIff`, `Extraction.CoerceOkValues` and `Extraction.CoerceKeys` state its effect |
| Extraction.CoerceStep | app.py:71-73 | after one coercion the remaining keys read as before |
| Extraction.CoerceOkIff | app.py:71-73 | the coercions succeed exactly when each `list(...)` succeeds |
| Extraction.CoerceOkValues | app.py:71-73 | after the coercions each list key holds `list` of its old value and every other key is unchanged |
| Extraction.CoerceFirstError | app.py:71-76 | the first `list(...)` that raises decides the failure message |
| Extraction.CoerceKeys | app.py:71-73 | the coercions keep every key in place and append the absent ones in coercion order |
| Extraction.MissingSame | app.py:71-73 | which keys are absent depends only on which keys are present |
| Extraction.ValidateSuccessIff | app.py:64-76 | success exactly when the value is a dict with the four keys whose list fields can be listed |
| Extraction.ValidateSuccessContents | app.py:71-74 | on success the three list fields are lists of their old values, an absent `action_items` is `[]`, and other keys pass through |
| Extraction.ValidateSuccessKeys | app.py:71-74 | on success the keys keep their order, with `action_items` appended when it was absent |
| Extraction.ValidateNotIterable | app.py:71-76 | a list field holding None, a bool or a number fails with `'T' object is not iterable`, for the first such field |
| Extraction.ExtractRaised | app.py:64-76 | an exception from the call becomes a failure carrying its message |
| Extraction.ValidateExample | app.py:64-76 | `{"title":"T","summary":"S","tags":"x","bullets":["b1"]}` gives `tags` `["x"]` and an empty `action_items` |
| Extraction.ValidateFourKeys | app.py:64-76 | a dict of exactly the four required keys validates to those keys with listed values and `action_items` appended |
| Extraction.CoerceFourKeys | app.py:71-73 | coercing such a dict replaces tags and bullets in place and appends `action_items` |
| Extraction.CoerceTagsStep | app.py:71 | the tags coercion replaces the tags item in place |
| Extraction.CoerceBulletsStep | app.py:72 | the bullets coercion replaces the bullets item in place |
| Extraction.CoerceActionStep | app.py:73 | an absent `action_items` is appended as `[]` |
| Projector.Snippet | app.py:87 | at most 503 characters; the chat itself when it has at most 500; otherwise its first 500 characters followed by `...` |
| Projector.FirstNonStr | app.py:93-95 | the first item that is not a str, with every earlier item a str |
| Projector.Strs | app.py:93-95 | the strs of a list of strs, one for one |
| Projector.JoinJson | app.py:93-95 | joining a list succeeds exactly when all items are strs; otherwise the message names the first offending index and type |
| Projector.IsErrorResult | app.py:79 | definition of `"error" in result`: a failure, or a success whose dict has an `error` key |
| Projector.ErrorValue | app.py:83 | definition of `result["error"]`: the failure's message, or the value of the `error` key |
| Projector.ToRow | app.py:78-97 | an error result always gives a row; every row carries the given date and the snippet of the chat |
| Projector.ToRowFailure | app.py:79-88 | a failure gives an empty title and list columns and the message verbatim as summary |
| Projector.ToRowSuccess | app.py:89-97 | a success with str lists gives title and summary as extracted and tags, bullets, action items joined with a comma, a bullet and a vertical bar (each with spaces) |
| Projector.ToRowRaisesIff | app.py:93-95 | after validation, building the row raises exactly when a list field holds a non-str item |
| Projector.ToRowErrorKey | app.py:79-88 | a success carrying an `error` key gives a failed row with that value as summary |
| Projector.TagsColumnSplitsBack | app.py:93 | the tags column splits back into the tags when no tag hides the separator |
| Projector.Items | app.py:89-97 | every row has the keys date, title, summary, tags, bullets, action_items, chat_snippet in that order |
| Projector.RowDicts | app.py:168 | one dict per history row, each with exactly the seven columns as keys, in `to_row`'s order |
| Projector.AddColumns | app.py:168 | definition of how pandas collects columns: a key not yet seen is appended |
| Projector.FrameColumns | app.py:168 | definition of the columns of `pd.DataFrame(list_of_dicts)`: every key, in first-seen order; `Projector.ExportColumns` states its value for a history |
| Projector.AddPresentColumns | app.py:168 | keys already seen add no column |
| Projector.AddNewColumns | app.py:168 | new distinct keys add columns in their order |
| Projector.ExportColumns | app.py:168 | the exported table has exactly the seven columns in `to_row`'s order, or none when the history is empty |
| Session.Display | app.py:131-135 | definition of the single-chat view after the append: the result itself, or `result["summary"]` when `"error" in result`, which for a failure is the `KeyError` text `'summary'` (`Session.SingleFailureAppends`) |
| Session.SingleRun | app.py:121-137 | definition of the "Process This Chat" button: warning on a blank paste, then the key check, `process_chat`, `to_row`, the append and the view; `Session.History.ProcessOne` is proved to follow it |
| Session.BatchRun | app.py:145-163 | definition of the "Process All Chats in Batch" button: warning on a blank paste, then the split, the key check and the loop; `Session.History.ProcessBatch` is proved to follow it |
| Session.PartRow | app.py:156-157 | definition of one part's row: `to_row` of `process_chat` of the part |
| Session.Collect | app.py:154-160 | definition of the loop's outcome over per-part rows: all rows in order, or the first exception; `Session.CollectOk` and `Session.CollectFirstError` state it |
| Session.ProjectAll | app.py:154-160 | definition of the batch loop's outcome for the parts; `Session.ProjectAllOk` and `Session.BatchAllOrNothing` state it |
| Session.Requests | app.py:155-156 | one request per part, in order, each the composition of that part |
| Session.ProcessParts | app.py:154-160 | the batch loop gives the rows of all parts in order or the first exception; it sends one request per processed part, in order, and stops right after the first part whose row cannot be built |
| Session.ProcessPart | app.py:156-157 | one iteration of the batch loop builds exactly the row (or the exception) that `process_chat` followed by `to_row` gives for that part |
| Session.History.constructor | app.py:114-115 | the history starts empty |
| Session.History.ExportColumns | app.py:168 | the export has no columns for an empty history and the seven row columns otherwise |
| Session.History.IsEmpty | app.py:168-169 | the export is empty exactly when nothing has been processed |
| Session.History.ProcessOne | app.py:121-137 | shows what `SingleRun` shows and appends exactly its rows; sends nothing on a blank paste or a failed key check, and the composed request otherwise |
| Session.History.ProcessBatch | app.py:145-163 | ends as `BatchRun` says; the history grows at the end by the batch's rows when it completes and is unchanged otherwise; the requests sent are those of a prefix of the parts |
| Session.CollectStops | app.py:154-163 | once a prefix of the batch has failed, the whole batch fails with the same message |
| Session.CollectOk | app.py:154-160 | the batch yields rows exactly when every part does, one row per part, in order |
| Session.CollectFirstError | app.py:154-163 | a failed batch reports the exception of its first failing part |
| Session.ProjectAllOk | app.py:154-160 | the same for the parts of a batch and the rows they project to |
| Session.PartRowRaisesIff | app.py:156-157 | a part's row cannot be built exactly when its extraction succeeded without an `error` key and a list field holds a non-str item |
| Session.MissingKeyStopsBoth | app.py:38-44 | with an empty key both buttons show `Missing OpenAI API key.` and change nothing |
| Session.SingleFailureAppends | app.py:125-132 | a failed extraction still appends exactly the degraded row, and the view shows the `'summary'` KeyError |
| Session.SingleSuccessAppends | app.py:125-135 | a successful extraction with str lists appends its row and shows the result |
| Session.BatchAllOrNothing | app.py:149-163 | a batch completes exactly when every part's row can be built, and then holds one row per non-blank part, in order |
| Session.EmptyBatchCompletes | app.py:146-160 | a non-blank paste with no chats still checks the key, then completes with no rows |

## Left out

- The Streamlit interface is left out: page setup, tabs, widgets, headings, the "Found N
  chats" and success messages, and the progress bar's fraction. What each button shows is
  kept only as far as `Shown` and `BatchOutcome` record it.
- The OpenAI SDK call and its fixed configuration (model, temperature, token limit,
  response format), client construction and `json.loads` are the oracle. The oracle is a
  function, so it gives the same answer every time it gets the same request. A real
  capability may answer a repeated transcript differently.
- `HAS_OAI` is a boolean parameter. The import that sets it is not modelled.
- Setting `os.environ["OPENAI_API_KEY"]` is left out, because it is a side effect on the
  process environment.
- `time.strftime("%Y-%m-%d")` is a `date` parameter. All rows of one batch carry the same
  date, whereas the real clock can pass midnight during a batch.
- The pandas DataFrame, `to_csv` quoting and UTF-8 encoding are left out, because they are
  a foreign library. Only the column order the table takes from `to_row` is modelled
  (`Projector.ExportColumns`).
- JSON numbers keep their literal text. Only whether Python sees an `int` or a `float`
  matters here (it appears in error messages), so their values are not interpreted.
- A parsed object is assumed to have distinct keys, as a Python dict has. `json.loads`
  resolves a duplicated key to its last value, and the model does not.
- Exceptions that no input of this pipeline provokes (memory exhaustion, interruption)
  are not modelled.
- The exception messages copy CPython 3's wording up to 3.13 (for example `argument of
  type 'NoneType' is not iterable` and `sequence item 0: expected str instance, int
  found`). Other CPython releases word some of these messages differently, and the model
  fixes one wording.
- Splitter.SplitByDelimiter: requires a non-empty delimiter, so the `ValueError` that
  `str.split` raises for an empty separator is not modelled. The only call (app.py:149)
  passes the default delimiter, which is not empty. `PyStr.Split` has the same
  precondition.
- Lone surrogates are not modelled. `json.loads` can return a str holding an unpaired
  surrogate escape such as `"\ud800"`, and a Dafny `char` cannot hold one.
