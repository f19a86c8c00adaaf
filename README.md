# Session chunk store and request builders of the AI code analyzer

The analyzer is a small Flask service (`app.py`). A client uploads images of code in pieces; the service reads the text with OCR and appends it to a per-session list
kept in the process-wide dictionary `code_storage`. The client then asks for the merged code,
which is the session's chunks joined with newlines in arrival order, or resets the session.
The other endpoints build a prompt around submitted code and pass it to a language model,
or answer with a fixed "compile" message that reports the code's length.

This project models that logic in Dafny:

- `sessions.dfy` (module `Sessions`) holds the store. The class `SessionStore` keeps the
  dictionary as a `map<string, seq<string>>` field. Its methods `UploadChunk`,
  `GetMergedCode` and `ResetSession` are proved against the functions `AfterUpload`,
  `MergeOf` and `AfterReset` on tables. The lemmas beside them state what a sequence of
  calls does: resets are idempotent, a merge after a reset is not found, and uploads then a
  merge give the newline-joined chunks. The invariant `NoEmptySession` (no stored list is
  empty) holds because a session is only created by an upload, which appends at once.
- `text.dfy` (module `Text`) holds Python's `str.splitlines`, used to count the lines of an
  upload, with the full set of line-break characters and `"\r\n"` as one terminator. It also
  holds `"\n".join` and `str.split("\n")`, with the round trips between them.
- `prompts.dfy` (module `Prompts`) holds the four prompt f-strings and the compile stub.
- `decimal.dfy` (module `Decimal`) holds `str(n)` for a natural number and its inverse. It
  is used to state that the compile message reports the length exactly.
- `request.dfy` (module `Request`) holds a JSON body field read with `request.json.get`. Such
  a field is either absent (`None`) or a string. Python renders an absent field in an f-string
  as `"None"`, and `len(None)` raises.

The service's behaviour for absent fields is modelled as the code has it:

- A prompt built without code contains the text `None`.
- `/compile` without code raises a `TypeError` inside `len`. The model keeps the exception's text in `Error`, but the view does not catch it: the client receives Flask's generic 500 page, not that text.
- A merge without a session id is "not found".
- A reset without a session id changes nothing and still reports success.

Merge tests only whether the key is present (app.py:38). A present session always holds at
least one chunk, so "not found" also means "no chunks stored". A present session can still
merge to the empty string, when its only chunk is empty text.

## Model

| member | source | states |
|---|---|---|
| `Sessions.AfterUpload` | app.py:27-29 | the session's list becomes its old list (or the empty list when absent) with the text appended last; the key set grows only by the id; every other session is unchanged; no stored list becomes empty |
| `Sessions.AfterReset` | app.py:46-47 | the id is removed from the key set; every other entry is unchanged; resetting an absent id leaves the table as it was |
| `Sessions.MergeOf` | app.py:38-40 | a merge finds code exactly when the session id is present |
| `Sessions.ResetIdempotent` | app.py:46-47 | resetting a session twice equals resetting it once |
| `Sessions.MergeAfterReset` | app.py:38-47 | a merge right after a reset of the same id is not found |
| `Sessions.MergeAfterUpload` | app.py:27-40 | after one more upload, the merge is the previous merge, a newline and the new chunk, or the chunk alone for a new session |
| `Sessions.MergeSplits` | app.py:40 | when no chunk contains a newline, splitting the merged code on newlines gives back the stored list |
| `Sessions.AfterUploadsAppends` | app.py:27-29 | a series of uploads appends the texts in order to the session's list and leaves other sessions untouched |
| `Sessions.UploadsThenMerge` | app.py:27-47 | uploading c1..cn into a fresh or reset session and merging gives c1 + "\n" + ... + "\n" + cn; with no upload, the merge is not found |
| `Sessions.SessionStore.constructor` | app.py:13 | the store starts empty |
| `Sessions.SessionStore.UploadChunk` | app.py:27-31 | the table becomes `AfterUpload` of the old one; the reply is "chunk received" with the text's `splitlines` line count; the invariant is kept |
| `Sessions.SessionStore.GetMergedCode` | app.py:37-41 | the reply is `MergeOf` the current table (not found when the id is absent or missing) and the merged code is the newline-join of the stored chunks; the store is not modified |
| `Sessions.SessionStore.ResetSession` | app.py:45-48 | the table becomes `AfterReset` of the old one (unchanged for a missing id); the status is always "session reset" |
| `Text.SplitLines` | app.py:31 | `splitlines`, whose length `LineCount` is the count an upload reports: every line is free of line breaks; the number of lines is 0 exactly for the empty text and never exceeds the text's length; a non-empty text without a line break is one line |
| `Text.LineCountByTerminators` | app.py:31 | the line count equals the number of terminators ("\r\n" counted once), plus one when the text is not empty and does not end in a line break |
| `Text.SplitLinesOfJoin` | app.py:31 | `splitlines` of newline-joined chunks without line breaks, whose last chunk is not empty, gives back the chunks |
| `Text.JoinAppend` | app.py:40 | joining one more chunk extends the joined text by a newline and that chunk |
| `Text.JoinSplit` | app.py:40 | joining the pieces of a newline split gives the original text |
| `Text.SplitJoin` | app.py:40 | splitting the join of a non-empty list of newline-free chunks gives back the list |
| `Prompts.Prefixed` | app.py:53-73 | the explain, debug and heatmap prompts (`ExplainPrompt`, `DebugPrompt`, `HeatmapPrompt`, app.py:53, 63, 73) are their fixed instruction followed by the submitted code verbatim (`None` when absent) |
| `Prompts.PrefixedInjective` | app.py:53-73 | two prompts of one endpoint are equal only for the same code |
| `Prompts.AskPrompt` | app.py:84 | the ask prompt is the fixed head, the code, the fixed middle and the question, so the code comes before the question |
| `Prompts.PromptsDistinct` | app.py:53-84 | no prompt of one endpoint equals a prompt of another, for any code and question (a consequence of the four fixed texts, not a promise the service makes) |
| `Prompts.Compile` | app.py:92-94 | with code, the output is the fixed head, a decimal numeral whose value is exactly the code's length, and the fixed tail; the numeral has no leading zero, as `str()` writes it; without code, it is the `len(None)` exception (its text never reaches the client) |
| `Decimal.Digits` | app.py:94 | the rendered length is a non-empty string of digits without a leading zero |
| `Decimal.ValueOfDigits` | app.py:94 | reading the rendered numeral back gives the number |

## Left out

- HTTP routing, request parsing, JSON replies and status codes (app.py:1, 12, 15-17, 96-98). The 404 of merge is the `NoCodeFound` variant, and the 500 of compile is the `Error` variant.
- OCR (`Image.open`, `pytesseract.image_to_string`, app.py:22-25) is outside the model. `UploadChunk` takes the extracted text as a parameter. The 500 replies caused by a missing image or form field, or by an OCR failure, are not modelled.
- The language-model call (`model.generate_content`, app.py:9-10, 55, 65, 75, 86) and its 500 error wrappers are outside the model. Its reply is passed through unchanged, so only the prompt is modelled.
- JSON fields that hold something other than a string or nothing (numbers, lists) are not modelled. Python would format them with `str()` and measure them with `len()`.
- A request without a JSON body (`request.json` is `None`) is not modelled.
- Concurrent requests racing on `code_storage` are not modelled. The store is modelled sequentially.
- Environment and port configuration (app.py:9, 97) are not modelled.
- The liveness route `/` (app.py:15-17) only returns a constant string.
- Python strings may hold lone surrogate code points. Dafny's `char` cannot, so lengths are counted over Unicode scalar values.
