# Document question-answering assistant: session, RAG helpers, upload rules, `.env` loader

This Dafny project models the parts of the assistant that hold real logic
and proves properties about them:

- **The query page's session controller** (`query_session.dfy`, module
  `QuerySession`). It covers the document list and the selection of source
  documents, the conversation log, the loading state with its rotating
  progress message, the dialogs, and the handlers that change them: fetch,
  delete, select, select-all, submit, execute, clear, feedback and batch
  upload. `Session` is a class whose fields are the page state and the
  shared application context. Each handler is one method that updates
  those fields in place. Network results are parameters. The interval
  timer is an "active" flag plus a rotation index. A ghost call log
  records the backend calls in order.
- **The answer generator's deterministic helpers** (`speculative_rag.dfy`,
  module `SpeculativeRag`). This covers query expansion, top-8 chunk
  re-ranking by a stable descending sort (`stable_sort.dfy`), source
  extraction with 200-character previews, the extractive fallback answer,
  the no-documents answer, and the choice between the model's answer and
  the fallback.
- **The document endpoints** (`document_api.dfy`, module `DocumentApi`).
  This covers upload filename sanitising and validation, and a
  `DocumentStore` class whose fields are the `documents` and `feedback`
  tables and the set of documents that chunk rows still refer to. On them
  the model covers delete, with its 404 and its foreign-key failure, and
  the feedback upsert.
- **The `.env` loader** (`env_loader.dfy`, module `EnvLoader`). The loader
  parses `KEY=VALUE` lines into the process environment without
  overriding anything. `Environment` is a class over the variable map.
  `LoadEnv` loops over the lines.

`text.dfy` holds the string helpers: Python `strip()`, JavaScript `trim()`,
prefixes, splitting and joining, ASCII lower-casing and decimal rendering.
`wrappers.dfy` holds `Option` and `Result`.

Where the code behaves differently from what one might expect, the model
follows the code:

- A failed document fetch empties the list but does not mark the documents
  as loaded (`ui/src/pages/QueryInterface.js:149-151`).
- Toggling selects an id even if no listed document has it (183-189). The
  selection is therefore not kept inside the document ids.
- Select-all compares the selection's length with the list's length, not
  the two sets (192). `QuerySession.StaleSelectionClears` shows a stale
  selection that makes select-all clear instead of selecting.
- A successful delete removes the id from the selection and then reloads
  the list (168-169). The list itself is only replaced by that reload.
- "Continue without sources" runs the query without re-checking the
  submit gate (278-281).
- Deleting a document does not cascade. The comment at
  `backend/app/main.py:107` says it does, but the `chunks` and
  `holographic_storage` tables reference `documents` without
  `ON DELETE CASCADE` (`backend/app/core/database.py:38,50`). The `DELETE`
  of a document that still has chunks therefore fails with a 500 and
  removes nothing.

## Model

| member | source | states |
|---|---|---|
| EnvLoader.Environment.LoadEnv | backend/verify_neo4j_connect.py:6-23 | a missing file leaves the environment unchanged; otherwise the new environment is the old one with the file's parsed lines applied in order |
| EnvLoader.SkippedLines | backend/verify_neo4j_connect.py:11-15 | a line is skipped (yields no entry) exactly when, once stripped, it is empty, starts with `#`, or has no `=` |
| EnvLoader.SplitsAtFirstEquals | backend/verify_neo4j_connect.py:14-18 | the line splits at its first `=`; key and value are the stripped text before and after it, so the value may contain `=` |
| EnvLoader.ParsedKeyIsClean | backend/verify_neo4j_connect.py:16-17 | a parsed key contains no `=` and is already stripped |
| EnvLoader.Unquote | backend/verify_neo4j_connect.py:19-20 | a value of two or more characters with matching quotes at both ends is exactly its first character, the result, and its last character; a lone quote gives `""`; any other value is kept |
| EnvLoader.CleanLineParses | backend/verify_neo4j_connect.py:16-20 | `k=q` with nothing to strip parses to key `k` and value `q` unquoted |
| EnvLoader.QuotedRoundTrip | backend/verify_neo4j_connect.py:16-20 | `k="v"` gives back exactly `v`, whatever `v` contains |
| EnvLoader.SingleQuotedRoundTrip | backend/verify_neo4j_connect.py:16-20 | `k='v'` gives back exactly `v`, whatever `v` contains |
| EnvLoader.MismatchedQuotesKept | backend/verify_neo4j_connect.py:19-20 | a value opened with `"` and closed with `'` is kept as written |
| EnvLoader.LoadedKeepsExisting | backend/verify_neo4j_connect.py:21-23 | a variable already set keeps its value |
| EnvLoader.LoadedKeys | backend/verify_neo4j_connect.py:10-23 | the keys afterwards are the old keys plus the keys of the parsed lines, and nothing else |
| EnvLoader.FirstOccurrenceWins | backend/verify_neo4j_connect.py:21-23 | for a key not set before, the first line defining it decides its value |
| StableSort.SortDescPermutes | backend/app/services/gemini_speculative_rag.py:110 | the descending sort is a permutation of its input |
| StableSort.SortDescSorted | backend/app/services/gemini_speculative_rag.py:110 | the sorted keys never increase |
| StableSort.SortDescStable | backend/app/services/gemini_speculative_rag.py:110 | elements with equal keys keep their input order |
| StableSort.WithKeyOfPrefix | backend/app/services/gemini_speculative_rag.py:111 | cutting a sequence keeps, for every key, a prefix of that key's elements |
| SpeculativeRag.ExpandQuery | backend/app/services/gemini_speculative_rag.py:35-55 | the original query comes first and at most two alternatives follow; unavailable service or failed call gives `[query]` |
| SpeculativeRag.ExpandedQueriesAreAlternatives | backend/app/services/gemini_speculative_rag.py:52-53 | the k-th added query is the reply's k-th alternative |
| SpeculativeRag.AlternativesAreStrippedLines | backend/app/services/gemini_speculative_rag.py:52 | every alternative is a stripped line of the stripped reply |
| SpeculativeRag.AlternativesAreLong | backend/app/services/gemini_speculative_rag.py:52 | every alternative is longer than ten characters |
| SpeculativeRag.KeepLongMembers | backend/app/services/gemini_speculative_rag.py:52 | a line is kept exactly when it is longer than ten characters |
| SpeculativeRag.KeepLongConcat | backend/app/services/gemini_speculative_rag.py:52 | the filter keeps the lines in their order |
| SpeculativeRag.TwoCleanLines | backend/app/services/gemini_speculative_rag.py:52-53 | a reply of two long lines with nothing to strip yields exactly those two alternatives |
| SpeculativeRag.SelectBestChunks | backend/app/services/gemini_speculative_rag.py:86-111 | at most eight chunks come back unchanged; otherwise the first eight of the stable descending sort by the score table |
| SpeculativeRag.ScoreTableKeys | backend/app/services/gemini_speculative_rag.py:92-107 | the score table holds exactly the chunk ids, so the sort's default of 0 is never used |
| SpeculativeRag.ScoreTableLastWins | backend/app/services/gemini_speculative_rag.py:107 | a chunk's entry is its own score (overlap sum plus similarity bonus) unless a later chunk has the same id |
| SpeculativeRag.TopChunksProperties | backend/app/services/gemini_speculative_rag.py:108-111 | with more than eight chunks: eight input chunks, best first, none left out scoring higher than one kept, ties in input order |
| SpeculativeRag.ExtractSources | backend/app/services/gemini_speculative_rag.py:224-230 | one source per chunk in order; ids and content copied; the preview is a prefix of the content of length min(200, length) |
| SpeculativeRag.ExtractSourcesConcat | backend/app/services/gemini_speculative_rag.py:224-230 | extracting sources commutes with concatenating chunk lists |
| SpeculativeRag.NoDocsResponse | backend/app/services/gemini_speculative_rag.py:170-177 | no sources, confidence 0.1, model `no-documents`; the answer is exactly the fixed opening, the query, and the closing `'. Please upload documents first.` |
| SpeculativeRag.EnhancedExtraction | backend/app/services/gemini_speculative_rag.py:179-197 | the answer is header, numbered 500-character excerpts of the first five chunks, and a footer counting all chunks; confidence 0.75; sources are those of the first min(5, n) chunks |
| SpeculativeRag.ExtractionFraming | backend/app/services/gemini_speculative_rag.py:183-190 | the fallback answer starts with the header and ends with the footer |
| SpeculativeRag.GenerateAnswer | backend/app/services/gemini_speculative_rag.py:57-84 | no chunks gives the no-documents answer; otherwise an acceptable model answer over the selected chunks, else the extractive fallback over them |
| SpeculativeRag.SelectedChunks | backend/app/services/gemini_speculative_rag.py:67-72 | the chunks an answer is built from: all of them when there are at most eight, otherwise exactly eight (the re-ranked top eight over the expanded queries) |
| SpeculativeRag.AnswerSourcesComeFromChunks | backend/app/services/gemini_speculative_rag.py:72-84 | a non-empty retrieval yields one to eight sources, each from a retrieved chunk |
| DocumentApi.Basename | backend/app/main.py:45 | the result has no `/`, is a suffix of the path, and is preceded by `/` when shorter than the path |
| DocumentApi.BasenameOfJoined | backend/app/main.py:45 | `dir/name` has basename `name` whatever `dir` holds |
| DocumentApi.ValidateFilename | backend/app/main.py:45-50 | "Missing filename" exactly when the basename is empty; success exactly when it is non-empty and its lower-cased form ends in `.pdf`, `.docx` or `.txt`; the accepted name is the basename |
| DocumentApi.AcceptedNameIsPlain | backend/app/main.py:45-55 | an accepted name has no `/`, is not empty, and is neither `.` nor `..` |
| DocumentApi.CaseInsensitive | backend/app/main.py:49-50 | names whose basenames lower-case alike get the same verdict |
| DocumentApi.SavedDirectlyInUploadDir | backend/app/main.py:53-55 | the saved path is `data/pdfs/<name>` and its basename is the accepted name |
| DocumentApi.AcceptsLastComponent | backend/app/main.py:45-50 | `../../etc/Report.PDF` is accepted as `Report.PDF` |
| DocumentApi.RejectsOtherExtension | backend/app/main.py:49-50 | `notes.md` is rejected as an unsupported file type |
| DocumentApi.RejectsEmptyName | backend/app/main.py:45-47 | any path ending in `/`, and a missing name, are both "Missing filename" |
| DocumentApi.UploadDocument | backend/app/main.py:42-68 | a validation failure gives its error; a failed file write or chunker run after validation gives a 500; success exactly when both steps succeed, answering "Document processed successfully" with the chunker's document id and the accepted name |
| DocumentApi.Upsert | backend/app/main.py:121-126 | the table afterwards has the message's new row and every other row unchanged |
| DocumentApi.ResubmissionOverwrites | backend/app/main.py:121-126 | a second submission for a message replaces the first |
| DocumentApi.UpsertsCommute | backend/app/main.py:121-126 | submissions for different messages do not interfere |
| DocumentApi.DocumentStore.DeleteDocument | backend/app/main.py:98-115 | an unknown id gives 404 "Document not found" and removes nothing; a known id that chunks or stored patterns still refer to gives a 500 and removes nothing; any other known id is removed and its filename reported |
| DocumentApi.DeleteOfChunkedDocumentFails | backend/app/main.py:106-108 | deleting a listed document that has a chunk fails with a 500 and the document stays listed |
| DocumentApi.DocumentStore.SubmitFeedback | backend/app/main.py:117-132 | with both required fields, upserts the row with the comment defaulting to `""`; a missing field gives a 500 and writes nothing |
| QuerySession.JsOr | ui/src/pages/QueryInterface.js:338-344 | an absent or empty string falls back to the default |
| QuerySession.Remove | ui/src/pages/QueryInterface.js:186 | the result holds exactly the ids other than the removed one |
| QuerySession.RemoveConcat | ui/src/pages/QueryInterface.js:186 | filtering keeps the other ids in their order |
| QuerySession.RemoveKeepsOthers | ui/src/pages/QueryInterface.js:186 | every other id keeps its number of occurrences |
| QuerySession.Toggle | ui/src/pages/QueryInterface.js:183-189 | the toggled id is selected afterwards exactly when it was not before; other ids keep their membership |
| QuerySession.ToggleAppends | ui/src/pages/QueryInterface.js:187 | an unselected id is appended at the end |
| QuerySession.ToggleRemoves | ui/src/pages/QueryInterface.js:185-186 | a selected id is removed everywhere and the other ids keep their counts |
| QuerySession.ToggleTwiceUnselected | ui/src/pages/QueryInterface.js:183-189 | toggling an unselected id twice restores the selection |
| QuerySession.ToggleTwiceSelected | ui/src/pages/QueryInterface.js:183-189 | toggling a selected id twice in a duplicate-free selection gives the same ids with that id moved to the end |
| QuerySession.TogglePreservesNoDup | ui/src/pages/QueryInterface.js:183-189 | toggling keeps a duplicate-free selection duplicate-free |
| QuerySession.Ids | ui/src/pages/QueryInterface.js:195 | one id per listed document, each the id of the document at the same position |
| QuerySession.SelectAllResult | ui/src/pages/QueryInterface.js:191-197 | equal lengths give `[]`; otherwise the document ids in list order |
| QuerySession.LengthTestIsAllSelected | ui/src/pages/QueryInterface.js:192 | for a duplicate-free selection of listed ids, the length test holds exactly when every document is selected |
| QuerySession.StaleSelectionClears | ui/src/pages/QueryInterface.js:192-193 | a stale id makes select-all clear although the listed document is unselected |
| QuerySession.BlankIsEmptyTrim | ui/src/pages/QueryInterface.js:201 | a query is blank exactly when `trim()` leaves nothing |
| QuerySession.DocumentIdsArg | ui/src/pages/QueryInterface.js:237-241 | null exactly when the selection is empty; otherwise the selection itself |
| QuerySession.AiReply | ui/src/pages/QueryInterface.js:245-269 | success: the answer, confidence, sources or `[]`, no feedback, no error, the queried count; failure: the apology, confidence 0, no sources, error set |
| QuerySession.QueryMessages | ui/src/pages/QueryInterface.js:214-269 | exactly two messages: the user's with the selection size, then the AI reply |
| QuerySession.SetFeedback | ui/src/pages/QueryInterface.js:305-310 | same length; messages with the id get the feedback, all others are unchanged |
| QuerySession.SetFeedbackKeepsMessages | ui/src/pages/QueryInterface.js:305-310 | ids, kinds and contents are kept; only matching messages' feedback changes |
| QuerySession.SetFeedbackUnknownId | ui/src/pages/QueryInterface.js:305-310 | feedback for an id no message has leaves the log unchanged |
| QuerySession.SetFeedbackOverwrites | ui/src/pages/QueryInterface.js:302-315 | feedback given twice keeps the second |
| QuerySession.ResultFor | ui/src/pages/QueryInterface.js:333-346 | the entry names the file; status is `success` exactly for an accepted upload, otherwise `error`; the message is never empty |
| QuerySession.RejectionMessage | ui/src/pages/QueryInterface.js:340-345 | a rejection reports the server detail, else the error message, else "Upload failed" |
| QuerySession.UploadResults | ui/src/pages/QueryInterface.js:330-347 | one entry per file, in file order |
| QuerySession.UploadsIndependent | ui/src/pages/QueryInterface.js:332-347 | a file's entry depends only on its own outcome, so a failure does not stop later files |
| QuerySession.UploadCalls | ui/src/pages/QueryInterface.js:332-334 | one upload call per file, in file order |
| QuerySession.FetchedList | ui/src/pages/QueryInterface.js:146-151 | the reply's list, an absent one counting as empty; empty after a failure |
| QuerySession.Session.constructor | ui/src/pages/QueryInterface.js:59-111 | the page starts with the context's values, an empty query, closed dialogs, and loading documents exactly when they are not yet loaded |
| QuerySession.Session.FetchDocuments | ui/src/pages/QueryInterface.js:143-155 | the list becomes the fetched list; `documentsLoaded` becomes true only on success; `loadingDocs` ends false; one list call |
| QuerySession.Session.Mount | ui/src/pages/QueryInterface.js:113-119 | fetches only when the documents are not yet loaded |
| QuerySession.Session.OpenDeleteDialog | ui/src/pages/QueryInterface.js:157-159 | the dialog opens on the given document |
| QuerySession.Session.CancelDelete | ui/src/pages/QueryInterface.js:179-181 | the dialog closes with no target |
| QuerySession.Session.ConfirmDelete | ui/src/pages/QueryInterface.js:161-177 | no target: nothing changes; failure: one delete call, dialog and selection kept; success: id removed from the selection, list refetched once, dialog closed; `deleting` ends false |
| QuerySession.Session.ToggleSelect | ui/src/pages/QueryInterface.js:183-189 | the selection becomes its toggle, with no check against the list |
| QuerySession.Session.SelectAll | ui/src/pages/QueryInterface.js:191-197 | the selection becomes the select-all result |
| QuerySession.Session.SetQuery | ui/src/pages/QueryInterface.js:77 | the query box holds the typed text |
| QuerySession.Session.ExecuteQuery | ui/src/pages/QueryInterface.js:212-276 | appends exactly the two query messages, clears the query, sends null ids exactly for an empty selection, and on every outcome ends with the interval cleared, not loading, empty loading message, index = ticks mod 10 |
| QuerySession.Session.Submit | ui/src/pages/QueryInterface.js:199-210 | blank query or loading: nothing changes; empty selection: only the no-sources dialog opens; otherwise the query runs |
| QuerySession.Session.NoSourcesContinue | ui/src/pages/QueryInterface.js:278-281 | closes the dialog and runs the query without re-checking the gate |
| QuerySession.Session.NoSourcesCancel | ui/src/pages/QueryInterface.js:283-285 | closes the dialog |
| QuerySession.Session.RequestClear | ui/src/pages/QueryInterface.js:287-289 | opens the clear confirmation |
| QuerySession.Session.CancelClear | ui/src/pages/QueryInterface.js:298-300 | closes it, the log untouched |
| QuerySession.Session.ConfirmClear | ui/src/pages/QueryInterface.js:291-296 | empties the log and the query box, closes the dialog |
| QuerySession.Session.HandleFeedback | ui/src/pages/QueryInterface.js:302-315 | one feedback call with the comment defaulting to `""`; the log takes the feedback only if the call succeeded |
| QuerySession.Session.HandleFileUpload | ui/src/pages/QueryInterface.js:323-358 | no files: nothing; otherwise one upload call per file in order, then exactly one list call; results one per file; `uploading` ends false |

## Left out

- Network, database and model calls are parameters: the query, fetch, delete, upload and feedback outcomes, the model's replies (`expansion`, `generation`), and the document id the chunker assigns. `GeminiSpeculativeRAG.__init__` is the `available` flag.
- `_generate_with_gemini`'s prompt text (`gemini_speculative_rag.py:116-136`) is not modelled. Only its accept test (non-empty, at least 20 characters after stripping) and its result shape are.
- `_calculate_confidence` (199-222) is a `confidence` parameter.
- The word-overlap ratio of `_select_best_chunks` (95-101) is an uninterpreted `overlap` function. Scores are exact reals, not floats. NaN scores and rounding are not modelled.
- Clocks: message ids are parameters (user `t0`, AI `t1 + 1`). Timestamps, `startTime` and `responseTime` are not modelled, so neither is the stale `startTime` read at `QueryInterface.js:242`. The 2-second interval becomes a count of ticks.
- React: handlers run atomically. Batching of state updates and interleaving of concurrent handlers are not modelled. `setUploadDialog(prev => …)` is taken to see the dialog state set at the start of the same upload.
- View effects are not modelled: rendering, auto-scroll, smart suggestions (121-141), `alert` (173), textarea focus (295), resetting the file input (354-356) and console logging.
- `handleFileUpload`'s outer `catch` (350-351) is not modelled. Nothing in the loop or in `fetchDocuments` throws.
- `QuerySession.SetFeedback`: does not model the feedback timestamp.
- `DocumentApi.ValidateFilename`: lower-cases ASCII letters only. Python's `str.lower()` also maps non-ASCII letters, which this model does not capture.
- `DocumentApi.Basename`: models POSIX `os.path.basename` only, with `/` as the sole separator.
- Which documents have chunks or stored patterns is part of the store's state (`referenced`). The chunker that writes those rows is not part of this model. Other database failures, such as a lost connection, are not modelled. The Neo4j deletion is commented out in the source.
- `DocumentApi.UploadDocument`: the file write and the chunker are one outcome parameter. The model does not capture that the file stays on disk when the chunker fails, or that a file with the same name is overwritten.
- Feedback rows' `created_at`/`updated_at` and the column constraints of the `feedback` table are not modelled.
- The `.env` file is given as its sequence of lines. File decoding and line splitting are not modelled.
- `EnvLoader.Environment.LoadEnv`: does not model the checks `os.environ` applies to keys and values. A line with an empty key, such as `=x`, makes the assignment at `backend/verify_neo4j_connect.py:23` raise. That aborts the rest of the file. `LoadEnv`, `LoadedKeys` and `FirstOccurrenceWins` therefore describe only files without such a line.
- The other endpoints (`/query`, `/documents`, `/analyze-resume`, health and stats) are not modelled. Neither is `main()` of `backend/verify_neo4j_connect.py`, which connects and exits.
