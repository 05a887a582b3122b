# TachyonParticle client workflows and request builders in Dafny

TachyonParticle is a home energy assistant: a FastAPI backend serves a live
meter stream, an LLM-generated load forecast and energy-saving suggestions,
and a React single-page client (`App.jsx`) shows them. This project models
the parts of that system that make decisions rather than move bytes:

* **LLM payload recovery** (`LlmJson`): `parseLlmJson` turns whatever a
  backend endpoint returned into the data the client works with. It passes
  an array through, or it looks for a fenced `json` block in the reply's
  `content` string, or it takes the span from the first `[` to the last `]`.
  It falls back to `[]`. JSON decoding is a parameter, `decode`, so every
  property holds whatever the decoder does.
* **Live meter** (`LiveFeed`): the Dashboard's WebSocket handlers as a
  state machine over open/close/error/message events. It keeps the latest
  reading, a rolling history of at most 20 points and a connected flag.
* **What-if simulation** (`Simulation`): baseline and suggestion loading,
  selecting or toggling a suggestion, the simulate request and the reply
  that is applied, and committing the applied action. Outgoing requests are
  outputs of each transition. Replies and acknowledgements are inputs.
* **Settings appliance list** (`Appliances`) and **history chart labels**
  (`HistoryLabels`).
* **Backend builders**: chat message assembly for the LLM
  (`ChatMessages`), upload validation and extension-based dispatch
  (`Uploads`), LiteLLM client configuration, ask payloads and the LangChain
  prompt (`LlmRequests`), and vector-store metadata and search results
  (`VectorIndex`).

JavaScript values are modelled by `JsValue.Value`: undefined, null,
booleans, numbers as reals, strings, arrays and objects. It comes with JS
truthiness and property reads. A property read on `null`/`undefined` throws
in JavaScript, so `JsValue.Get` requires a non-nullish receiver. Each caller
models the throw where the source can reach it. `Text` holds the
substring-search helpers that stand in for the regular expressions.

The model follows the code wherever the code does something a reader might
not expect:

* After a commit request, the applied suggestion and savings are cleared
  only when the request resolves, whatever the HTTP status. A network
  failure rejects it and leaves them in place (`Simulation.Commit`).
* There is no stale-reply guard. Each simulate reply is applied when it
  arrives. The model treats every request as answered before the next
  event, and overlapping requests are left out (below).
* A live frame is stored as it is, with no `total_kw` check. A frame that
  decodes to JSON `null` is stored too, and then React's history updater
  throws during rendering (`LiveFeed.Step` returns `None`). The connection
  flag is a boolean with no separate "connecting" state.
* A simulate reply that has `modified_forecast` but lacks `savings_summary`
  partially updates the view. See Findings. The page machine
  (`Simulation.SelectSuggestion`, `Simulation.Step`, `Simulation.Run`) takes
  the reply handling as a parameter. `AsWritten` applies replies the way
  App.jsx:583-592 does. `AllOrNothing` applies the corrected handling. Every
  property proved about runs of the machine holds for both.

## Model

| member | source | states |
|---|---|---|
| LlmJson.FenceMatch | App.jsx:24 | The fenced-block pattern matches exactly when some ```` ```json\n ```` opener is followed later by a `\n```` ` closer. The match found starts at the leftmost opener and ends at the nearest closer after it (lazy group). The captured group is the text in between. |
| LlmJson.BracketMatch | App.jsx:24 | The bracket pattern matches exactly when some `[` precedes some `]`. The match runs from the first `[` to the last `]` (greedy) and has no capture group. |
| LlmJson.ParseLlmJson | App.jsx:16-34 | An array input is returned unchanged. Input without truthy string `content`, or whose content matches neither pattern, yields `[]`. Any other non-`[]` result comes from decoding some extracted text. A decode failure yields `[]`. |
| LlmJson.FencedBlockPreferred | App.jsx:22-26 | When a fenced block is present, its non-empty inner text is what gets decoded, even if brackets also occur. An empty captured group falls back to the whole match. |
| LlmJson.BracketSpanFallback | App.jsx:24-26 | With no fenced block, the whole first-`[`-to-last-`]` span is what gets decoded. |
| LlmJson.NoMatchYieldsEmpty | App.jsx:22-29 | Content that matches neither pattern yields `[]` without consulting the decoder. |
| LlmJson.FencedBlockInText | App.jsx:24 | For `prefix + opener + body + closer + suffix`, with no backquote in the prefix and no newline in the body, the fenced match captures exactly the body. |
| LlmJson.BracketSpanInText | App.jsx:24 | For text with no `[` before the first bracket and no `]` after the last one, the bracket match captures that outermost span. |
| LlmJson.FencedReplyDecodesBody | App.jsx:22-27 | A reply whose content holds prose without backquotes, then a fenced block around a non-empty one-line body, decodes exactly that body. |
| LlmJson.FencedExample | App.jsx:22-27 | A reply whose content is `here:` and a newline, then a fenced `[{"id":2}]` block with nothing after it, decodes just `[{"id":2}]`. |
| LlmJson.BracketExample | App.jsx:24-27 | The reply content `Result: [{"id":3}] done.` decodes the bare array `[{"id":3}]`. |
| LlmJson.NoJsonExample | App.jsx:29 | A plain-prose reply yields `[]`. |
| LlmJson.ResultNeedNotBeArray | App.jsx:24-26 | Example: content `[1]` that the decoder turns into the number 5 yields 5, a non-array. This is why both loaders re-check `Array.isArray`. |
| LiveFeed.Push | App.jsx:241-244 | Appending a point keeps at most 20 entries. Below capacity it appends. At capacity it drops the oldest. The new point is always last. |
| LiveFeed.Step | App.jsx:229-262 | Open sets connected. Close, error and a throwing constructor clear it. A frame that fails to decode changes nothing. A decoded frame becomes the current reading and its `(timestamp, total_kw)` point is pushed. Messages never touch the flag. A `null` frame fails rendering. |
| LiveFeed.HistoryIsLastTwenty | App.jsx:237-248 | From any state holding at most 20 points, after any run of n well-formed events, the history is exactly the last `min(20, h + n)` entries of the prior h points followed by the n new points, in arrival order, and the connected flag is unchanged. |
| LiveFeed.UndecodableFrameIgnored | App.jsx:238-247 | A frame the decoder rejects leaves the whole state unchanged. |
| LiveFeed.ConnectedFollowsLastStatus | App.jsx:233-262 | After any run of events the Dashboard survives (no `null` frame), the connected flag equals the outcome of the last open/close/error/constructor-failure event, or the previous flag if there was none. |
| Simulation.ToChart | App.jsx:540 | Mapping `{hour, load_kw}` rows to chart points keeps length and order (`name` is hour, `val` is load). It fails exactly when some row is null or undefined, where the property read throws. |
| Simulation.BaselinePayload | App.jsx:572-573 | The simulate request's forecast has one entry per chart point, with the same hour and load, and a cost of 8 times the load when the load is a number. |
| Simulation.LoadBaseline | App.jsx:534-547 | A parsed array with no nullish rows replaces both the baseline and the simulated series with its chart points. A failed fetch, a non-array parse result, or an array with a null or undefined row (the map throws into `.catch`) leaves the state unchanged. Savings, applied id and suggestions are untouched. |
| Simulation.LoadSuggestions | App.jsx:550-558 | A parsed array replaces the suggestions. Anything else, including a failed fetch, leaves them unchanged. Nothing else changes. |
| Simulation.ApplyReplyAsWritten | App.jsx:583-589 | As written: a failed reply or one without a readable series changes nothing. A complete reply is applied exactly as the corrected handling applies it. A reply with a series but no readable `savings_summary` replaces only the simulated series. |
| Simulation.ApplyReply | App.jsx:583-589 | All or nothing: a complete reply sets series, savings and applied id together. Any other reply or failure leaves the state unchanged. |
| Simulation.SelectSuggestion | App.jsx:561-593 | Selecting the applied suggestion resets to the baseline, with no savings and no request. Selecting another one emits a simulate request whose forecast is the baseline payload, with each hour and load and a cost of 8 times the load, together with the suggestion's id and appliance. The reply is applied by the given handling, and the `AsWritten` handling is the code. Baseline and suggestions are never touched. |
| Simulation.FindById | App.jsx:597 | `Array.find` by `id`: found means the element at that index matches and no earlier one does. Not found means no element matches. A nullish element before any match throws. |
| Simulation.Commit | App.jsx:595-615 | With nothing applied, nothing happens. Otherwise, when `find` returns a suggestion, the commit carries the title of that first match and the current savings. When it returns nothing or throws, no request is sent and nothing changes. The applied id and savings are cleared only when the request resolves. Baseline, series and suggestions never change. |
| Simulation.Step | App.jsx:524-615 | A Commit click while the savings are exactly 0 does nothing, and any commit sent carries the current, non-zero savings. Under either reply handling, baseline changes only on a baseline load and suggestions only on a suggestions load. The applied id is always either unchanged, null, or the id of the selected suggestion. |
| Simulation.AsWrittenPartialUpdate | App.jsx:585-588 | With the source's ordering, the reply `{"modified_forecast":[{"hour":0,"load_kw":1}]}`, a readable series with no `savings_summary`, replaces the chart with the point (0, 1) yet leaves savings and applied id as they were. |
| Simulation.CorrectedIgnoresIncompleteReply | App.jsx:585-588 | For every reply that lacks a readable series or a readable savings summary, and for a failed reply, the corrected update leaves the state unchanged. |
| Simulation.HandlingsDifferOnlyWithoutSummary | App.jsx:583-589 | The code and the corrected handling disagree only on a reply with a readable series but no readable savings summary. On such a reply the code shows the new series with the old savings and applied id, and the corrected handling changes nothing. |
| Simulation.BaselineOnlyChangedByLoad | App.jsx:532-615 | Over any event sequence without baseline loads, the baseline never changes. |
| Simulation.NoZeroSavingsCommit | App.jsx:704-706 | Because the Commit button is disabled while the savings are 0, no run of the page ever sends a commit with zero savings. |
| Simulation.AppliedComesFromSelection | App.jsx:561-615 | Over any event sequence, the applied id is the initial one, null, or the id of some suggestion selected in it. |
| Simulation.ToggleReturnsToBaseline | App.jsx:563-568 | Selecting the applied suggestion again restores the baseline series, zero savings and no applied id, and sends no request. |
| Simulation.CommitResetsAppliedState | App.jsx:596-610 | A commit that finds its suggestion and resolves leaves nothing applied and zero savings, and sends the title and savings. |
| Appliances.DefaultsDistinct | App.jsx:46 | The default list (Fridge, AC, TV, Washing Machine) has no duplicates. |
| Appliances.AddAppliance | App.jsx:954-959 | A non-empty, absent name is appended and the draft cleared. Otherwise both the list and the draft stay as they are. Existing entries keep their order, and no duplicates are introduced. |
| Appliances.RemoveAppliance | App.jsx:1031 | Removing drops every occurrence of the name and keeps every other entry with its multiplicity. Order is kept by `Appliances.RemoveConcat`. |
| Appliances.RemoveConcat | App.jsx:1031 | Filtering distributes over concatenation. Together with the one-element cases this fixes the result as the list's other entries in their original order. |
| Appliances.RemoveKeepsDistinct | App.jsx:1031 | Removing from a duplicate-free list keeps it duplicate-free. |
| Appliances.AddThenRemove | App.jsx:954-1031 | Adding a new name and then removing it gives back the original list. |
| Appliances.AddIdempotent | App.jsx:955 | Adding a name twice is the same as adding it once. |
| Appliances.EditsKeepDistinct | App.jsx:954-1031 | Any sequence of add and remove edits keeps a duplicate-free list duplicate-free. |
| HistoryLabels.SecondPiece | App.jsx:405 | `split(sep)[1]` is missing exactly when the separator does not occur. Otherwise it contains no separator and is the text that starts right after the first separator and runs to the next separator or the end. |
| HistoryLabels.FormatLabel | App.jsx:405 | A label is either the stamp itself or at most five characters long. |
| HistoryLabels.LabelWithoutSeparator | App.jsx:405 | A stamp without `T` is shown unchanged. |
| HistoryLabels.LabelSplitsAtFirstSeparator | App.jsx:405 | For `date T time rest`, the label is the first five characters of the time, or the whole stamp when the time is empty. |
| HistoryLabels.IsoTimestampExample | App.jsx:405 | `2024-05-01T14:30:00` is labelled `14:30`. |
| ChatMessages.HistoryEntries | app/chat_utils.py:29-30 | Each history turn becomes one text message with the same role, in order. |
| ChatMessages.BuildMessages | app/chat_utils.py:22-42 | Optional system prompt first, then the optional `Relevant context:` system message, then the history, then the user turn. The user turn is plain text, or text plus image parts when an image is given. The length counts exactly those parts. |
| ChatMessages.AppendImageToLastUser | app/chat_utils.py:2-21 | If the last message is a user turn, its text becomes `[text, image]` or its part list gets the image appended, and other content is left alone. Otherwise a new image-only user turn is appended. All earlier messages are untouched. The image URL is `data:<type>;base64,<b64>`. |
| ChatMessages.MergeMatchesBuild | app/chat_utils.py:3-41 | Appending an uploaded image to a freshly built text conversation gives the same list as building it with that image directly. |
| ChatMessages.MergedImageIsLast | app/chat_utils.py:5-20 | When the last turn can take it, the uploaded image ends up as the final part of the final user message. |
| Uploads.ValidateFile | app/utils.py:18-25 | A file passes exactly when its type is one of the five allowed MIME types and its name is non-empty and at most 128 characters. The first failing check decides the error: unsupported type, then missing name, then a name over 128 characters, each with its own 400 detail. |
| Uploads.IsFileUnique | app/utils.py:32-36 | Unique exactly when no stored document has the same MD5. |
| Uploads.Lower | app/utils.py:45 | Lower-casing keeps length and maps each ASCII capital to its small letter, leaving other characters alone. |
| Uploads.SplitExt | app/utils.py:45 | `splitext` splits the path into root and extension that concatenate back to it. When the last dot of the path has no `/` after it and the last component has a non-dot character before it, the extension is the suffix from that dot. In every other case the extension is empty. |
| Uploads.TextReaderFor | app/utils.py:44-60 | Text extraction picks the PDF, DOCX, plain-text or OCR reader exactly when the lower-cased extension is `.pdf`, `.docx`, `.txt` or one of `.png`, `.jpg`, `.jpeg`. Any other extension is rejected with the 400 "Unsupported file extension for text extraction." error. |
| Uploads.MetadataSourceFor | app/utils.py:63-73 | Metadata extraction picks the PDF, DOCX, text or image handler exactly when the lower-cased extension is the matching one of the six. Otherwise it falls back to no handler. |
| Uploads.FallbackMetadata | app/utils.py:63-73 | Files matching no handler get author, title and creation date all `None`. |
| Uploads.ExtensionDecides | app/utils.py:44-73 | Text extraction and metadata extraction depend only on the lower-cased extension. |
| Uploads.DispatchesAgree | app/utils.py:44-73 | Text extraction rejects a path exactly when metadata extraction falls back. Otherwise both pick the same file kind (PDF, DOCX, text, image). |
| Uploads.SplitExtOfFileName | app/utils.py:45 | For a file name `stem.e` with no directory part, whose stem does not start with a dot (it may contain dots) and whose `e` holds no dot, the root is the stem and the extension is `.e`. |
| Uploads.HiddenFileHasNoExtension | app/utils.py:45 | A name `.e` with no directory part, one leading dot and a dot-free `e`, has no extension. |
| Uploads.DirectoryDotsIgnored | app/utils.py:45 | Dots in directory names never make an extension. |
| Uploads.UpperCaseExtension | app/utils.py:44-48 | `REPORT.PDF` is read as a PDF. |
| Uploads.MixedCaseImageExtension | app/utils.py:44-57 | `scan.JPeG` goes to OCR. |
| Uploads.LastExtensionCounts | app/utils.py:44-60 | `notes.pdf.txt` is read as plain text, not as a PDF. |
| Uploads.HiddenNameRejected | app/utils.py:44-60 | `.pdf`, a hidden file, is rejected for text extraction. |
| Uploads.DottedDirectoryRejected | app/utils.py:44-60 | `dir.pdf/README`, a dotted directory with an extension-less file, is rejected. |
| LlmRequests.NewClient | app/litellm_client.py:5-19 | The provider is kept. A truthy key wins. Otherwise openai and gemini fall back to their environment keys and any other provider keeps the given key. A truthy model wins over `LITELLM_MODEL`, whose default is `gpt-3.5-turbo`. |
| LlmRequests.AskPayload | app/litellm_client.py:21-31 | Given messages are sent as they are. Otherwise the payload is the optional system message, the optional `Context:` user message and the optional question, in that order and at most three. |
| LlmRequests.Prompt | app/llm.py:12-18 | The prompt starts with `System: …` when a system prompt is given, contains the `Context: …` line when a context is given, and always ends with `Question: …`. |
| LlmRequests.PromptRendersPayload | app/llm.py:13-18 | The LangChain prompt is the LiteLLM ask payload's message texts joined by newlines, with `System:`/`Question:` labels. |
| VectorIndex.ChunkMetadatas | app/vectordb.py:25-34 | One metadata map per chunk. Each holds `doc_name` overlaid by that chunk's own metadata when one is given per chunk. Otherwise each holds just `doc_name`. |
| VectorIndex.SearchResults | app/vectordb.py:37-40 | Search returns the retrieved documents' page contents in retriever order, and `[]` when nothing was found. |

## Findings

| source | as written | input that shows it | evidently intended | confidence | as-written member | corrected member |
|---|---|---|---|---|---|---|
| App.jsx:585-588 | `setSimulatedData` runs before `result.savings_summary.total_savings_amount` is read. A reply without `savings_summary` throws after the chart was already replaced. | simulate reply `{"modified_forecast":[{"hour":0,"load_kw":1}]}` | A reply either updates series, savings and applied id together or is ignored. Line 585 guards all three updates on the reply's content, so they are meant as one step, and the savings shown should belong to the series shown. | not executed; follows from the statement order and React applying state set before the throw | Simulation.ApplyReplyAsWritten, Simulation.AsWrittenPartialUpdate | Simulation.ApplyReply, Simulation.CorrectedIgnoresIncompleteReply |

The page machine runs either handling (`Simulation.ReplyHandling`).
`AsWritten` reproduces the defect, and `AllOrNothing` uses the corrected
`ApplyReply`. `Simulation.HandlingsDifferOnlyWithoutSummary` proves that the
two differ on no other reply.

## Left out

- Transport: the WebSocket object, `fetch`, `res.json()`, timers, `alert` and console logging are not modelled as objects. Their outcomes are event and reply inputs, and outgoing requests are transition outputs.
- JSON parsing and serialisation: `JSON.parse` is the `decode` parameter. `JSON.stringify` of request bodies is the `Request` datatype.
- Overlapping simulate or commit requests: the source has no guard against a late reply overwriting a newer selection. The model applies each reply before the next event, so interleavings are not covered.
- Dashboard teardown (`ws.close()`, the never-set reconnect timer): it changes no state the client reads.
- Rendering: JSX, `toFixed`, the load and savings colour thresholds, and React crashes other than the history updater's on a `null` frame are not modelled. The Commit button's `disabled={savings === 0}` is modelled, in `Simulation.Step`.
- JS equality: `===` on suggestion ids is modelled as structural equality. Object or array ids compared by reference are not distinguished.
- Simulation.BaselinePayload: `d.val * 8` is stated only for numeric loads. JS coercion of strings, booleans and `null` (and NaN) is left as an absent cost, because numbers are reals without IEEE rounding.
- JsValue.Get: reading properties of non-objects (array `length`, string methods) yields `undefined`, because no workflow here depends on them.
- HistoryLabels.FormatLabel: `substring` counts UTF-16 code units, but the model counts characters. They agree on the ASCII timestamps the backend emits.
- The Analytics row assembly (`kwh_data[i]`, `cost_data[i]`) beyond label formatting, the solar, budget, leaderboard and chat pages, and the settings goals form.
- Uploads.Lower: Python's `str.lower()` is modelled on ASCII letters only. Other letters with lower-case forms are left unchanged.
- Uploads.SplitExt: only POSIX `os.path.splitext` is modelled. Windows drive and backslash handling is not.
- Uploads.IsFileUnique: the database query is modelled as a scan over the stored documents' MD5 values. MD5 hashing, saving files, PDF/DOCX/text reading, OCR and the handlers' metadata contents are foreign calls. Only which handler is chosen is modelled.
- Metadata maps are unordered, so Python's dict key order is not modelled.
- LLM and vector-store calls: `litellm.completion`, `ChatOpenAI`, the `LLMClient` constructor, embeddings, text splitting and the Qdrant retriever's ranking and filtering. Only the payloads and result shaping around them are modelled.
- ChatMessages.AppendImageToLastUser: a last message without a `role` key (a `KeyError` in Python) cannot arise in the model. Python's in-place mutation of the list is modelled by returning the new list.
- `app/main.py`, `app/db.py`, `app/image_chat.py`, `app/helpers` and `app/backup_files` are not part of this model.
