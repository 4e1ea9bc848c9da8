# Research summariser: a verified model

The program is a single-page viewer. It asks a generative model, with web-search grounding, for a
bullet-point summary of one research report. It then shows the text as bullets and paragraphs,
followed by a "Verified Sources" row of link badges. This project models the parts of that program
that decide what is shown:

- `Types` (`types.dfy`): the data shapes. A `SearchSource` is a uri and a title. A
  `SummaryData` is a text and a list of sources. `AppStatus` has four values. The module also
  has two predicates over source lists: `UniqueUris` and `HasUri`.
- `GeminiService` (`gemini_service.dfy`): what `getPaperSummary` does with a reply.
  - The text falls back to "No summary available." when it is absent or empty.
  - The grounding chunks are read through the optional chain on the first candidate.
  - The `forEach` loop keeps the first source for each distinct web uri. Its title falls back to
    the uri.
  - Any failure of the call becomes an `Error` with one fixed message.
  - The loop is the method `ExtractSources`, proved against the function `Dedup`. The lemmas
    about `Dedup` are uniqueness, first occurrence and completeness.
- `LineFormat` (`line_format.dfy`): how the summary text becomes display blocks. This covers
  JavaScript's `split('\n')`, `trim`, the `startsWith('*') || startsWith('-')` test and the
  `/^[*-\s]+/` strip. The proofs relate the rendered blocks to the non-blank lines of the text.
- `SourceBadge` (`source_badge.dfy`): a badge links to the uri unchanged. Its caption is the title
  cut to 30 characters, with "..." appended when it was cut.
- `App` (`app.dfy`): the component state. `fetchSummary` updates `status`, `data` and `error` in
  place, so those three fields form the class `AppState`. The module also covers the refresh
  button's `disabled` rule and which panel the content area shows for each status.

The network call is an input, `ApiOutcome`. It is either `Replied(response)`, where the response
has optional `text` and `candidates`, or `Threw`. The component's `fetchSummary` takes that input
and runs the service model inside its own `try`.

## Model

| member | source | states |
|---|---|---|
| GeminiService.SummaryText | services/geminiService.ts:25 | the text is never empty; a non-empty reply text is kept as is; an absent or empty text becomes "No summary available." |
| GeminiService.GroundingChunks | services/geminiService.ts:29 | chunks are found exactly when there is a first candidate, it has grounding metadata and that metadata has grounding chunks; the chunks found are that first candidate's `groundingMetadata.groundingChunks` |
| GeminiService.WebUri | services/geminiService.ts:33 | the uri read from a chunk is non-empty exactly when the chunk has a web part with a non-empty uri, and it is then that uri |
| GeminiService.Qualifies | services/geminiService.ts:33 | `chunk.web && chunk.web.uri` holds exactly when the chunk has a web part whose uri is present and non-empty |
| GeminiService.Keep | services/geminiService.ts:33-40 | one loop step extends the kept list by at most one source; it adds one exactly when the chunk qualifies and its uri is not yet kept, and the added source is built from that chunk; it keeps the list free of repeated uris |
| GeminiService.ToSource | services/geminiService.ts:36-39 | the source's uri is the chunk's non-empty web uri; its title is the web title when that is present and non-empty, otherwise the uri; the title is never empty |
| GeminiService.Dedup | services/geminiService.ts:28-43 | the sources kept after the loop are no more than the chunks and never repeat a uri |
| GeminiService.FirstSeenIndices | services/geminiService.ts:32-42 | the positions of the chunks whose uri has not occurred in an earlier qualifying chunk, strictly increasing and complete |
| GeminiService.DedupHasUri | services/geminiService.ts:33-35 | a uri is among the kept sources if and only if some chunk has a web part with that non-empty uri |
| GeminiService.DedupIsFirstSeen | services/geminiService.ts:32-42 | the kept sources are, in order, exactly the sources of the first chunk of each distinct uri |
| GeminiService.DedupComplete | services/geminiService.ts:33-40 | no chunk with a web uri is lost: its uri is among the kept sources |
| GeminiService.FindByUri | services/geminiService.ts:35 | `Array.find` on the uri: nothing is found if and only if no kept source has the uri; otherwise the result is the first source with it |
| GeminiService.ExtractSources | services/geminiService.ts:28-43 | the loop's result equals `Dedup` of the chunks; it has unique uris, is no longer than the chunks, is in order the sources of the first chunk of each distinct uri, and holds every qualifying uri |
| GeminiService.GetPaperSummary | services/geminiService.ts:16-49 | it rejects if and only if the call threw, always with the error "Failed to fetch summary from Gemini API."; a reply resolves with the fallback-aware text and the deduplicated sources of its chunks |
| GeminiService.ChunksOrNone | services/geminiService.ts:29-31 | the loop walks no chunks when the reply has none, and otherwise the chunks of the first candidate |
| LineFormat.DropWhile | App.tsx:104 | the result is a suffix of the input; every character removed satisfies the predicate and the first one kept does not |
| LineFormat.DropWhileEnd | App.tsx:98 | the result is a prefix of the input; every character removed satisfies the predicate and the last one kept does not |
| LineFormat.Trim | App.tsx:98 | the trimmed line neither starts nor ends with whitespace, and it is empty if and only if the line is blank |
| LineFormat.TrimIsSlice | App.tsx:98 | the trimmed line is a contiguous slice of the line, and everything cut from either end is whitespace |
| LineFormat.LineBlock | App.tsx:98-110 | the classifier of one line; it has no contract of its own, and its cases are stated by `LineFormat.LineBlockCases` |
| LineFormat.LineBlockCases | App.tsx:97-111 | a line renders as nothing exactly when it is blank; it renders as a bullet exactly when its trimmed form starts with `*` or `-`, and the bullet holds the trimmed form minus its whole lead-in of `*`, `-` and whitespace; otherwise it renders as a paragraph holding the trimmed line |
| LineFormat.BulletContentShape | App.tsx:99-104 | a line whose trimmed form starts with `*` or `-` renders as a bullet, and its content never begins with `*`, `-` or whitespace and never ends with whitespace |
| LineFormat.Split | App.tsx:97 | `split('\n')` gives at least one part, and no part holds the separator |
| LineFormat.JoinSplit | App.tsx:97 | joining the parts with the separator gives back the text, so splitting loses no characters |
| LineFormat.SplitJoin | App.tsx:97 | splitting a join of separator-free parts gives back those parts |
| LineFormat.SummaryBlocks | App.tsx:97-111 | the blocks of a text are the rendered lines of its `split('\n')`, never more blocks than lines; their relation to the non-blank lines is stated by `LineFormat.BlocksFollowNonBlankLines` |
| LineFormat.RenderLines | App.tsx:97-111 | there are never more blocks than lines |
| LineFormat.NonBlankLines | App.tsx:109 | the kept lines are all non-blank lines of the input, and every non-blank line is kept |
| LineFormat.RenderLinesAppend | App.tsx:97-111 | rendering the lines of two texts end to end gives the blocks of each, end to end |
| LineFormat.OneLineBlocks | App.tsx:97-111 | one line renders as the block of that line, or as nothing |
| LineFormat.RenderFollowsNonBlankLines | App.tsx:97-111 | when a renderer drops exactly the blank lines, there is one block per non-blank line, in line order, and the k-th block is the k-th non-blank line's block |
| LineFormat.LineBlockDropsExactlyBlank | App.tsx:109 | the line renderer drops exactly the blank lines |
| LineFormat.BlocksFollowNonBlankLines | App.tsx:97-111 | the summary shows one block per non-blank line, in order, each rendered from that line |
| LineFormat.NoBlankLinesAllKept | App.tsx:109 | without blank lines, no line is dropped |
| LineFormat.NoBlankLinesNoLoss | App.tsx:97-111 | without blank lines, there are exactly as many blocks as lines |
| LineFormat.SingleLineText | App.tsx:97 | a text without a line break renders as the block of the whole text |
| SourceBadge.Label | components/SourceBadge.tsx:20 | a caption of at most 30 characters is the title itself; a longer title becomes its first 30 characters followed by "..."; the caption is never longer than 33 characters and always starts with the title's first 30 characters |
| SourceBadge.RenderBadge | components/SourceBadge.tsx:11-20 | the badge links to the source's uri unmodified and shows the cut title |
| App.ErrorMessage | App.tsx:21 | an `Error` contributes its message; any other thrown value gives "An unexpected error occurred." |
| App.SourcesSection | App.tsx:115-127 | the sources section exists if and only if there is at least one source; it holds one badge per source, in order, each linking to that source's uri |
| App.ContentPanel | App.tsx:76-94 | the skeleton shows exactly while loading; the error panel shows exactly on error, with the stored message; the summary shows exactly on success with data, and it renders that data's text and sources |
| App.AppState.constructor | App.tsx:9-11 | the initial state is idle, with no data and no error |
| App.AppState.Valid | App.tsx:9-24 | the combinations of status, data and error that `fetchSummary` can produce: idle has neither data nor error, loading and success have no error, success has data, error has a message; every method keeps it |
| App.AppState.View | App.tsx:76-94 | the content area for the current fields: the skeleton exactly while loading, the error panel exactly on error with the stored message, the summary exactly on success with data, built from that data (as `App.ContentPanel`) |
| App.AppState.RefreshDisabled | App.tsx:45 | the refresh button is disabled exactly while loading |
| App.AppState.Start | App.tsx:14-15 | the state becomes loading with the error cleared and the old data kept; the skeleton is shown and refresh is disabled |
| App.AppState.Succeed | App.tsx:18-19 | the result is stored, the status becomes success and refresh is enabled again |
| App.AppState.Fail | App.tsx:21-22 | the message is stored, the status becomes error and the old data is kept but not shown; the error panel shows the message |
| App.AppState.FetchSummary | App.tsx:13-24 | the state invariant is kept and loading is always left. A failed call ends in error with the service's fixed message and the data unchanged. A reply ends in success with no error, holding the reply's fallback-aware text and deduplicated sources |
| App.AppState.ClickRefresh | App.tsx:43-45 | a click while loading changes nothing; otherwise it has the effect of `fetchSummary`: a failed call ends in error with the fixed message and the data unchanged, and a reply ends in success with no error, holding the reply's text and deduplicated sources |
| App.FallbackIsOneTrimmedLine | services/geminiService.ts:25 | the fallback sentence has no line break and nothing for `trim` to remove |
| App.FallbackRendersAsParagraph | App.tsx:97-110 | the fallback sentence renders as a single paragraph holding it |
| App.EmptyReplyRendersFallback | services/geminiService.ts:25-45 | a reply without text or candidates shows the single fallback paragraph and no sources section |
| App.BulletLineRenders | App.tsx:99-104 | a line made of `*` or `-`, a space and words renders as a bullet holding exactly the words |
| App.PlainLineRenders | App.tsx:109-110 | a line that does not start with a marker or whitespace, and does not end with whitespace, renders as a paragraph holding it |
| App.MixedChunksDedup | services/geminiService.ts:32-42 | on a reply whose chunks repeat a uri and omit a title, the first title is kept, the repeat is skipped and the missing title becomes the uri |

## Left out

- The generative-model call is an input (`ApiOutcome`), not a call. This covers the API key, the model name, the search-tool configuration and the prompt text.
- `GetPaperSummary`: the client is constructed (services/geminiService.ts:6) before the `try` at line 16. A failure there is not modelled. It would reach `fetchSummary` with its own message rather than "Failed to fetch summary from Gemini API.".
- A reply that makes the service code throw while reading it is modelled as `Threw`. An example is a chunk list that is not an array.
- `console.error` is left out, because it is logging with no effect on the result.
- React, JSX, styling, the `Skeleton` component and the static header text are left out. The model keeps only which panel is shown and what it contains.
- The mount effect (`useEffect`, App.tsx:26-28) is not modelled. It only calls `fetchSummary` once, which is `App.AppState.FetchSummary` started from the constructor's state.
- The click on "Retry Request" (App.tsx:85-86) is not modelled separately. It calls `fetchSummary` while the status is error, which is `App.AppState.ClickRefresh` from that state.
- Asynchrony is left out. `fetchSummary` is modelled as one atomic step, so a second fetch cannot run while the first is loading. React's batching of state updates is left out too.
- `Label`: characters are Dafny `char`s, that is Unicode scalar values. JavaScript counts `length` and `substring` in UTF-16 code units, so a title with characters outside the Basic Multilingual Plane is cut at a different place.
- `IsWhitespace` is a fixed set: the ECMAScript WhiteSpace and LineTerminator code points of the current Unicode version. Changes to category Zs in later Unicode versions are not tracked.
- `GetPaperSummary`: `getPaperSummary` always throws an `Error`, so its `OtherValue` branch is never taken from there. `App.ErrorMessage` still models both branches.
