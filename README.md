# On-device chat, PDF and vector-memory core, in Dafny

This project models the sequential core of a React Native proof of concept
that runs a language model on the device. The model covers these parts:

- **The chat screen** (`app/index.tsx`). It holds a static tool catalog
  (`get_weather`, `send_email`) and a dispatcher that turns a function call
  into a display string. One conversation turn appends the user message,
  calls the completer, and appends either one assistant message per function
  call or the plain response.
- **PDF helpers** (`utils/pdfUtils.ts`). The document-picker result is
  normalised (`size ?? 0`, `mimeType || 'application/pdf'`). `parsePDF`
  walks pages `1..pageCount`, keeps the non-empty page texts each followed by
  a newline, and trims the result.
- **The native page-access objects.** `ExpoPDFDocument` exists in Kotlin
  (PDFBox) and in Swift (PDFKit). Each holds an optional document and has:
  - `loadPage`, checked against 1-based page numbers;
  - `getPageCount`, which defaults to 0;
  - `close`, on Android only;
  - `loadPDF`, which returns null for every failure. On iOS it also applies
    a `file://` prefix rule.
- **`SimpleRAG`** (`utils/rag.ts`). `addDocument` splits a document into
  chunks, then embeds and stores each chunk in order, with metadata
  `{...metadata, content: chunk}`. `search` embeds the query once and maps
  each similarity to `1 - similarity`.
- **The sqlite-vec memory** (`utils/database.ts`). `initDatabase` opens a
  module-level handle lazily. The handle is assigned before the extension
  and table steps. `writeEmbedding` inserts a row and returns its row id,
  or -1. `searchSimilar` selects `ORDER BY distance LIMIT k` and parses the
  metadata.

External capabilities are parameters of the model:

| capability | modelled as |
|---|---|
| the LLM completer and embedder | function-valued parameters and fields |
| the text splitter | a function parameter |
| the vector store's search | a function field |
| the sqlite-vec distance | a function field |
| JSON encoding and decoding | a `Codec` value |
| the document picker | its settled result, a plain `Result` value |
| PDFBox, PDFKit and the file system | function-valued fields of small platform datatypes |

A thrown exception is a `Failure`. JavaScript `null`/`undefined` and
Kotlin/Swift `null`/`nil` are `None` or a `null` reference. Every `await` is
one sequential step.

Modules:

- `base.dfy`:
  - `Outcomes`: `Option` and `Result`;
  - `JsText`: ECMAScript `String.prototype.trim`, over the exact
    WhiteSpace and LineTerminator code points of the language;
  - `Json`: metadata records and the abstract codec.
- `chat.dfy`: `Chat`.
- `pdf_utils.dfy`: `PdfUtils`.
- `android_pdf.dfy`: `AndroidPdf`.
- `ios_pdf.dfy`: `IosPdf`.
- `rag.dfy`: `Rag`.
- `database.dfy`: `VectorDatabase`.

Some things the code does not do, and the model does not add:

- `handleFunctionCall` does not check arguments against the catalog's
  `required` lists. `Chat.MissingArgumentsNotRejected` states what happens
  instead.
- Only `get_weather` and `send_email` are dispatched; every other name gets
  the unknown-function reply.
- The SQL query asks for no tie-breaking among equal distances.
- No dimension check is made on insert or on search.

## Model

| member | source | states |
|---|---|---|
| JsText.Trim | app/index.tsx:91 | `String.prototype.trim`: the definition only; `JsText.TrimIsSlice`, `JsText.TrimEmptyIff` and `JsText.TrimIdempotent` characterise it |
| JsText.TrimStartSpec | app/index.tsx:91 | the leading-trim result is the suffix of the input after a whitespace-only prefix, and it does not start with whitespace |
| JsText.TrimEndSpec | utils/pdfUtils.ts:60 | the trailing-trim result is the prefix of the input before a whitespace-only suffix, and it does not end with whitespace |
| JsText.TrimIsSlice | app/index.tsx:91 | `trim` removes a whitespace-only prefix and a whitespace-only suffix and keeps the contiguous middle |
| JsText.TrimHasNoOuterWhitespace | utils/pdfUtils.ts:60 | a trimmed non-empty string starts and ends with a non-whitespace character |
| JsText.TrimEmptyIff | app/index.tsx:91 | `input.trim()` is empty exactly when every character of the input is whitespace |
| JsText.TrimIdempotent | utils/pdfUtils.ts:60 | trimming twice gives the same string as trimming once |
| Chat.CatalogWellFormed | app/index.tsx:6-45 | the two tool names are distinct; in each tool the property names are distinct and every `required` name is a declared property |
| Chat.Interpolate | app/index.tsx:77-82 | a present string argument is shown as itself; other present values use their display text; a missing one shows `undefined` |
| Chat.HandleFunctionCall | app/index.tsx:74-87 | the dispatcher: the definition only; `Chat.WeatherReply`, `Chat.SendEmailIgnoresMessage`, `Chat.UnknownExactlyOutsideCatalog` and `Chat.MissingArgumentsNotRejected` characterise it |
| Chat.WeatherReply | app/index.tsx:76-78 | `get_weather` answers `Weather in <location>: Sunny, 72°F`, and only the location argument affects it |
| Chat.SendEmailIgnoresMessage | app/index.tsx:79-83 | `send_email` answers `Email sent to <email> with subject "<subject>"`; changing `message` does not change the reply |
| Chat.UnknownExactlyOutsideCatalog | app/index.tsx:74-87 | the reply starts with `Unknown function: ` if and only if the name is not a catalog tool; in that case the reply echoes the name |
| Chat.MissingArgumentsNotRejected | app/index.tsx:77-83 | a call with no arguments is not rejected; it interpolates `undefined` for each argument it reads |
| Chat.Prompt | app/index.tsx:104-121 | the completer gets the system prompt, then the history from before the turn, then the user's input once, at the end |
| Chat.CallReplies | app/index.tsx:127-136 | the messages the function-call loop appends: the definition only; `Chat.CallRepliesAt` characterises it |
| Chat.Replies | app/index.tsx:126-145 | what one completion appends: the definition only; `Chat.RepliesShape` characterises it |
| Chat.Outcome | app/index.tsx:104-149 | a failing completer appends nothing, otherwise the completion's replies: the definition only; used by `Chat.Conversation.SendMessage` |
| Chat.CallRepliesAt | app/index.tsx:127-136 | one assistant message per function call, in emission order; each is that call's dispatcher reply |
| Chat.RepliesShape | app/index.tsx:126-145 | with a non-empty call list, one reply per call and no plain response; otherwise exactly the plain response; every reply is an assistant message |
| Chat.Conversation.constructor | app/index.tsx:50-51 | the history and the input field start empty |
| Chat.Conversation.SetInput | app/index.tsx:164-167 | typing replaces the input field and leaves the history alone |
| Chat.Conversation.SendMessage | app/index.tsx:89-150 | blank input changes nothing and calls no completer; otherwise it appends the untrimmed user message, clears the input, calls the completer with the prompt above, then appends the completion's replies, or nothing when the completer fails |
| Chat.Conversation.AppendReplies | app/index.tsx:126-145 | the loop appends exactly the replies of the completion, in order |
| PdfUtils.Describe | utils/pdfUtils.ts:22-28 | uri and name are copied; size is 0 when absent; mimeType is `application/pdf` when absent or empty |
| PdfUtils.PickPdfFile | utils/pdfUtils.ts:11-33 | cancel gives null; a picker error is rethrown; an empty asset list throws; otherwise the first asset is described |
| PdfUtils.DescribeNormalizes | utils/pdfUtils.ts:26-27 | the described MIME type is never empty, and describing an already described file changes nothing |
| PdfUtils.ParsePdf | utils/pdfUtils.ts:41-67 | a null loader result gives the error `Failed to load PDF file` and requests no page; otherwise pages 1..pageCount are each requested once in order, the text is the trimmed accumulation, and numPages is the reported page count |
| PdfUtils.PagesText | utils/pdfUtils.ts:50-57 | the text accumulated over pages 1..n: the definition only; `PdfUtils.PagesTextIsJoin` and `PdfUtils.NoKeptPageNoText` characterise it, and `PdfUtils.ParsePdf`'s loop invariant ties the loop to it |
| PdfUtils.KeptPagesExact | utils/pdfUtils.ts:52-56 | the kept pages are exactly the pages in range whose text is non-null and non-empty, strictly increasing |
| PdfUtils.PagesTextIsJoin | utils/pdfUtils.ts:52-60 | the accumulated text is the kept pages' texts in page order, each followed by a newline; skipped pages add nothing |
| PdfUtils.NoKeptPageNoText | utils/pdfUtils.ts:49-61 | with no page, or no non-empty page, the accumulated text is empty |
| AndroidPdf.ExpoPdfDocument.constructor | modules/expo-pdf-parser/android/src/main/java/expo/modules/pdfparser/ExpoPdfParserModule.kt:12-13 | a new object holds no document |
| AndroidPdf.ExpoPdfDocument.SetPdfDocument | modules/expo-pdf-parser/android/src/main/java/expo/modules/pdfparser/ExpoPdfParserModule.kt:15-17 | the held document becomes the given one; there is no other state |
| AndroidPdf.ExpoPdfDocument.LoadPage | modules/expo-pdf-parser/android/src/main/java/expo/modules/pdfparser/ExpoPdfParserModule.kt:19-34 | null with no document or a page number outside 1..numberOfPages; otherwise the text stripped from page n to page n, null when stripping throws |
| AndroidPdf.ExpoPdfDocument.GetPageCount | modules/expo-pdf-parser/android/src/main/java/expo/modules/pdfparser/ExpoPdfParserModule.kt:36-38 | 0 with no document, else the document's page count |
| AndroidPdf.ExpoPdfDocument.Close | modules/expo-pdf-parser/android/src/main/java/expo/modules/pdfparser/ExpoPdfParserModule.kt:40-43 | the field is cleared unless the document's own `close` throws; in that case the exception propagates and the field is left as it was |
| AndroidPdf.OpenDocument | modules/expo-pdf-parser/android/src/main/java/expo/modules/pdfparser/ExpoPdfParserModule.kt:68-84 | a document results exactly when the URI has a path, the file exists and PDFBox loads it |
| AndroidPdf.LoadPdf | modules/expo-pdf-parser/android/src/main/java/expo/modules/pdfparser/ExpoPdfParserModule.kt:68-84 | null exactly when no document results; otherwise a fresh object holding that document |
| IosPdf.ExpoPdfDocument.constructor | modules/expo-pdf-parser/ios/ExpoPdfParserModule.swift:4-5 | a new object holds no document |
| IosPdf.ExpoPdfDocument.SetPdfDocument | modules/expo-pdf-parser/ios/ExpoPdfParserModule.swift:7-9 | the held document becomes the given one; there is no other state |
| IosPdf.ExpoPdfDocument.LoadPage | modules/expo-pdf-parser/ios/ExpoPdfParserModule.swift:11-25 | a text results only for a held document, 1 <= n <= pageCount and an existing page at zero-based index n-1, and then it is that page's text; in that case the page's text is always returned |
| IosPdf.ExpoPdfDocument.GetPageCount | modules/expo-pdf-parser/ios/ExpoPdfParserModule.swift:27-29 | 0 with no document, else the document's page count |
| IosPdf.Reading | modules/expo-pdf-parser/ios/ExpoPdfParserModule.swift:53-57 | a URI is read as a URL string if and only if it starts with `file://`; otherwise it is a file-system path |
| IosPdf.ResolveUrl | modules/expo-pdf-parser/ios/ExpoPdfParserModule.swift:51-57 | a path always gives `URL(fileURLWithPath:)`; a `file://` string gives whatever `URL(string:)` gives |
| IosPdf.PathsAlwaysResolve | modules/expo-pdf-parser/ios/ExpoPdfParserModule.swift:55-62 | a non-`file://` URI always yields a URL, so only PDFKit can make it fail |
| IosPdf.OpenDocument | modules/expo-pdf-parser/ios/ExpoPdfParserModule.swift:50-62 | a document results exactly when a URL results and PDFKit opens it |
| IosPdf.LoadPdf | modules/expo-pdf-parser/ios/ExpoPdfParserModule.swift:50-67 | nil exactly when URL or document construction fails; otherwise a fresh object holding that document |
| Rag.VectorStore.constructor | utils/rag.ts:21-24 | the store is opened under the given name with the given persisted records |
| Rag.VectorStore.Query | utils/rag.ts:53-56 | the store's search over its current records: the definition only, over the abstract search function |
| Rag.VectorStore.Add | utils/rag.ts:43 | the record is appended, or the call throws and nothing is stored |
| Rag.WithContent | utils/rag.ts:43 | `content` is the chunk and overrides the caller's `content`; every other key is the caller's, and no key is added |
| Rag.Ingested | utils/rag.ts:41-44 | what the ingest loop stores and the error it stops with: the definition only; `Rag.IngestedPrefix` characterises it |
| Rag.IngestedPrefix | utils/rag.ts:41-44 | ingest stores a prefix of the chunks, in order, each once, as `embed(chunk)` with the chunk as content; it stops at the first failing chunk, and it fails if and only if it stored fewer than all chunks |
| Rag.IngestStep | utils/rag.ts:41-44 | an iteration embeds the next chunk and stores its record, or stops with the embedding error or the store's error |
| Rag.IngestStopsAt | utils/rag.ts:41-44 | once chunk i fails, no later chunk is stored and the outcome is that of the first i + 1 chunks |
| Rag.SimpleRag.constructor | utils/rag.ts:9-24 | the store is opened under the name `rag-db-v3` with the previously persisted records |
| Rag.SimpleRag.AddDocument | utils/rag.ts:31-47 | -1, nothing stored and nothing embedded without a store; otherwise the splitter is run with chunkSize 1024 and overlap 100, the ingested records are appended, and the result is the chunk count or the first failure; the embedder is called once per chunk, in order, on every stored chunk plus the failing one, and on no chunk after it |
| Rag.SimpleRag.Search | utils/rag.ts:49-70 | the embedder is called exactly once, on the query, before the store is consulted, and an embedding failure propagates even without a store; no store gives `[]`; otherwise the store is queried with `limit`, 5 by default, and every hit is mapped |
| Rag.ToResults | utils/rag.ts:63-69 | one result per hit, in the same order; id and metadata are kept and distance = 1 - similarity |
| Rag.ResultsPreserveRanking | utils/rag.ts:63-69 | the similarity is recovered from the distance; hits ordered by descending similarity if and only if results ordered by ascending distance |
| VectorDatabase.SortByDistance | utils/database.ts:71-75 | `ORDER BY distance`: the definition only; `VectorDatabase.SortByDistanceSorts` characterises it |
| VectorDatabase.Knn | utils/database.ts:71-79 | `ORDER BY distance LIMIT ?`: the definition only; `VectorDatabase.KnnSelectsNearest` and `VectorDatabase.KnnFindsExactMatch` characterise it |
| VectorDatabase.SortByDistanceSorts | utils/database.ts:72-75 | the ordering is ascending in distance and is a permutation of the table's rows |
| VectorDatabase.KnnSelectsNearest | utils/database.ts:72-78 | the selection has min(limit, rows) rows (all rows for a negative limit), in ascending distance, all taken from the table; no row left out is nearer than a selected row |
| VectorDatabase.KnnFindsExactMatch | utils/database.ts:72-78 | with non-negative distances, a stored row at distance 0 and a non-zero limit, the first answer is at distance 0 |
| VectorDatabase.Database.constructor | utils/database.ts:14-16 | opening a file exposes its persisted vector table and rows; no extension is loaded yet |
| VectorDatabase.Database.LoadExtension | utils/database.ts:24 | the extension is loaded unless loading throws; table and rows are unchanged |
| VectorDatabase.Database.CreateVecTable | utils/database.ts:27-32 | the statement needs the vec0 module; it creates a 384-wide table only when none exists (`IF NOT EXISTS`) and otherwise keeps the existing one |
| VectorDatabase.Database.Insert | utils/database.ts:56-60 | the insert fails on an unusable table, with the missing-module or missing-table error, or on a refused row, and stores nothing; otherwise it appends the row with the next row id, returns that id, and keeps row ids increasing |
| VectorDatabase.Database.Select | utils/database.ts:71-79 | the KNN select: fails without the vec0 module or the table, otherwise answers `Knn` over the stored rows; the definition only |
| VectorDatabase.Database.UnusableError | utils/database.ts:23-35 | the table exists only through `vec0`, so a statement on a table that was never created raises `no such table`; a persisted table without the `vec0` module raises `no such module: vec0` |
| VectorDatabase.MetadataText | utils/database.ts:49 | absent metadata is stored as NULL, present metadata as its JSON text |
| VectorDatabase.ParseMetadata | utils/database.ts:84 | NULL and empty text give null; other text is parsed, and a parse failure throws |
| VectorDatabase.MetadataReadsBack | utils/database.ts:49-84 | with a round-tripping codec, metadata written by `writeEmbedding` reads back unchanged, and absent metadata reads back as null |
| VectorDatabase.ToSimilar | utils/database.ts:82-86 | one answer per row, in the same order, with id = rowid, the parsed metadata and the row's distance; the map throws if and only if some row's metadata does not parse |
| VectorDatabase.SearchAnswersNearestFirst | utils/database.ts:66-86 | a successful search answers at most `limit` rows, and no more than are stored, in ascending distance |
| VectorDatabase.DatabaseModule.constructor | utils/database.ts:3 | the module-level handle starts null |
| VectorDatabase.DatabaseModule.InitDatabase | utils/database.ts:9-45 | an existing handle is returned unchanged and nothing is re-run; a failed open leaves the handle null; otherwise the handle is set before the extension step; the table is created only with the extension present; a throwing extension or table step returns undefined but keeps the handle set |
| VectorDatabase.DatabaseModule.WriteEmbedding | utils/database.ts:47-64 | with a handle already open, the insert's row id or its exception, the metadata serialised or NULL; on a first call, the handle is left null when opening fails and is otherwise the freshly opened one in its initialised state, and the answer is -1 when setup throws, the next row id of the persisted table when sqlite-vec is bundled and the row is accepted, and an exception otherwise |
| VectorDatabase.DatabaseModule.SearchSimilar | utils/database.ts:66-87 | with a handle already open, its selection with `limit` defaulting to 5, mapped row by row, with an error from the query or from parsing propagating; on a first call, the handle is left null when opening fails and is otherwise the freshly opened one; the answer is `[]` when setup throws, the mapped KNN selection over the persisted rows when sqlite-vec is bundled, and otherwise `no such module: vec0` when the table was persisted, or `no such table` when it was not |

## Left out

- The UI is not modelled: the message list, the text field's rendering, and
  the Send button. `setMessages` is a plain sequence update applied when
  `sendMessage` runs.
- The model download effect and the progress screen are not modelled.
- Console logging is not modelled.
- Concurrency is not modelled. Every `await` is one sequential step. The
  un-awaited `vectorStore.load()` in `SimpleRAG.init` is taken as already
  finished: the store holds its persisted records from construction on. A
  call made before `load()` settles is not modelled, and neither are the
  native module registration blocks.
- The completer, the embedder, the text splitter and the vector store's
  similarity search are abstract. No property of chunk sizes, overlap or
  of how similarities are computed is claimed.
- Rag.ResultsPreserveRanking: JavaScript numbers are read as real numbers.
  In IEEE doubles `1 - (1 - s)` need not equal `s`, and two distinct
  similarities can round to one distance. Only the direction from
  descending similarities to ascending distances survives rounding.
- Rag.ToResults: `1 - similarity` is computed on reals, not on doubles.
- The text splitter is a total function: a rejected `splitText` is not
  modelled.
- Strings are sequences of Unicode code points, not of JavaScript's UTF-16
  code units; string lengths and slices are counted in code points.
- `JSON.stringify` and `JSON.parse` are an abstract `Codec`. Serialising the
  vector itself for sqlite-vec (`JSON.stringify(vector)`) is modelled as
  passing the vector.
- PDF text extraction and the file system are abstract functions of
  platform datatypes. The document picker is modelled by the result it
  settles with.
- Chat.Interpolate: a value that is not a string is shown through an
  abstract display text, because template-literal conversion of arbitrary
  values is not modelled.
- Chat.Conversation.SendMessage uses one history value for both the prompt
  and the appends. React's functional state updates could interleave with
  other updates between renders; that is not modelled.
- Function-call `arguments` is assumed always present as a map.
- VectorDatabase.Knn: sqlite-vec does not define the order among rows at
  equal distance. The model fixes one: storage order.
- VectorDatabase.Knn: a negative `LIMIT` is read as SQLite's "no limit".
  Whether sqlite-vec's KNN accepts a negative or zero `k` is not modelled.
- VectorDatabase.Database.Insert: the engine's own insert refusals are an
  abstract predicate. Dimension mismatches and closed-store errors are not
  singled out.
- IosPdf.HasPrefix compares code points, while Swift's `hasPrefix` compares
  grapheme clusters.
- AndroidPdf.ExpoPdfDocument.Close is not reachable from JavaScript in the
  module definition. It is modelled as the class declares it.
- `modules/expo-pdf-parser/src/ExpoPdfParserModule.ts` and
  `modules/expo-pdf-parser/index.ts` are a throwing web stub and a
  pass-through, with no logic. They are not part of this model.
