# RAG chat backend: verified model of its core

This project models, in Dafny, the parts of a retrieval-augmented news chat backend that
decide what it answers and what it stores. The backend is an Express app, its embedding
and session-cache services, and two maintenance scripts.

- **Chat handler** (`src/app.js`). The request check; tokenisation of the message; the
  keyword gate that answers "no match" when no corpus text contains a query token; the
  clamp of `k` to [1, 20]; the numbered reply with title and url fallbacks, a 280-character
  snippet and a reference list.
- **Gemini service** (`src/services/geminiService.js`). Preconditions of the REST calls;
  picking the embedding out of the response shapes in a fixed order; the recursive
  `findFirstArray`; the per-item fallback of `batchEmbeddings`; the SHA-256-derived
  fallback vector; the choice of the `generate` output.
- **Embedding service** (`src/services/embeddingService.js`). The Gemini → OpenAI → local
  chain for one text, and the batch variant that keeps length and order.
- **Session cache** (`src/services/cacheService.js`). A class with the three flags and the
  per-session message lists. It makes at most one Redis connection attempt and switches to
  the in-memory map for good after any Redis failure.
- **Ingestion script** (`scripts/ingestNews.js`). Accepted file shapes; building a document
  from an article through its fallback chains; upserting in consecutive batches of 32.
- **Store dump script** (`scripts/dumpStore.js`). The guard against a missing, empty or
  malformed store; per-document id/title/url/snippet with a 240-character snippet rule; the
  printed lines and the exit code.
- **Search route** (`src/routes/search.js`) and **`requireFields`**
  (`src/middleware/validation.js`). Query validation, the limit default, projection of
  each result, and the first-missing-field check.

Shared modules:

- `wrappers.dfy`: `Option` and `Result`.
- `js.dfy`: JavaScript values after `JSON.parse` as a datatype, plus truthiness, `||`, `??`,
  property reads, `String(x)` and `Number(x)`.
- `text.dfy`: the string built-ins the code uses.
  - `toLowerCase`, `split(/\W+/)`, `replace(/\s+/g, " ")`, `trim`, `slice`, `includes`.
  - Decimal printing of counters.
  - The `forEach(... reply += ...)` loop, written as a method.
- `vectors.dfy`: the fallback vector both embedding services compute.

What the code cannot know is passed in as parameters: the environment, what a foreign call
returned, or a function for a foreign computation. This covers the vector store, `fetch`,
the OpenAI client, Redis, SHA-256, `uuidv4`, number formatting and parsing, and
`JSON.stringify`.

## Model

| member | source | states |
|---|---|---|
| Text.WordsAreLowerWords | src/app.js:135 | every token is non-empty, lower-case and made only of word characters; the tokens in order spell exactly the word characters of the lower-cased text; and they are its maximal runs of word characters (`Runs`, defined by skipping separators one at a time), so they break at every separator |
| Text.SplitNonWordRuns | src/app.js:135 | splitting on runs of non-word characters and dropping the empty pieces gives exactly the maximal word runs |
| Text.WordsBreakAtSeparator | src/app.js:135 | "Ab cd" gives the two tokens "ab" and "cd" |
| Text.NormalizeShape | src/app.js:216 | collapsing white space and trimming leaves no white space but single spaces, none at either end, and keeps every other character in order |
| Text.NormalizeShorter | scripts/dumpStore.js:46 | collapsing and trimming never lengthens a text |
| Text.IncludesIff | src/app.js:165 | `includes` holds exactly when the token occurs at some position of the text |
| Text.NatToStringRoundTrip | src/app.js:217 | the printed item number reads back as the number |
| Text.AppendEach | src/app.js:213-218 | appending each piece in turn to a head gives the head followed by the pieces in order |
| Vectors.ByteValue | src/services/geminiService.js:168-169 | a byte maps into [-1, 1], with 0 at -1 and 255 at 1 |
| Vectors.ByteValueRoundTrip | src/services/geminiService.js:169 | the byte can be recovered from its value, so distinct bytes give distinct entries |
| Vectors.SpreadShape | src/services/geminiService.js:165-172 | every entry lies in [-1, 1], entry i comes from digest byte i mod 32, and the vector repeats with period 32 |
| Vectors.SpreadPrefix | src/services/geminiService.js:167 | vectors of two lengths from the same digest agree on their common prefix |
| Vectors.LocalVectorOfText | src/services/geminiService.js:166 | texts that print alike get the same vector, and a falsy text gets the vector of the empty string |
| Chat.Tokenize | src/app.js:133-136 | a falsy text gives no tokens; otherwise the tokens are the maximal word-character runs of the lower-cased text, in order: non-empty, lower-case, and spelling its word characters |
| Chat.CountDocsWithToken | src/app.js:161-169 | the loop counts the corpus texts that match |
| Chat.MatchCountMeaning | src/app.js:163-167 | the count is the number of corpus positions whose lower-cased text includes some non-empty query token |
| Chat.MatchCountBounds | src/app.js:161-169 | the count lies between 0 and the corpus size, is 0 without query tokens, and is 0 exactly when no text matches |
| Chat.TopK | src/app.js:184-186 | the limit lies in [1, 20]; a finite k is clamped into it; a non-finite k gives 5 |
| Chat.TopKIdempotent | src/app.js:184-186 | clamping a clamped limit changes nothing |
| Chat.TitleFallback | src/app.js:214 | the title is `meta.title` when truthy, else `meta.original.title` when truthy, else "Untitled", so it is always truthy |
| Chat.UrlFallback | src/app.js:215 | the url is `meta.url`, else `meta.original.url`, else the given placeholder (null in items, "#" in references) |
| Chat.SnippetShape | src/app.js:216 | the snippet has at most 280 characters, is a prefix of the collapsed and trimmed text (all of it when that fits), starts with no white space, and has only single spaces |
| Chat.ReplyLayout | src/app.js:212-218 | the reply opens with the count line, and the line for result i, numbered i + 1, comes right after the lines of the results before it |
| Chat.FormatReply | src/app.js:212-225 | the two `forEach` loops build exactly the count line, the numbered items, the closing text and the references |
| Chat.HandleMessage | src/app.js:110-242 | 400 exactly when the session id is falsy or the message is missing; for a valid request: the fixed no-match reply with no documents and no search when the corpus is non-empty and nothing matches; otherwise, with `topK` the clamp of `Number(k)`, the no-results reply when the search is missing, throws or returns no documents; a 500 "failed to process message" exactly when some returned document cannot be printed; and otherwise the formatted reply over exactly the returned documents, with `topK` as the search limit |
| Gemini.Precheck | src/services/geminiService.js:41-42 | a call gets past the checks exactly when a key is set and fetch is available |
| Gemini.FindFirstArray | src/services/geminiService.js:175-189 | a non-object gives nothing; anything found is a non-empty array starting with a number, and it occurs inside the value |
| Gemini.FindFirstArrayFinds | src/services/geminiService.js:175-189 | the search finds something exactly when some non-empty numeric array occurs in the value |
| Gemini.FindInValuesOrder | src/services/geminiService.js:178-185 | keys are tried in order: the first value holding a numeric array decides the result, and a direct numeric array is returned itself |
| Gemini.EmbeddingOfMeaning | src/services/geminiService.js:123-142 | a result is an array occurring in the response; it fails exactly on a falsy body or a body with no known shape and no numeric array; a falsy body gives the empty-response error |
| Gemini.EmbeddingOfPriority | src/services/geminiService.js:125-142 | the shapes are tried in the fixed order `embeddings[0].embedding`, `embedding.value`, `data[0].embedding`, `output[0].embedding`, each winning when every earlier one is absent; a known shape always gives one of those four values; only when none applies does `findFirstArray`'s result come back |
| Gemini.GetEmbeddingMeaning | src/services/geminiService.js:100-143 | missing key and missing fetch errors come first, a rejected fetch passes its error, a non-ok answer gives the status error, and any result is an array from an ok answer's body; a body holding a numeric array always gives a result |
| Gemini.DimOr512 | src/services/geminiService.js:157 | `opts.dim \|\| 512` is positive and is the given dimension when that is non-zero |
| Gemini.BatchMeaning | src/services/geminiService.js:146-161 | it fails exactly on a defined non-array input; otherwise it has one vector per text, in order; an item whose call succeeded holds that answer, and one whose call failed holds that text's fallback vector of the right length with entries in [-1, 1] |
| Gemini.BatchEmbeddings | src/services/geminiService.js:146-161 | the loop produces the batch result above |
| Gemini.JoinTexts | src/services/geminiService.js:81 | joining the content parts throws exactly when some part is null or undefined |
| Gemini.GenerateOutputMeaning | src/services/geminiService.js:71-93 | a string `candidates[0].content` is returned as it is; the output is truthy or the stringified response; a response with no usable shape gives the stringified response; only a null part in an array content throws |
| Gemini.GenerateMeaning | src/services/geminiService.js:40-94 | the key and fetch errors, the status error, and on an ok answer exactly the output selected from its body |
| EmbeddingService.DimOrDefault | src/services/embeddingService.js:13 | a missing dimension is 512, a given one is kept |
| EmbeddingService.LocalEmbedShape | src/services/embeddingService.js:13-22 | the local vector has the requested length, entries in [-1, 1] from digest byte i mod 32, and equals the Gemini service's fallback vector |
| EmbeddingService.TryOpenAIMeaning | src/services/embeddingService.js:24-34 | a missing key throws the key error; a response without `data[0].embedding` gives null; any other result occurs in the response |
| EmbeddingService.FirstUsableMeaning | src/services/embeddingService.js:37-56 | the chain returns the first attempt whose result is a non-empty array |
| EmbeddingService.FirstUsableFallback | src/services/embeddingService.js:54-55 | when no attempt gives a non-empty array, the chain returns the local vector |
| EmbeddingService.GetEmbeddingMeaning | src/services/embeddingService.js:37-56 | as written, the result is the OpenAI array when that is a non-empty array, and otherwise the local vector of length `dim \|\| 512`; it never throws |
| EmbeddingService.GetEmbeddingIntendedMeaning | src/services/embeddingService.js:37-56 | with the Gemini call bound to the imported service: the Gemini array, else the OpenAI array, else the local vector |
| EmbeddingService.GeminiAnswerIgnored | src/services/embeddingService.js:39-44 | a Gemini answer is returned by the intended chain and never by the chain as written |
| EmbeddingService.BatchMeaning | src/services/embeddingService.js:59-91 | a non-array or empty input gives []; otherwise one array per text in order. When the Gemini batch came back with one entry per text, an array entry is kept and any other entry becomes that text's local vector. Otherwise each position is that text's OpenAI answer when it is an array, and the local vector when it is not or the call failed |
| EmbeddingService.OpenAILoop | src/services/embeddingService.js:75-86 | the loop pushes, per text in order, its OpenAI array or its local vector |
| EmbeddingService.BatchEmbeddings | src/services/embeddingService.js:59-91 | the method computes the batch result above |
| EmbeddingService.GeminiBatchAlwaysAccepted | src/services/embeddingService.js:62-68 | the Gemini batch always answers with one item per text, so its items are kept and only non-array items are replaced by local vectors |
| Cache.KeyForSession | src/services/cacheService.js:45-47 | the key is the session id framed by 16 fixed characters |
| Cache.KeyForSessionInjective | src/services/cacheService.js:45-47 | different printed ids never share a Redis key (ids that print alike, such as `1` and `"1"` or any two objects, do share one) |
| Cache.Push | src/services/cacheService.js:65-67 | the message goes to the end of that session's list, and every other session's list is unchanged |
| Cache.Delete | src/services/cacheService.js:97 | that session's list is gone, and every other session's list is unchanged |
| Cache.AppendThenRead | src/services/cacheService.js:49-82 | appending a message and reading the session back gives the old history plus the message whenever the read goes to the map or every Redis call succeeds; when only the read fails after a successful Redis append, the map's history comes back without the message |
| Cache.SessionCache.constructor | src/services/cacheService.js:8-11 | no client, no flags set, an empty map |
| Cache.SessionCache.TryConnectRedis | src/services/cacheService.js:14-39 | once memory is in use or an attempt was made, nothing changes; otherwise exactly one attempt, and a failure switches to memory with no client |
| Cache.SessionCache.AppendMessage | src/services/cacheService.js:49-68 | a falsy session id throws; a falsy message changes nothing; on Redis the message is pushed to the session's list; when Redis is not in use or fails, the message goes to the end of the session's list in the map; only a Redis failure switches to memory, and for good |
| Cache.SessionCache.GetSessionHistory | src/services/cacheService.js:70-83 | a falsy session id gives []; the Redis list while Redis works; otherwise the map's list ([] for an unknown session); a failed read switches to memory |
| Cache.SessionCache.ClearSession | src/services/cacheService.js:85-98 | a falsy session id changes nothing; on Redis the key is deleted; otherwise exactly that session leaves the map; only a failed delete switches to memory |
| Cache.FallbackScenario | src/services/cacheService.js:14-83 | with Redis unreachable, a second connection is never attempted and two messages read back in order from the map, with Redis untouched |
| Ingest.LoadArticles | scripts/ingestNews.js:15-21 | a top-level array is used as it is, else an `articles` array, else the format error |
| Ingest.ChainsPickFirstTruthy | scripts/ingestNews.js:25-26 | title and content are the first truthy of their fallback chains, in the source's order, ending in "" |
| Ingest.MakeDocId | scripts/ingestNews.js:23-24 | a null article throws; the id is the article's truthy id or the fresh one |
| Ingest.MakeDocText | scripts/ingestNews.js:27 | the text is `title + "\n\n" + content` without its surrounding white space |
| Ingest.MakeDocMeta | scripts/ingestNews.js:29-34 | meta keeps the title chain and the original article; `url` is the first truthy of `a.url`, `a.source_url`, else null, and `publishedAt` the first truthy of `a.publishedAt`, `a.date`, else null |
| Ingest.MakeDocs | scripts/ingestNews.js:55 | one document per article in order, or a TypeError exactly when some article is null |
| Ingest.BatchesShape | scripts/ingestNews.js:60-61 | the batches put back together are the documents in order; each holds 1 to 32 documents, all but the last exactly 32; there are ceil(n / 32) of them |
| Ingest.BatchesFromShape | scripts/ingestNews.js:60-61 | the same, for the batches from any offset |
| Ingest.StoredFromAll | scripts/ingestNews.js:63-71 | when every upsert succeeds all documents are stored, and when every upsert fails none are, with the loop running on |
| Ingest.UpsertInBatches | scripts/ingestNews.js:60-72 | the loop sends exactly the batches above and stores the documents of the batches whose upsert succeeded |
| Ingest.RunIngestion | scripts/ingestNews.js:41-83 | exit code 0 exactly when the file loads, the store initialises and every article gives a document, and then all batches were sent; otherwise exit code 1 with nothing sent |
| Dump.SnippetShape | scripts/dumpStore.js:46 | the snippet is the first 240 characters collapsed and trimmed, plus "..." exactly when the text was longer; at most 243 characters; a short text loses only white space |
| Dump.MetaField | scripts/dumpStore.js:43-44 | title and url are `meta.*` when truthy, else `meta.original.*` when truthy, else "" |
| Dump.RecordOfMeaning | scripts/dumpStore.js:41-46 | a document fails exactly when it is null or its text is truthy but not a string; otherwise it is numbered i + 1, keeps a truthy id or gets `doc-<i + 1>`, and a document with no text gets an empty snippet |
| Dump.RecordLinesShape | scripts/dumpStore.js:48-52 | an entry is 3 to 5 lines: the numbered id line first, a title and a url line only when those are truthy, then the snippet line and the separator |
| Dump.OkRun | scripts/dumpStore.js:41-53 | `forEach` gets through the documents before the first one that throws, and no further |
| Dump.MainMeaning | scripts/dumpStore.js:7-65 | exit code 1 exactly when initialisation fails, the file is not JSON, or some document throws; a missing or empty file exits with 0 |
| Dump.MainListing | scripts/dumpStore.js:32-53 | a non-empty list is announced with its size and listed entry by entry, documents numbered by position, up to the first that throws |
| Dump.ListingLength | scripts/dumpStore.js:41-53 | each listed document takes 3 to 5 lines |
| SearchRoute.Limit | src/routes/search.js:15 | the limit is `Number(k)` when that is neither 0 nor NaN, else 5, so never 0 or NaN |
| SearchRoute.SnippetOfMeaning | src/routes/search.js:26 | the snippet is a prefix of the text, at most 400 long; a missing text gives ""; only a truthy text that is neither string nor array throws |
| SearchRoute.ProjectMeaning | src/routes/search.js:21-27 | a result projects exactly when it is not null and its text can be sliced; the id is kept, the score defaults to 0, and title and url default to null |
| SearchRoute.ProjectAll | src/routes/search.js:21 | the projection keeps length and order, and fails exactly when some result fails |
| SearchRoute.HandleValidation | src/routes/search.js:11-19 | 400 with the fixed error exactly when the query is not a non-empty string, and then the search is never consulted; otherwise the answer depends on the search only through its answer for this query and limit |
| SearchRoute.HandleOutcome | src/routes/search.js:9-34 | the status is 200, 400 or 500; 200 exactly when the search returns an array whose results all project, and the body is those projections in order; a 500 carries the fixed error |
| Validation.CheckNext | src/middleware/validation.js:1-8 | the request goes on exactly when there are no fields or every field is present (null, 0 and "" count as present); it throws exactly on a null body with fields to check |
| Validation.CheckFirstMissing | src/middleware/validation.js:3-4 | when field i is the first whose value is undefined, the answer is 400 naming field i, and later fields play no part |
| Validation.CheckAnswers | src/middleware/validation.js:3-4 | every 400 names a missing field all of whose predecessors are present |

## Left out

- The vector store is not part of this model. `initVector`, `upsertDocuments`, `search` and `_getAllDocs` come from `src/services/vectorService.js`, which does not define them. Their results enter as inputs: the corpus texts, the search outcome, per-batch upsert success and an initialisation flag.
- In `src/app.js`, four pieces are not modelled:
  - the corpus loading at 141-157, including the file-read fallback at 147-153 (the corpus texts are an input);
  - `tryAppendCache`, which is a fire-and-forget call with a timeout;
  - `makeSessionId`, which depends on the clock and on randomness;
  - the Express wiring and the logging.
- `toLowerCase` is modelled on ASCII letters only. Other characters are left unchanged.
- String lengths count characters, while JavaScript counts UTF-16 code units. This matters for the 240, 280 and 400 limits on text outside the Basic Multilingual Plane.
- The engine provides `String(number)`, `Number(string)` and `JSON.stringify`. The model takes them as functions in a `Runtime` parameter.
- Vector entries are exact rationals. The engine's double rounding is not modelled.
- In Redis, messages are stored as `JSON.stringify` text and read back with `JSON.parse`. The model stores the values themselves and assumes that round trip is exact.
- `expire` and the TTL belong to Redis. Only whether the call succeeds is modelled.
- The model does not capture the connection URL, the client's `error` listener, or interleaving between concurrent async calls. Each cache method runs to completion.
- The fetch polyfill loaded at module start (`src/services/geminiService.js:16-28`) is reduced to a `hasFetch` flag.
- The model, temperature and token options are not modelled, and neither is URL building. They only shape the outgoing request.
- An unparseable response body appears as `null`, which is what `resp.json().catch(() => null)` gives.
- The `gemini && typeof gemini.batchEmbeddings === "function"` check (`src/services/embeddingService.js:63`) always holds for the imported module, so it is not modelled.
- The final `texts.map(localEmbed)` handler (`src/services/embeddingService.js:87-90`) is not modelled. It cannot be reached, because the loop above it catches every per-item error.
- Dimensions are natural numbers. `new Array(dim)` with a negative or fractional `dim` throws a RangeError, and that case is not modelled.
- The model's `Lookup` takes the first value under a duplicated key, while `JSON.parse` keeps the last. Parsed bodies with duplicate keys are therefore not modelled faithfully.
- The in-memory store is keyed by value: two session ids that are equal objects or arrays share one history in the model. A JavaScript `Map` compares objects and arrays by reference, so in the source they never share one. The session id comes straight from the request body, so it can be an object.
- Property reads on strings and arrays give `undefined`, except for `First` (`?.[0]`). For example, the `length` of a string is not modelled.
- `Validation.Check`: a thrown TypeError is returned as `Threw`. The 500 that Express's default error handler then sends is not modelled.
- The response serialisation in the search route is not modelled. `res.json` drops a missing `id` field, but the model keeps it as `undefined`.
- Standard-error output of the scripts is not modelled, and neither is the ingestion script's logging.
- `Chat.HandleMessage`: a result that cannot be printed is detected before the reply is built. The source instead throws partway through the loop. Both discard the partial reply and answer 500.

## Findings

| source | as written | input that shows it | evidently intended | confidence | as-written member | corrected member |
|---|---|---|---|---|---|---|
| src/services/embeddingService.js:40 | `geminiService.getEmbedding(...)` names an identifier that is never bound (line 5 imports the service as `gemini`). The call throws a ReferenceError, and the catch at 42-44 swallows it, so the Gemini step never contributes. | no OpenAI key, and Gemini would answer `[0.5]`: the intended chain returns `[0.5]`, while the chain as written returns the local vector (`EmbeddingService.GeminiAnswerIgnored`) | call the imported `gemini.getEmbedding`, so the chain is Gemini, then OpenAI, then local | high; not executed | EmbeddingService.GetEmbedding | EmbeddingService.GetEmbeddingIntended |
