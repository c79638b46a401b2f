# Embedding simulator — a Dafny model of its core

The embedding simulator is a small Next.js application that stores
question/answer records together with an embedding vector from a hosted
language-model service in a MongoDB collection, and finds the stored records
closest to a new question. This project models the decision logic of that
core and proves what it guarantees:

- `HomePage` (pages/index.tsx): the binary-file test, the CSV ingestion loop
  of `analyzeFile`, with its line filter (exactly one comma, fewer than 2000
  UTF-16 code units), its question/answer split, its saves and its progress
  counters; the guard chain of `handleSingleRecord`; `insertMongoRecord`'s
  snackbar messages; and the `-2` sentinel of `getVectorsCount`, with the rule
  that turns a count into what the page shows. The page state that its
  handlers change is a class, `Home`. The records posted to the save endpoint
  are its field `inserted`.
- `NearestVectors` (pages/api/getNearestVectors.ts): the request handler's
  type checks and its 400/200/500 answers. It also models the aggregation
  pipeline, which gives each record a distance to the input vector, sorts by
  distance in ascending order and keeps at most `limit` records. Numbers,
  null and missing elements of the input vector behave as they do in MongoDB,
  including that `$add` reads no element after the running sum turns null;
  every other element that is read is taken as a literal that fails the
  aggregation.
- `OpenAi` (lib/openAi.ts): `generateVector`, which retries up to `MAX_RETRY`
  (10000) times; `generateText`, which checks the shape of the response; and
  `generateAnswer`, which builds a request of two messages.
- `JsStrings`: the JavaScript string built-ins the page relies on: the match
  count of a one-character regular expression, `split`, `join`, `trimEnd`, and
  `length` in UTF-16 code units.
- `Wrappers`: `Option` and `Result`.

Calls into code outside the model are parameters. These are the embedding
and chat services, the save and count endpoints, and the MongoDB collection.
Each is a function from the request to its outcome.

Two consequences of the source, as written, are stated as lemmas:

- A line feed is a control character, so `isBinary` rejects every text that
  has more than one line. `analyzeFile` therefore saves at most one record
  (`NonBinaryIsOneLine`, `AnalyzedTextYieldsAtMostOneRecord`).
- When auto-generation is off, `handleSingleRecord` saves the record with a
  null answer. It requires a typed answer but never uses it (`SingleRecord`).

## Model

| member | source | states |
|---|---|---|
| JsStrings.Count | pages/index.tsx:227 | the number of matches of `/,/g` is the number of times the comma occurs in the line (with `CountIsMultiplicity`) |
| JsStrings.CountIsMultiplicity | pages/index.tsx:227 | the match count equals the multiplicity of the character in the string |
| JsStrings.Join | pages/index.tsx:222 | the joined string starts with the first part, and joining parts free of the separator puts exactly one separator between neighbours |
| JsStrings.SplitOn | pages/index.tsx:222 | `split` gives one piece more than there are separators, and no piece contains the separator |
| JsStrings.JoinSplit | pages/index.tsx:234 | joining the pieces of a split with the separator gives back the original string |
| JsStrings.SplitAtOnlySeparator | pages/index.tsx:227-234 | a line with exactly one comma splits into the text before and the text after it, and neither contains a comma |
| JsStrings.TrimEnd | pages/index.tsx:238 | `trimEnd` returns a prefix that does not end in white space, and everything it cuts off is white space |
| JsStrings.TrimEndIdempotent | pages/index.tsx:238 | trimming a trimmed string changes nothing |
| JsStrings.Utf16Length | pages/index.tsx:231 | `length` counts between one and two units per character, and is zero only for the empty string |
| HomePage.IsBinary | pages/index.tsx:302-305 | true exactly when some character is in U+0000..U+001F |
| HomePage.NonBinaryIsOneLine | pages/index.tsx:217-222 | a text that passes the binary test has no line feed, so `split("\n")` gives the text alone |
| HomePage.AnalyzedTextYieldsAtMostOneRecord | pages/index.tsx:217-249 | for a non-binary text the loop saves at most one record: the whole text's record, if the text passes the filter and its calls succeed |
| HomePage.IsProcessed | pages/index.tsx:226-233 | a line is processed exactly when it splits at commas into two pieces and is under 2000 UTF-16 units, so it is under 2000 characters |
| HomePage.Question | pages/index.tsx:234-235 | the question is the prefix before the only comma and contains no comma |
| HomePage.AnswerPart | pages/index.tsx:234-238 | the line is the question, then a comma, then the answer part, which contains no comma |
| HomePage.ProcessLine | pages/index.tsx:234-241 | the record has the question as text and its embedding as vector; its answer is the trimmed answer part when that part is non-empty, and the generated answer otherwise; there is no record exactly when a call it awaits rejects |
| HomePage.Processed | pages/index.tsx:225-233 | the lines kept by the filter all pass it, and there are no more of them than lines |
| HomePage.ProcessedContents | pages/index.tsx:225-233 | the filter keeps exactly the lines that pass it, each as often as it occurs in the file, and nothing else |
| HomePage.ProcessedAppend | pages/index.tsx:225-233 | the filter keeps file order: filtering two pieces of a file and concatenating gives the filtered file |
| HomePage.Ingest | pages/index.tsx:225-249 | the loop saves at most one record per line |
| HomePage.IngestRecordsComeFromFile | pages/index.tsx:225-249 | each record the loop saves was built by `ProcessLine` from a line of the file that passes the filter |
| HomePage.IngestFollowsProcessedLines | pages/index.tsx:225-249 | the j-th saved record is the one built from the j-th processed line; the run either covers every processed line or stops at the first line whose calls rejected |
| HomePage.IngestAfterAbort | pages/index.tsx:235-243 | once a call has rejected, the remaining lines change nothing |
| HomePage.Percent | pages/index.tsx:248 | the percentage is the integer nearest to 100·done/total, with halves rounded up, and lies in 0..100 while done ≤ total |
| HomePage.PercentEnds | pages/index.tsx:244-248 | the percentage is 0 when no line is done and 100 when every line is done |
| HomePage.PercentMonotone | pages/index.tsx:244-248 | more lines done never gives a smaller percentage |
| HomePage.IsSet | pages/index.tsx:262 | defines JavaScript truthiness of a setting: neither null nor the empty string |
| HomePage.AfterSave | pages/index.tsx:261-282 | a refused save leaves the save error showing; an accepted save leaves the settings warning when a setting is missing, and the snackbar unchanged otherwise |
| HomePage.AfterSaves | pages/index.tsx:251-282 | defines the snackbar after a run of saves as `AfterSave` applied after each save in turn |
| HomePage.AfterSavesReports | pages/index.tsx:225-282 | the snackbar is unchanged when nothing was saved, or every save was accepted with both settings present; a refused save is reported unless a later settings warning replaced it; with a setting missing, some message is showing after any save |
| HomePage.AfterSavesStep | pages/index.tsx:261-282 | the snackbar after a run of saves is what `insertMongoRecord` leaves after each save in turn |
| HomePage.SingleRecord | pages/index.tsx:194-199 | the record holds the question and its embedding, with the generated answer when auto-generation is on and a null answer otherwise; there is no record exactly when a call rejects |
| HomePage.GetVectorsCount | pages/index.tsx:252-259 | the count is -2 with no request exactly when a Mongo setting is null; otherwise the endpoint is asked with both settings, and its count is returned |
| HomePage.DisplayCount | pages/index.tsx:316-321 | the count is hidden exactly when it is ≤ -2, a connection error is shown exactly when it is -1, and otherwise the count itself is shown |
| HomePage.EmptySettingCountsButWarns | pages/index.tsx:253-265 | with an empty Mongo setting the page still requests the count, yet treats the settings as missing on every save |
| HomePage.UnconfiguredCountIsHidden | pages/index.tsx:252-253 | without both Mongo settings no request is made and no count is shown |
| HomePage.Home.constructor | pages/index.tsx:44-63 | the page starts with an empty closed snackbar, zero counters, no loading and nothing saved |
| HomePage.Home.MongoConfigured | pages/index.tsx:262 | defines the negation of the settings test at this line as both settings truthy; its ensures adds that neither is then null |
| HomePage.Home.FetchVectorsCount | pages/index.tsx:69-72 | the stored count is what `getVectorsCount` resolves to; it is -2 exactly when a setting is null or the endpoint answered -2 |
| HomePage.Home.InsertMongoRecord | pages/index.tsx:261-282 | the record is posted whatever the settings are; a missing setting shows the settings warning, and a rejected save then shows the save error |
| HomePage.Home.AnalyzeLine | pages/index.tsx:234-243 | the record saved for a line is `ProcessLine`'s record; nothing is saved when a call rejects |
| HomePage.Home.AnalyzeStep | pages/index.tsx:226-248 | one pass of the loop: it stops, changing nothing, exactly when `Ingest` over one more line aborts; otherwise the saved records, snackbar, counters and percentage match `Ingest` over one more line |
| HomePage.Home.RecordLine | pages/index.tsx:234-248 | for a line passing the filter: stops, changing nothing, exactly when a call rejects; else appends the record, updates the snackbar as `AfterSaves` does and sets the counters and percentage |
| HomePage.Home.AnalyzeLines | pages/index.tsx:222-249 | the records saved are those of `Ingest`, in order; the counters and percentage reflect the last save; the loop stops at the first rejection |
| HomePage.Home.AnalyzeFile | pages/index.tsx:208-250 | nothing changes without an API key; a binary text is reported and nothing is saved; otherwise one record is saved per processed line with the counters updated; the counters stay in 0..total and the percentage in 0..100 |
| HomePage.Home.HandleSingleRecord | pages/index.tsx:175-202 | the checks run in order (API key, question, answer when auto-generation is off) and nothing is saved when one fails; otherwise `SingleRecord`'s record is saved and loading ends, and a rejected call leaves the page loading |
| OpenAi.Succeeded | lib/openAi.ts:83-85 | defines an attempt that ends the loop: it has `data`, and `data.data` has a first entry |
| OpenAi.GenerateVector | lib/openAi.ts:63-97 | a null or empty key fails with "API key is not set." and makes no request; otherwise 1..MAX_RETRY identical embedding requests are made and every one before the last failed; the result is the last response's first embedding, with the text unchanged and a null answer, or "MAX_RETRY times exceeded." after exactly MAX_RETRY failures |
| OpenAi.HasFirstChoice | lib/openAi.ts:38-42 | defines the response test of `generateText`: `choices` is present and non-empty, and the first message is not null |
| OpenAi.GenerateText | lib/openAi.ts:22-52 | the content of the first choice's message, and a failure exactly when the request threw, `choices` is missing or empty, or the first message is null or undefined |
| OpenAi.AnswerMessages | lib/openAi.ts:103-116 | exactly two messages: the fixed system instruction, then the user's text unchanged |
| OpenAi.GenerateAnswer | lib/openAi.ts:99-119 | the request holds exactly two messages, the fixed system instruction and then the user's text; the answer is what `generateText` returns for them |
| NearestVectors.DistanceLe | pages/api/getNearestVectors.ts:44 | the `$sort` order: null is below everything and only null is below null, and numbers compare by value |
| NearestVectors.DistanceLeTotal | pages/api/getNearestVectors.ts:44 | the order is total and transitive, and null comes before every distance, with only null at or below null |
| NearestVectors.ElementAt | pages/api/getNearestVectors.ts:31 | an index inside the input gives that element, and an index past its end gives a missing value |
| NearestVectors.SquaredDifference | pages/api/getNearestVectors.ts:27-35 | a number gives the square of the difference; null or missing gives null; anything else fails the aggregation |
| NearestVectors.AddTerm | pages/api/getNearestVectors.ts:24-37 | the sum is a number exactly when both operands are numbers, and then it is their sum, never below the accumulator |
| NearestVectors.ReduceTo | pages/api/getNearestVectors.ts:20-39 | once the running sum is null no later element is read; the reduce fails exactly when its first element that is not a number is neither null nor missing; its sum is a number exactly when every element it reads is a number |
| NearestVectors.NullElementEndsReading | pages/api/getNearestVectors.ts:20-39 | a null or missing element read while the sum is a number makes the distance null, whatever follows it |
| NearestVectors.NullBeforeTextIsNotAnError | pages/api/getNearestVectors.ts:15-64 | the input `[null, "x"]` against a stored `[1, 2]` with limit 1 answers 200 with that record at a null distance |
| NearestVectors.DistanceOf | pages/api/getNearestVectors.ts:18-41 | a numeric distance needs an input at least as long as the stored vector, with numbers at all of the stored vector's indices |
| NearestVectors.NumericDistance | pages/api/getNearestVectors.ts:18-41 | with a numeric input at least as long as the stored vector, the distance is the sum of squared differences over the stored vector's indices |
| NearestVectors.ShortInputGivesNullDistance | pages/api/getNearestVectors.ts:20-37 | a numeric input shorter than the stored vector gives a null distance, which sorts first |
| NearestVectors.ZeroDistanceIffMatch | pages/api/getNearestVectors.ts:18-41 | the squared distance is zero exactly when the input starts with the stored vector |
| NearestVectors.ExactMatchIsClosest | pages/api/getNearestVectors.ts:18-44 | a record whose vector equals the input has distance zero, and no numeric distance is smaller |
| NearestVectors.AddDistances | pages/api/getNearestVectors.ts:15-43 | every record keeps its place and gets its own distance; the stage fails exactly when some record's distance fails |
| NearestVectors.Insert | pages/api/getNearestVectors.ts:44 | inserting into a sorted list keeps it sorted and adds exactly that record |
| NearestVectors.SortByDistance | pages/api/getNearestVectors.ts:44 | the result is in non-decreasing order of distance and is a permutation of the input |
| NearestVectors.GetNearestVectors | pages/api/getNearestVectors.ts:6-51 | the lookup fails exactly when the limit is not positive or some record's distance fails |
| NearestVectors.PrefixBeforeRest | pages/api/getNearestVectors.ts:44-45 | what `$limit` keeps of a sorted list is no farther than anything it drops |
| NearestVectors.TakeSorted | pages/api/getNearestVectors.ts:44-45 | the first k of the sorted records are k records in distance order, drawn from the input with multiplicity, none farther than any record left out |
| NearestVectors.NearestVectorsSpec | pages/api/getNearestVectors.ts:15-48 | a successful lookup returns min(limit, number of records) records, sorted by distance; each is a stored record carrying its own distance, none is repeated beyond its stored count, and every record left out is at least as far as every record returned |
| NearestVectors.WellTyped | pages/api/getNearestVectors.ts:59-64 | defines the type test: both settings are strings, the input vector is an array, and the limit is a number |
| NearestVectors.Handle | pages/api/getNearestVectors.ts:53-84 | 400 with the invalid-request message exactly when a field has the wrong type; otherwise 200 with the lookup's records, or 500 with the lookup-failed message when the database cannot be reached or the aggregation fails |

## Left out

- The React rendering, the dialogs, the dropzone and the settings hook (`useSettings`). The three settings are constructor parameters of `Home`.
- `handleSimulate`, `fetchNearestVectors`, `handleTruncateVectors` and `handleEmbedding`'s `FileReader` callbacks (load start, progress, abort, error). They only wire I/O around the modelled operations. The nearest-vector request itself is modelled on the server side.
- The endpoints pages/api/getVectorsCount.ts, saveVector.ts and truncateVectors.ts, together with lib/mongoDbClient.ts, lib/saveEmbeddingToMongo.ts and the legacy lib/openai.ts, are not part of this model. Their answers are parameters: the count, whether a save was accepted, and the records of the collection.
- Asynchrony: `analyzeFile` and the re-fetches of the count are started without `await`, so their effects can interleave with other handlers. The model runs each handler to completion. It does not model the count re-fetch after a save.
- `sleep(RETRY_INTERVAL)` between embedding attempts. It is not awaited, so it never delays the loop, and timing is not modelled.
- OpenAi.GenerateText: the API key argument is accepted but not modelled. It only configures the HTTP client.
- Floating point: vector elements, the input vector and `limit` are integers. Non-integer numbers, NaN and the rounding error of `Math.round((currentLine / totalLines) * 100)` are not modelled; `HomePage.Percent` computes the exact rational rounding.
- NearestVectors.SquaredDifference: MongoDB evaluates each element of the literal input array as an expression. A string starting with `$` is a field path or a variable (for instance `"$$this"` is the reduce index, and a missing field gives null), and an object can be an operator such as `$literal`. The model treats every element that is not a number, null or missing as a non-numeric literal that fails the aggregation, so for such inputs it answers 500 where MongoDB may answer 200.
- NearestVectors.AddDistances: the distance is kept squared. `$sqrt` is monotone, so the order and the records returned are the same, but the `distance` value in the response is the square of the real one.
- NearestVectors.SortByDistance: MongoDB does not specify the order of records with equal distances. The model uses a stable insertion sort, which is one of the orders MongoDB may produce.
- Stored records without a `vector` array, where `$size` fails, are not modelled. The disconnect after a failed aggregation is not modelled either.
- Console logging.
