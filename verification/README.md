# Word-count import and aggregation, modelled in Dafny

The system reads a text file line by line. It stores per-chunk word counts in
a MongoDB collection. It then totals the counts per word, in one of two
ways. This project models the two halves of that core.

- **The chunked importer** (`Importer.importInChunks`, `saveChunkDocument`,
  `cleanData`):
  - a line is lower-cased and split on every character outside `a`..`z`,
    and empty pieces are dropped;
  - words are counted in a running map;
  - the first `skipLines` lines are skipped, and at most `limitLines` lines
    are read, where 0 means "all";
  - each time the line counter reaches a multiple of a positive `chunkSize`,
    a record `{source, id?, chunkNo, chunkSize, words}` is written and the
    map starts afresh;
  - a non-empty leftover map is written at the end.

  `cleanData` deletes the records of the importer's source. When the
  importer has a server id, it deletes only the records that carry that id.
- **The aggregator** (`Aggregator.aggregate`, `Aggregator.mapReduce`). The
  first is the pipeline `$match` on source, `$unwind` of the words, then
  `$group` by word summing `cnt`. The second is the JavaScript
  mapper/reducer pair: emit `(word, cnt)` per entry, reduce with
  `Array.sum`.

The collection is an in-memory sequence of records, and the input file is a
sequence of lines. `ImportInChunks` is the sequence of records one run
inserts, in insertion order.

Modules, in dependency order:

- `Tokenizer`: lower-casing, splitting and dropping empty pieces.
- `WordCounts`: the running map, as an association list with distinct
  words.
- `Store`: the record layout and per-word totals over records.
- `Importing`: `cleanData`, one loop turn (`Step`), the reading loop, the
  final flush and the consumed window.
- `ImportProofs`: the loop invariant and the properties of a whole run.
- `ImportLoop`: `importInChunks` written as the loops it is, proved equal to
  the functional model.
- `Aggregation`: the pipeline, map-reduce and their agreement.
- `EndToEnd`: import followed by aggregation.
- `Scenarios`: the concrete inputs of the repository's JUnit tests.

A few behaviours follow the code where its documentation says less:

- A non-positive `chunkSize` never flushes at a boundary, so every word of
  the window lands in one final record.
- A negative `skipLines` skips nothing, and a negative `limitLines` reads
  nothing.
- A boundary flush is written even when its lines held no word.
- With no server id, `cleanData` deletes every record of the source,
  whatever `id` it carries.

The text of the test resource `dump.txt` is not part of this model. The
scenarios use a three-line stand-in for it that meets every assertion of
ImporterTest; other texts would meet them too.

## Model

| member | source | states |
|---|---|---|
| Tokenizer.LowerChar | src/main/java/com/github/gslowikowski/floow/Importer.java:77 | `A`..`Z` map to `a`..`z`, every other character is unchanged, and the result is a letter exactly when the input was an ASCII letter of either case |
| Tokenizer.Fields | src/main/java/com/github/gslowikowski/floow/Importer.java:77 | the pieces between separators, trailing empty ones kept (so there is always at least one piece), each consisting only of `a`..`z`; the proofs about words use this form |
| Tokenizer.Split | src/main/java/com/github/gslowikowski/floow/Importer.java:77 | Java's `split("[^a-z]")`: a line without a separator stays whole, otherwise the last piece returned is non-empty (trailing empty pieces dropped), and every piece consists only of `a`..`z` |
| Tokenizer.SplitWords | src/main/java/com/github/gslowikowski/floow/Importer.java:77-79 | Java's split and `Fields` have the same non-empty pieces, so they yield the same counted words |
| Scenarios.SplitExamples | src/main/java/com/github/gslowikowski/floow/Importer.java:77 | `"a!!"` splits into `["a"]`, `"!!"` into no piece, and `""` into one empty piece, while `Fields("!!")` has three empty pieces |
| Tokenizer.NonEmptyMembers | src/main/java/com/github/gslowikowski/floow/Importer.java:78-79 | the kept pieces are exactly the non-empty ones: nothing is invented and no non-empty piece is lost |
| Tokenizer.TokenizeTokens | src/main/java/com/github/gslowikowski/floow/Importer.java:77-79 | every counted word of a line is non-empty and made only of `a`..`z`, so runs of separators never yield an empty word |
| Tokenizer.TokensOfTokens | src/main/java/com/github/gslowikowski/floow/Importer.java:76-79 | the same holds for the words of any sequence of lines |
| Tokenizer.TokenizeSplit | src/main/java/com/github/gslowikowski/floow/Importer.java:77 | a separator cuts a line in two: its words are the words of the left part followed by those of the right part |
| Tokenizer.TokensOfAppend | src/main/java/com/github/gslowikowski/floow/Importer.java:76-84 | the words of two consecutive runs of lines are the words of the first followed by those of the second |
| WordCounts.ObserveSpec | src/main/java/com/github/gslowikowski/floow/Importer.java:80-82 | counting a word gives it an entry, adds exactly one occurrence of it to the counts, and keeps words distinct and counts positive |
| WordCounts.ObserveBag | src/main/java/com/github/gslowikowski/floow/Importer.java:80-82 | counting `w` raises the multiplicity of `w` by one and leaves every other word's count alone |
| WordCounts.ObserveWellFormed | src/main/java/com/github/gslowikowski/floow/Importer.java:80-82 | after a get-then-put the map still has one entry per word, each with a count of at least 1 |
| WordCounts.ObserveAllSpec | src/main/java/com/github/gslowikowski/floow/Importer.java:78-84 | counting a line's words adds exactly those words, with their multiplicities, and keeps the map well-formed |
| WordCounts.EntryOfCount | src/main/java/com/github/gslowikowski/floow/Importer.java:105-108 | in a well-formed map, a word with a positive count has an entry `{word, cnt}` carrying exactly that count |
| WordCounts.EmptyIffEmptyBag | src/main/java/com/github/gslowikowski/floow/Importer.java:97 | a map without zero counts is empty exactly when it holds no word occurrence |
| Importing.CleanData | src/main/java/com/github/gslowikowski/floow/Importer.java:44-50 | no record that survives the delete matches the filter |
| Importing.CleanSpec | src/main/java/com/github/gslowikowski/floow/Importer.java:44-50 | a record matching the filter is deleted, and every other record keeps its multiplicity |
| Importing.Window | src/main/java/com/github/gslowikowski/floow/Importer.java:66-76 | the consumed lines are positions `skip` up to `skip + limit - 1`, clipped at the end; a limit of 0 means to the end and a negative one reads nothing |
| ImportProofs.StepInv | src/main/java/com/github/gslowikowski/floow/Importer.java:77-92 | one loop turn keeps the invariant: the saved records are the finished chunks, the running map counts the lines since the last flush, and together they hold every word read |
| ImportProofs.LoopInv | src/main/java/com/github/gslowikowski/floow/Importer.java:76-94 | the invariant holds after the unlimited loop has read any further lines |
| ImportProofs.LimitedLoop | src/main/java/com/github/gslowikowski/floow/Importer.java:76 | with a positive limit, the loop behaves like the unlimited loop over the first `limit - lineCounter` remaining lines |
| ImportProofs.ConsumesWindow | src/main/java/com/github/gslowikowski/floow/Importer.java:66-76 | skipping and then reading up to the limit does what the unlimited loop does over the window |
| ImportProofs.ImportDependsOnlyOnWindow | src/main/java/com/github/gslowikowski/floow/Importer.java:66-76 | skipped lines and lines past the limit do not affect the records: a run equals a run over the window alone |
| ImportProofs.RunInv | src/main/java/com/github/gslowikowski/floow/Importer.java:61-94 | after the loop, the number of saved records is the number of boundary flushes, and the running map holds exactly the leftover lines |
| ImportProofs.ImportConservation | src/main/java/com/github/gslowikowski/floow/Importer.java:80-100 | for every word, the sum of its `cnt` over all records of one run equals its number of occurrences in the consumed lines |
| ImportProofs.ImportNumbering | src/main/java/com/github/gslowikowski/floow/Importer.java:86-115 | record `i` carries chunk number `i` (0, 1, ... with no gap) and the configured chunk size, a partial last chunk included, plus the importer's source and id |
| ImportProofs.ImportRecordCount | src/main/java/com/github/gslowikowski/floow/Importer.java:86-100 | a run writes `L / chunkSize` boundary records for `L` consumed lines (none if `chunkSize <= 0`), plus one final record exactly when the leftover lines have a word |
| ImportProofs.NoTrailingRecord | src/main/java/com/github/gslowikowski/floow/Importer.java:86-100 | when the window is a whole number of chunks, no record follows the boundary records |
| ImportProofs.NoBoundaryFlush | src/main/java/com/github/gslowikowski/floow/Importer.java:86-100 | with `chunkSize <= 0` a run writes one record if the window has a word and none otherwise |
| ImportProofs.ImportChunkContents | src/main/java/com/github/gslowikowski/floow/Importer.java:76-108 | each record holds distinct words with positive counts, which are exactly the word counts of its chunk of lines (or of the leftover lines, for the final record) |
| ImportProofs.ImportWordsAreTokens | src/main/java/com/github/gslowikowski/floow/Importer.java:77-84 | every word stored in a record is non-empty and made only of `a`..`z` |
| ImportProofs.CleanAppend | src/main/java/com/github/gslowikowski/floow/Importer.java:44-50 | the delete decides record by record: cleaning a concatenation cleans each part |
| ImportProofs.CleanIdempotent | src/main/java/com/github/gslowikowski/floow/Importer.java:44-50 | cleaning twice leaves the same collection as cleaning once |
| ImportProofs.CleanWithoutId | src/main/java/com/github/gslowikowski/floow/Importer.java:44-49 | with no server id, a record survives exactly when its source differs, whatever its `id` |
| ImportProofs.CleanWithId | src/main/java/com/github/gslowikowski/floow/Importer.java:44-49 | with a server id, a record survives exactly when its source or its `id` differs |
| ImportProofs.CleanAllMatching | src/main/java/com/github/gslowikowski/floow/Importer.java:44-50 | records written by this importer, with its source and id, are all deleted by its clean |
| ImportProofs.CleanThenInsert | src/main/java/com/github/gslowikowski/floow/Importer.java:44-50 | cleaning after an import removes exactly what the import inserted |
| ImportProofs.ReimportIdempotent | src/main/java/com/github/gslowikowski/floow/Importer.java:44-50 | clean-then-import run a second time leaves the collection exactly as after the first time |
| ImportLoop.CountPieces | src/main/java/com/github/gslowikowski/floow/Importer.java:77-84 | the inner loop over the array Java's split returns, which skips empty pieces, counts exactly the words of the line |
| ImportLoop.ReadLine | src/main/java/com/github/gslowikowski/floow/Importer.java:77-92 | the body of the reading loop performs one `Step`: it counts the line, advances the counter, and flushes at a chunk boundary |
| ImportLoop.RunImport | src/main/java/com/github/gslowikowski/floow/Importer.java:61-101 | the skip loop, the read loop and the final flush insert exactly the records of the functional model, so every word of the window is counted once |
| Aggregation.Match | src/main/java/com/github/gslowikowski/floow/Aggregator.java:40 | every record that passes `$match` has the requested source |
| Aggregation.MatchSpec | src/main/java/com/github/gslowikowski/floow/Aggregator.java:40 | `$match` keeps each record of the source with its multiplicity and drops every other one |
| Aggregation.Unwind | src/main/java/com/github/gslowikowski/floow/Aggregator.java:42 | the unwound rows name exactly the words of the records, and each word's rows sum to its total over the records |
| Aggregation.GroupSum | src/main/java/com/github/gslowikowski/floow/Aggregator.java:43 | `$group` gives one key per distinct word, and its count is the sum of that word's `cnt` |
| Aggregation.Aggregate | src/main/java/com/github/gslowikowski/floow/Aggregator.java:38-46 | one row per distinct word of the matching records, holding the sum of its `cnt` over them |
| Aggregation.Mapper | src/main/java/com/github/gslowikowski/floow/Aggregator.java:54 | the mapper emits one `(word, cnt)` pair per `words` entry, in order |
| Aggregation.Collect | src/main/java/com/github/gslowikowski/floow/Aggregator.java:56-58 | the shuffle gives every emitted key the list of its values, in emission order |
| Aggregation.Finalize | src/main/java/com/github/gslowikowski/floow/Aggregator.java:55 | a key with a single value, which the reducer is not called for, gets the same total the reducer would give |
| Aggregation.MapReduce | src/main/java/com/github/gslowikowski/floow/Aggregator.java:53-61 | one key per distinct word of the records with the source, holding the sum of the values emitted for it |
| Aggregation.MapperSpec | src/main/java/com/github/gslowikowski/floow/Aggregator.java:54-55 | for one record, the emitted keys are its words, and reducing a key's values gives that word's count |
| Aggregation.EmitAllSpec | src/main/java/com/github/gslowikowski/floow/Aggregator.java:54-55 | over all records, reducing a key's values gives the word's total count |
| Aggregation.ReducePermutation | src/main/java/com/github/gslowikowski/floow/Aggregator.java:55 | the sum reducer gives the same result for values arriving in any order |
| Aggregation.ReduceRereduce | src/main/java/com/github/gslowikowski/floow/Aggregator.java:55 | reducing partial reductions of batches gives the same result as reducing all values at once |
| Aggregation.AnyReducePlan | src/main/java/com/github/gslowikowski/floow/Aggregator.java:55 | any split of a key's values into batches, in any order, re-reduces to the same total |
| Aggregation.StrategiesAgree | src/main/java/com/github/gslowikowski/floow/Aggregator.java:38-61 | the pipeline and map-reduce give the same key set and the same total per key (a consequence of the `Aggregate` and `MapReduce` contracts) |
| Aggregation.AggregateAppend | src/main/java/com/github/gslowikowski/floow/Aggregator.java:43 | aggregating two collections together adds their per-word totals |
| Aggregation.OtherSourcesIgnored | src/main/java/com/github/gslowikowski/floow/Aggregator.java:40-58 | adding records of other sources changes neither strategy's result |
| Aggregation.IdIgnored | src/main/java/com/github/gslowikowski/floow/Aggregator.java:40-58 | the `id` field of records does not affect either strategy |
| Aggregation.EmptyRecordIgnored | src/main/java/com/github/gslowikowski/floow/Aggregator.java:42-54 | a record with an empty `words` list contributes no row and no emission |
| Aggregation.SameTotalsSameResults | src/main/java/com/github/gslowikowski/floow/Aggregator.java:38-61 | both strategies depend only on the words present and their per-word totals over the matching records |
| EndToEnd.AggregateImport | src/main/java/com/github/gslowikowski/floow/Importer.java:61-101 | aggregating the records of one run gives exactly the words of the consumed lines, each with its number of occurrences, by either strategy |
| EndToEnd.CleanImportAggregate | src/main/java/com/github/gslowikowski/floow/Importer.java:44-50 | with no server id, clean-then-import leaves the source's aggregate equal to that of the new run alone, whatever the collection held before |
| Scenarios.TokenizeLine1 | src/main/java/com/github/gslowikowski/floow/Importer.java:77-79 | a mixed-case line with a comma splits into `mongo is awesome mongo is awesome` |
| Scenarios.ThreeLinesChunksOfTwo | src/test/java/com/github/gslowikowski/floow/ImporterTest.java:56-86 | three lines in chunks of two give a record for lines 1-2 and, when line 3 has a word, a second record for it |
| Scenarios.ImportWholeFile | src/test/java/com/github/gslowikowski/floow/ImporterTest.java:49-86 | on a three-line stand-in for `dump.txt` that meets every assertion of ImporterTest, chunks of two give 2 records: chunk 0 with mongo 2, floow 1, is 3, awesome 3, and chunk 1 with i, am, awesome, too at 1 each |
| Scenarios.OneLineWindow | src/test/java/com/github/gslowikowski/floow/ImporterTest.java:96-114 | skip 1 and limit 1 give at most one record, numbered 0, holding only the second line's words |
| Scenarios.ImportSecondLineOnly | src/test/java/com/github/gslowikowski/floow/ImporterTest.java:89-115 | on a three-line stand-in for `dump.txt` that meets every assertion of ImporterTest, with id `serverId1`, skip 1 and limit 1 give one record with floow, is, awesome at 1 each |
| Scenarios.CleanMixedWithoutId | src/test/java/com/github/gslowikowski/floow/ImporterCleanTest.java:44-54 | cleaning `dump.txt` with no id leaves only the other source's record |
| Scenarios.CleanMixedWithId | src/test/java/com/github/gslowikowski/floow/ImporterCleanTest.java:56-66 | cleaning `dump.txt` with id `serverId1` removes only that record and leaves 3 |
| Scenarios.AggregateCorpus | src/test/java/com/github/gslowikowski/floow/AggregatorTest.java:46-95 | on the three test records both strategies give 7 words: awesome 4, is 3, mongo 2, am, floow, i, too 1 |

## Left out

- `Application.java`: command-line parsing, MongoDB client setup, timing and logging. It is glue around the driver.
- I/O: the `BufferedReader` is a sequence of lines, and `IOException` is not modelled. The `readLine()` at Importer.java:93 after the last counted line has no effect on the records.
- The MongoDB engine: BSON documents, `$project`, and the `$out`/`collectionName` destination replacement. Both strategies are modelled by their sum-by-key meaning over an in-memory collection.
- Importing.SaveChunkDocument: counts are unbounded naturals. The `intValue()` narrowing of a `Long` count at Importer.java:107 is not modelled; it would matter only for a word occurring 2^31 times or more.
- `lineCounter` and `chunkNo` are unbounded. The 32-bit `int` overflow after 2^31 lines is not modelled.
- Lower-casing under `Locale.UK` is modelled for ASCII only. Java's Unicode case mapping, which can turn a few non-ASCII characters into ASCII letters, is left out; every non-ASCII character is a separator.
- HashMap iteration order: the running map is a list in first-seen order. Every property is stated through per-word counts, so the properties hold for any order of the `words` list.
- Map-reduce results are JavaScript doubles (`4.0` in AggregatorTest.java:82). Totals are modelled as naturals.
- Logging calls (`log.debug`) have no effect on the model.
