/**
 The chunked importer: `cleanData`, `importInChunks` and `saveChunkDocument`.
 Reading the file becomes a sequence of lines; writing to the collection
 becomes the sequence of records the run inserts, in insertion order.
 */
module Importing {
  import opened Tokenizer
  import opened WordCounts
  import opened Store

  /** An importer: the source file name and the optional additional identifier. */
  datatype Importer = Importer(source: string, serverId: Option<string>)

  /** The local variables of `importInChunks` plus the records inserted so far. */
  datatype ImportState = ImportState(
    lineCounter: nat,
    chunkNo: nat,
    wordCounts: seq<WordCount>,
    saved: seq<ChunkRecord>)

  const Start := ImportState(0, 0, [], [])

  function Min(a: int, b: int): int {
    if a <= b then a else b
  }

  // ---------------------------------------------------------------- cleanData

  /** The delete filter: the source always, the `id` only when the importer has one. */
  predicate CleanFilter(imp: Importer, rec: ChunkRecord) {
    rec.source == imp.source && (imp.serverId.Some? ==> rec.id == imp.serverId)
  }

  /**
   `deleteMany` with the clean filter: no survivor matches the filter, and
   (`CleanSpec`) every other record stays with its multiplicity.
   */
  function CleanData(imp: Importer, store: seq<ChunkRecord>): (r: seq<ChunkRecord>)
    ensures forall i :: 0 <= i < |r| ==> !CleanFilter(imp, r[i])
  {
    if |store| == 0 then []
    else
      var rest := CleanData(imp, store[1..]);
      if CleanFilter(imp, store[0]) then rest else [store[0]] + rest
  }

  /** Every record matching the filter goes; every other record stays, with its multiplicity. */
  lemma {:induction false} CleanSpec(imp: Importer, store: seq<ChunkRecord>)
    ensures forall rec :: multiset(CleanData(imp, store))[rec]
                          == if CleanFilter(imp, rec) then 0 else multiset(store)[rec]
    decreases |store|
  {
    if |store| > 0 {
      CleanSpec(imp, store[1..]);
      assert store == [store[0]] + store[1..];
    }
  }

  // ----------------------------------------------------------- importInChunks

  /** The document `saveChunkDocument` inserts for one chunk. */
  function SaveChunkDocument(imp: Importer, chunkNo: nat, chunkSize: int, wordCounts: seq<WordCount>): ChunkRecord
  {
    ChunkRecord(imp.source, imp.serverId, chunkNo, chunkSize, wordCounts)
  }

  /**
   One turn of the reading loop: count the words of `line`, advance the line
   counter and, when it reaches a multiple of a positive chunk size, save the
   chunk (even when it holds no word), start a fresh map and the next chunk.
   */
  function Step(imp: Importer, chunkSize: int, st: ImportState, line: string): ImportState
  {
    var counts := ObserveAll(st.wordCounts, Tokenize(line));
    var lineCounter := st.lineCounter + 1;
    if chunkSize > 0 && lineCounter % chunkSize == 0 then
      ImportState(lineCounter, st.chunkNo + 1, [],
                  st.saved + [SaveChunkDocument(imp, st.chunkNo, chunkSize, counts)])
    else
      ImportState(lineCounter, st.chunkNo, counts, st.saved)
  }

  /**
   The reading loop: it runs while a line is left and either the limit is 0
   or fewer than `limitLines` lines were counted (so a negative limit reads nothing).
   */
  function ReadLoop(imp: Importer, limitLines: int, chunkSize: int, st: ImportState, rest: seq<string>): ImportState
    decreases |rest|
  {
    if |rest| == 0 || !(limitLines == 0 || st.lineCounter < limitLines) then st
    else ReadLoop(imp, limitLines, chunkSize, Step(imp, chunkSize, st, rest[0]), rest[1..])
  }

  /** The skipping loop: a positive `skipLines` drops that many lines, or all if fewer remain. */
  function SkipLines(lines: seq<string>, skipLines: int): seq<string>
  {
    if skipLines <= 0 then lines
    else if skipLines <= |lines| then lines[skipLines..]
    else []
  }

  /** After the loop: the leftover map is saved only when it is not empty. */
  function Finish(imp: Importer, chunkSize: int, st: ImportState): seq<ChunkRecord>
  {
    if |st.wordCounts| > 0 then st.saved + [SaveChunkDocument(imp, st.chunkNo, chunkSize, st.wordCounts)]
    else st.saved
  }

  /** The records one run of `importInChunks` inserts, in insertion order. */
  function ImportInChunks(imp: Importer, lines: seq<string>, skipLines: int, limitLines: int, chunkSize: int): seq<ChunkRecord>
  {
    Finish(imp, chunkSize, ReadLoop(imp, limitLines, chunkSize, Start, SkipLines(lines, skipLines)))
  }

  /**
   The lines a run consumes: those at positions `skipLines` up to
   `skipLines + limitLines - 1`, a limit of 0 meaning "to the end", cut off at
   the end of the input; a non-positive skip starts at the first line and a
   negative limit consumes nothing.
   */
  function Window(lines: seq<string>, skipLines: int, limitLines: int): (r: seq<string>)
    ensures var s := if skipLines <= 0 then 0 else Min(skipLines, |lines|);
            var e := if limitLines == 0 then |lines|
                     else if limitLines < 0 then s
                     else Min(s + limitLines, |lines|);
            0 <= s <= e <= |lines| && r == lines[s..e]
  {
    var rest := SkipLines(lines, skipLines);
    if limitLines == 0 then rest
    else if limitLines < 0 then []
    else rest[..Min(limitLines, |rest|)]
  }

  /** Loop-free accounting of the chunks: how many boundary flushes `n` lines cause. */
  function Flushes(n: nat, chunkSize: int): nat
  {
    if chunkSize > 0 then n / chunkSize else 0
  }

  /** The number of lines covered by the boundary flushes of `n` lines. */
  function Boundary(n: nat, chunkSize: int): (r: nat)
    ensures r <= n
  {
    if chunkSize > 0 then n - n % chunkSize else 0
  }

  /** The lines after the last boundary flush: those of the final, partial chunk. */
  function Leftover(lines: seq<string>, chunkSize: int): seq<string>
  {
    lines[Boundary(|lines|, chunkSize)..]
  }

  /** The first line of chunk `j`: `j * chunkSize` for a positive chunk size (0 otherwise). */
  function ChunkStart(j: nat, chunkSize: int): nat
  {
    if j == 0 || chunkSize <= 0 then 0 else ChunkStart(j - 1, chunkSize) + chunkSize
  }

  /** The lines of chunk `j`: positions `ChunkStart(j)` up to `ChunkStart(j + 1) - 1`, cut off at the end of `lines`. */
  function Span(lines: seq<string>, j: nat, chunkSize: int): seq<string>
  {
    var lo := Min(ChunkStart(j, chunkSize), |lines|);
    var hi := Min(ChunkStart(j + 1, chunkSize), |lines|);
    if lo <= hi then lines[lo..hi] else []
  }
}
