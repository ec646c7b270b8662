/**
 `importInChunks` as the loop it is written as: a skipping loop, a reading
 loop with an inner loop over the array `split` returns for the line, a boundary flush
 and a final flush. The reader is an index into the lines; `|lines|` plays
 the part of the `null` that ends the input.
 */
module ImportLoop {
  import opened Tokenizer
  import opened WordCounts
  import opened Store
  import opened Importing
  import opened ImportProofs

  /**
   The inner loop: count every non-empty piece of the array Java's `split`
   returns for the lower-cased line (trailing empty pieces already dropped).
   */
  method CountPieces(acc: seq<WordCount>, line: string) returns (counts: seq<WordCount>)
    ensures counts == ObserveAll(acc, Tokenize(line))
  {
    var pieces := Split(Lower(line));
    TokenizeBySplit(line);
    counts := acc;
    var k := 0;
    while k < |pieces|
      invariant 0 <= k <= |pieces|
      invariant ObserveAll(counts, NonEmpty(pieces[k..])) == ObserveAll(acc, Tokenize(line))
    {
      PieceStep(counts, pieces, k);
      if |pieces[k]| > 0 {
        counts := Observe(counts, pieces[k]);
      }
      k := k + 1;
    }
    assert pieces[k..] == [];
  }

  /** One piece: an empty one is skipped, a non-empty one is counted. */
  lemma PieceStep(counts: seq<WordCount>, pieces: seq<string>, k: nat)
    requires k < |pieces|
    ensures ObserveAll(counts, NonEmpty(pieces[k..]))
            == ObserveAll(if |pieces[k]| > 0 then Observe(counts, pieces[k]) else counts, NonEmpty(pieces[k + 1..]))
  {
    assert pieces[k..] == [pieces[k]] + pieces[k + 1..];
    NonEmptyAppend([pieces[k]], pieces[k + 1..]);
    var tail := NonEmpty(pieces[k + 1..]);
    if |pieces[k]| > 0 {
      assert ([pieces[k]] + tail)[1..] == tail;
    } else {
      assert [] + tail == tail;
    }
  }

  /** One turn of the reading loop is one `Step`: the reader moves on by one line. */
  lemma ReadStep(imp: Importer, limit: int, cs: int, st: ImportState, next: ImportState, lines: seq<string>, pos: nat)
    requires pos < |lines| && (limit == 0 || st.lineCounter < limit)
    requires next == Step(imp, cs, st, lines[pos])
    ensures ReadLoop(imp, limit, cs, next, lines[pos + 1..]) == ReadLoop(imp, limit, cs, st, lines[pos..])
  {
    assert lines[pos..][1..] == lines[pos + 1..];
  }

  /** The skipping loop leaves the reader at the first line of the window. */
  lemma Skipped(lines: seq<string>, skipLines: int, pos: nat)
    requires pos <= |lines|
    requires skipLines <= 0 ==> pos == 0
    requires skipLines > 0 ==> pos <= skipLines && (pos == |lines| || pos == skipLines)
    ensures lines[pos..] == SkipLines(lines, skipLines)
  {
  }

  /** The body of the reading loop: count the line's words, then flush at a chunk boundary. */
  method ReadLine(imp: Importer, chunkSize: int, lineCounter0: nat, chunkNo0: nat,
                  wordCounts0: seq<WordCount>, saved0: seq<ChunkRecord>, line: string)
    returns (lineCounter: nat, chunkNo: nat, wordCounts: seq<WordCount>, saved: seq<ChunkRecord>)
    ensures ImportState(lineCounter, chunkNo, wordCounts, saved)
            == Step(imp, chunkSize, ImportState(lineCounter0, chunkNo0, wordCounts0, saved0), line)
  {
    chunkNo, saved := chunkNo0, saved0;
    wordCounts := CountPieces(wordCounts0, line);
    StepIs(imp, chunkSize, ImportState(lineCounter0, chunkNo0, wordCounts0, saved0), line, wordCounts);
    lineCounter := lineCounter0 + 1;
    if chunkSize > 0 && lineCounter % chunkSize == 0 {
      saved := saved + [SaveChunkDocument(imp, chunkNo, chunkSize, wordCounts)];
      wordCounts := [];
      chunkNo := chunkNo + 1;
    }
  }

  /** `Step` once the words of the line are counted. */
  lemma StepIs(imp: Importer, cs: int, st: ImportState, line: string, counts: seq<WordCount>)
    requires counts == ObserveAll(st.wordCounts, Tokenize(line))
    ensures Step(imp, cs, st, line)
            == if cs > 0 && (st.lineCounter + 1) % cs == 0
               then ImportState(st.lineCounter + 1, st.chunkNo + 1, [], st.saved + [SaveChunkDocument(imp, st.chunkNo, cs, counts)])
               else ImportState(st.lineCounter + 1, st.chunkNo, counts, st.saved)
  {
  }

  /**
   The records the loop inserts, in order: exactly those of the functional
   model, so every property proved of `ImportInChunks` holds of the loop.
   */
  method RunImport(imp: Importer, lines: seq<string>, skipLines: int, limitLines: int, chunkSize: int)
    returns (saved: seq<ChunkRecord>)
    ensures saved == ImportInChunks(imp, lines, skipLines, limitLines, chunkSize)
    ensures Bags(saved) == multiset(TokensOf(Window(lines, skipLines, limitLines)))
  {
    var lineCounter: nat := 0;
    var chunkNo: nat := 0;
    var wordCounts: seq<WordCount> := [];
    saved := [];
    var pos := 0;
    if skipLines > 0 {
      var skipped := 0;
      while pos < |lines| && skipped < skipLines
        invariant 0 <= pos <= |lines| && pos == skipped <= skipLines
      {
        skipped := skipped + 1;
        pos := pos + 1;
      }
    }
    Skipped(lines, skipLines, pos);
    while pos < |lines| && (limitLines == 0 || lineCounter < limitLines)
      invariant 0 <= pos <= |lines|
      invariant ReadLoop(imp, limitLines, chunkSize, ImportState(lineCounter, chunkNo, wordCounts, saved), lines[pos..])
                == ReadLoop(imp, limitLines, chunkSize, Start, SkipLines(lines, skipLines))
      decreases |lines| - pos
    {
      ghost var st := ImportState(lineCounter, chunkNo, wordCounts, saved);
      lineCounter, chunkNo, wordCounts, saved := ReadLine(imp, chunkSize, lineCounter, chunkNo, wordCounts, saved, lines[pos]);
      ReadStep(imp, limitLines, chunkSize, st, ImportState(lineCounter, chunkNo, wordCounts, saved), lines, pos);
      pos := pos + 1;
    }
    if |wordCounts| > 0 {
      saved := saved + [SaveChunkDocument(imp, chunkNo, chunkSize, wordCounts)];
    }
    ImportConservation(imp, lines, skipLines, limitLines, chunkSize);
  }
}
