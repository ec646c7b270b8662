/**
 What one run of `importInChunks` writes: the consumed lines, the chunk
 numbering, the number of records, the contents of each record and the
 conservation of word counts; and what `cleanData` removes.
 */
module ImportProofs {
  import opened Tokenizer
  import opened WordCounts
  import opened Store
  import opened Importing

  // ------------------------------------------------------------- arithmetic

  /** Helper: Euclidean division is determined by quotient and remainder bounds. */
  lemma DivUnique(x: int, c: int, q: int, r: int)
    requires c > 0 && 0 <= r < c && x == q * c + r
    ensures x / c == q && x % c == r
  {
    var q', r' := x / c, x % c;
    assert x == q' * c + r' && 0 <= r' < c;
    assert (q - q') * c == r' - r;
    if q > q' {
      MulMono(1, q - q', c);
    } else if q < q' {
      MulMono(1, q' - q, c);
    }
  }

  /** Helper: multiplication by a non-negative factor is monotone. */
  lemma MulMono(a: int, b: int, c: int)
    requires 0 <= a <= b && c >= 0
    ensures a * c <= b * c
  {
    assert b * c - a * c == (b - a) * c;
  }

  lemma {:induction false} ChunkStartProduct(j: nat, cs: int)
    requires cs > 0
    ensures ChunkStart(j, cs) == j * cs
  {
    if j > 0 {
      ChunkStartProduct(j - 1, cs);
    }
  }

  lemma {:induction false} ChunkStartMono(i: nat, j: nat, cs: int)
    requires i <= j
    ensures ChunkStart(i, cs) <= ChunkStart(j, cs)
    decreases j
  {
    if i < j {
      ChunkStartMono(i, j - 1, cs);
    }
  }

  /**
   The importer's boundary test `lineCounter % chunkSize == 0`, for a line counter that
   lies in chunk `m`, holds exactly when the chunk has just been filled.
   */
  lemma FlushIff(m: nat, n: nat, cs: int)
    requires cs > 0 && ChunkStart(m, cs) <= n && n - ChunkStart(m, cs) < cs
    ensures (n + 1) % cs == 0 <==> n + 1 - ChunkStart(m, cs) == cs
  {
    ChunkStartProduct(m, cs);
    var x := n + 1 - ChunkStart(m, cs);
    if x == cs {
      assert n + 1 == (m + 1) * cs;
      DivUnique(n + 1, cs, m + 1, 0);
    } else {
      DivUnique(n + 1, cs, m, x);
    }
  }

  /** The whole flush test of the loop, for a line counter that lies in chunk `m`. */
  lemma FlushCond(m: nat, n: nat, cs: int)
    requires ChunkStart(m, cs) <= n && (cs > 0 ==> n - ChunkStart(m, cs) < cs)
    ensures (cs > 0 && (n + 1) % cs == 0) <==> (cs > 0 && n + 1 - ChunkStart(m, cs) == cs)
  {
    if cs > 0 {
      FlushIff(m, n, cs);
    }
  }

  /** After `m` boundary flushes and fewer than `cs` further lines, the loop-free accounting agrees. */
  lemma FlushesBridge(m: nat, n: nat, cs: int)
    requires ChunkStart(m, cs) <= n
    requires cs > 0 ==> n - ChunkStart(m, cs) < cs
    requires cs <= 0 ==> m == 0
    ensures Flushes(n, cs) == m && Boundary(n, cs) == ChunkStart(m, cs)
  {
    if cs > 0 {
      ChunkStartProduct(m, cs);
      DivUnique(n, cs, m, n - ChunkStart(m, cs));
    }
  }

  /** A chunk that was complete before `line` was read still covers the same lines. */
  lemma SpanStable(P: seq<string>, line: string, j: nat, m: nat, cs: int)
    requires j < m && ChunkStart(m, cs) <= |P|
    ensures Span(P + [line], j, cs) == Span(P, j, cs)
  {
    ChunkStartMono(j + 1, m, cs);
    ChunkStartMono(j, j + 1, cs);
  }

  // -------------------------------------------------------------- invariant

  /** The map has distinct words, no zero count, and holds exactly the words of `lines`. */
  ghost predicate CountsOk(acc: seq<WordCount>, lines: seq<string>) {
    WellFormed(acc) && Bag(acc) == multiset(TokensOf(lines))
  }

  /**
   Record `rec` is the `j`-th record of a run of `imp` with chunk size `cs`,
   and holds exactly the word counts of the lines `span`.
   */
  ghost predicate RecordOk(imp: Importer, cs: int, rec: ChunkRecord, j: nat, span: seq<string>) {
    && rec.source == imp.source
    && rec.id == imp.serverId
    && rec.chunkNo == j
    && rec.chunkSize == cs
    && CountsOk(rec.words, span)
  }

  /** Saved record `j` is chunk `j` of the lines `P`. */
  ghost predicate SavedAt(imp: Importer, cs: int, P: seq<string>, saved: seq<ChunkRecord>, j: nat)
    requires j < |saved|
  {
    RecordOk(imp, cs, saved[j], j, Span(P, j, cs))
  }

  /** Every saved record is the chunk of its number. */
  ghost predicate SavedOk(imp: Importer, cs: int, P: seq<string>, saved: seq<ChunkRecord>) {
    forall j: nat :: j < |saved| ==> SavedAt(imp, cs, P, saved, j)
  }

  /** Where the line counter stands: inside the chunk after the `m` saved ones. */
  ghost predicate Position(cs: int, n: nat, m: nat) {
    && ChunkStart(m, cs) <= n
    && (cs > 0 ==> n - ChunkStart(m, cs) < cs)
    && (cs <= 0 ==> m == 0)
  }

  /**
   The state of the reading loop after the lines `P` were consumed: the
   running map holds the words since the last boundary, and saved records
   plus running map hold every word of `P`.
   */
  ghost predicate Inv(imp: Importer, cs: int, P: seq<string>, st: ImportState) {
    && st.lineCounter == |P|
    && st.chunkNo == |st.saved|
    && Position(cs, |P|, |st.saved|)
    && CountsOk(st.wordCounts, P[ChunkStart(|st.saved|, cs)..])
    && Bags(st.saved) + Bag(st.wordCounts) == multiset(TokensOf(P))
    && SavedOk(imp, cs, P, st.saved)
  }

  lemma StartInv(imp: Importer, cs: int)
    ensures Inv(imp, cs, [], Start)
  {
  }

  lemma TokensOfSnoc(lines: seq<string>, line: string)
    ensures multiset(TokensOf(lines + [line])) == multiset(TokensOf(lines)) + multiset(Tokenize(line))
  {
    TokensOfAppend(lines, [line]);
    assert [line][1..] == [];
    assert TokensOf([line]) == Tokenize(line);
  }

  /** Counting the words of one more line keeps the running map exact. */
  lemma CountsStep(acc: seq<WordCount>, lines: seq<string>, line: string)
    requires CountsOk(acc, lines)
    ensures CountsOk(ObserveAll(acc, Tokenize(line)), lines + [line])
  {
    ObserveAllSpec(acc, Tokenize(line));
    TokensOfSnoc(lines, line);
  }

  lemma SavedStep(imp: Importer, cs: int, P: seq<string>, saved: seq<ChunkRecord>, line: string)
    requires SavedOk(imp, cs, P, saved) && ChunkStart(|saved|, cs) <= |P|
    ensures SavedOk(imp, cs, P + [line], saved)
  {
    forall j: nat | j < |saved| ensures SavedAt(imp, cs, P + [line], saved, j) {
      assert SavedAt(imp, cs, P, saved, j);
      SpanStable(P, line, j, |saved|, cs);
    }
  }

  /** The record saved at a chunk boundary is the chunk that just ended. */
  lemma SavedFlush(imp: Importer, cs: int, P: seq<string>, saved: seq<ChunkRecord>, counts: seq<WordCount>)
    requires SavedOk(imp, cs, P, saved)
    requires cs > 0 && ChunkStart(|saved|, cs) + cs == |P|
    requires CountsOk(counts, P[ChunkStart(|saved|, cs)..])
    ensures SavedOk(imp, cs, P, saved + [SaveChunkDocument(imp, |saved|, cs, counts)])
  {
    var j := |saved|;
    var saved' := saved + [SaveChunkDocument(imp, j, cs, counts)];
    forall i: nat | i < |saved'| ensures SavedAt(imp, cs, P, saved', i) {
      if i < j {
        assert SavedAt(imp, cs, P, saved, i);
        assert saved'[i] == saved[i];
      } else {
        LastSpan(P, j, cs);
      }
    }
  }

  /** The chunk that ends exactly at the end of `P` is the suffix from its start. */
  lemma LastSpan(P: seq<string>, j: nat, cs: int)
    requires cs > 0 && ChunkStart(j, cs) + cs == |P|
    ensures Span(P, j, cs) == P[ChunkStart(j, cs)..]
  {
    assert ChunkStart(j + 1, cs) == |P|;
  }

  /** A line that completes a chunk: the chunk is saved as record number `chunkNo`. */
  lemma StepFlush(imp: Importer, cs: int, P: seq<string>, st: ImportState, line: string)
    requires Inv(imp, cs, P, st)
    requires cs > 0 && |P| + 1 - ChunkStart(|st.saved|, cs) == cs
    ensures Inv(imp, cs, P + [line], Step(imp, cs, st, line))
  {
    var S := ChunkStart(|st.saved|, cs);
    var counts := ObserveAll(st.wordCounts, Tokenize(line));
    FlushShape(imp, cs, P, st, line);
    SuffixCountsStep(P, S, st.wordCounts, line);
    SavedStep(imp, cs, P, st.saved, line);
    SavedFlush(imp, cs, P + [line], st.saved, counts);
    FlushBags(imp, cs, P, st, line);
    EmptyTail(P + [line]);
  }

  lemma FlushShape(imp: Importer, cs: int, P: seq<string>, st: ImportState, line: string)
    requires st.lineCounter == |P| && Position(cs, |P|, |st.saved|)
    requires cs > 0 && |P| + 1 - ChunkStart(|st.saved|, cs) == cs
    ensures Step(imp, cs, st, line)
            == ImportState(|P| + 1, st.chunkNo + 1, [],
                           st.saved + [SaveChunkDocument(imp, st.chunkNo, cs, ObserveAll(st.wordCounts, Tokenize(line)))])
    ensures ChunkStart(|st.saved| + 1, cs) == |P| + 1
    ensures Position(cs, |P| + 1, |st.saved| + 1)
  {
    FlushCond(|st.saved|, |P|, cs);
    assert cs > 0 && (st.lineCounter + 1) % cs == 0;
    ChunkStartNext(|st.saved|, cs);
  }

  lemma ChunkStartNext(m: nat, cs: int)
    requires cs > 0
    ensures ChunkStart(m + 1, cs) == ChunkStart(m, cs) + cs
  {
  }

  /** A flush moves the running map into the saved records without losing a word. */
  lemma FlushBags(imp: Importer, cs: int, P: seq<string>, st: ImportState, line: string)
    requires Bags(st.saved) + Bag(st.wordCounts) == multiset(TokensOf(P))
    ensures var rec := SaveChunkDocument(imp, st.chunkNo, cs, ObserveAll(st.wordCounts, Tokenize(line)));
            Bags(st.saved + [rec]) + Bag([]) == multiset(TokensOf(P + [line]))
  {
    var rec := SaveChunkDocument(imp, st.chunkNo, cs, ObserveAll(st.wordCounts, Tokenize(line)));
    ObserveAllSpec(st.wordCounts, Tokenize(line));
    TokensOfSnoc(P, line);
    BagsAppend(st.saved, [rec]);
    assert Bags([rec]) == Bag(rec.words) + Bags([]);
  }

  /** The empty suffix holds no word. */
  lemma EmptyTail(P: seq<string>)
    ensures CountsOk([], P[|P|..])
  {
    assert P[|P|..] == [];
  }

  /** A line inside a chunk: it only extends the running map. */
  lemma StepNoFlush(imp: Importer, cs: int, P: seq<string>, st: ImportState, line: string)
    requires Inv(imp, cs, P, st)
    requires !(cs > 0 && |P| + 1 - ChunkStart(|st.saved|, cs) == cs)
    ensures Inv(imp, cs, P + [line], Step(imp, cs, st, line))
  {
    var S := ChunkStart(|st.saved|, cs);
    var counts := ObserveAll(st.wordCounts, Tokenize(line));
    NoFlushShape(imp, cs, P, st, line);
    SuffixCountsStep(P, S, st.wordCounts, line);
    ObserveAllSpec(st.wordCounts, Tokenize(line));
    TokensOfSnoc(P, line);
    SavedStep(imp, cs, P, st.saved, line);
  }

  lemma NoFlushShape(imp: Importer, cs: int, P: seq<string>, st: ImportState, line: string)
    requires st.lineCounter == |P| && Position(cs, |P|, |st.saved|)
    requires !(cs > 0 && |P| + 1 - ChunkStart(|st.saved|, cs) == cs)
    ensures Step(imp, cs, st, line)
            == ImportState(|P| + 1, st.chunkNo, ObserveAll(st.wordCounts, Tokenize(line)), st.saved)
    ensures Position(cs, |P| + 1, |st.saved|)
  {
    FlushCond(|st.saved|, |P|, cs);
  }

  lemma SuffixCountsStep(P: seq<string>, S: nat, acc: seq<WordCount>, line: string)
    requires S <= |P| && CountsOk(acc, P[S..])
    ensures CountsOk(ObserveAll(acc, Tokenize(line)), (P + [line])[S..])
  {
    assert (P + [line])[S..] == P[S..] + [line];
    CountsStep(acc, P[S..], line);
  }

  lemma StepInv(imp: Importer, cs: int, P: seq<string>, st: ImportState, line: string)
    requires Inv(imp, cs, P, st)
    ensures Inv(imp, cs, P + [line], Step(imp, cs, st, line))
  {
    if cs > 0 && |P| + 1 - ChunkStart(|st.saved|, cs) == cs {
      StepFlush(imp, cs, P, st, line);
    } else {
      StepNoFlush(imp, cs, P, st, line);
    }
  }

  /**
   Any property of (lines read, state) that one `Step` preserves holds after
   the unlimited loop has run over `rest`.
   */
  lemma {:induction false} LoopKeeps(imp: Importer, cs: int, inv: (seq<string>, ImportState) -> bool,
                                     P: seq<string>, st: ImportState, rest: seq<string>)
    requires forall Q, s, line :: inv(Q, s) ==> inv(Q + [line], Step(imp, cs, s, line))
    requires inv(P, st)
    ensures inv(P + rest, ReadLoop(imp, 0, cs, st, rest))
    decreases |rest|
  {
    if |rest| == 0 {
      assert P + rest == P;
    } else {
      assert P + rest == (P + [rest[0]]) + rest[1..];
      LoopKeeps(imp, cs, inv, P + [rest[0]], Step(imp, cs, st, rest[0]), rest[1..]);
    }
  }

  /** Running the unlimited loop over `rest` keeps the invariant. */
  lemma LoopInv(imp: Importer, cs: int, P: seq<string>, st: ImportState, rest: seq<string>)
    requires Inv(imp, cs, P, st)
    ensures Inv(imp, cs, P + rest, ReadLoop(imp, 0, cs, st, rest))
  {
    var inv := (Q, s) => Inv(imp, cs, Q, s);
    forall Q, s, line | inv(Q, s) ensures inv(Q + [line], Step(imp, cs, s, line)) {
      StepInv(imp, cs, Q, s, line);
    }
    LoopKeeps(imp, cs, inv, P, st, rest);
  }

  // ---------------------------------------------------------- skip and limit

  /** With a positive limit, the loop stops once `limitLines` lines were counted. */
  lemma {:induction false} LimitedLoop(imp: Importer, limit: int, cs: int, st: ImportState, rest: seq<string>)
    requires limit > 0 && st.lineCounter <= limit
    ensures ReadLoop(imp, limit, cs, st, rest)
         == ReadLoop(imp, 0, cs, st, rest[..Min(limit - st.lineCounter, |rest|)])
    decreases |rest|
  {
    var m := Min(limit - st.lineCounter, |rest|);
    if |rest| == 0 || st.lineCounter == limit {
      assert rest[..m] == [];
    } else {
      var st' := Step(imp, cs, st, rest[0]);
      assert st'.lineCounter == st.lineCounter + 1;
      LimitedLoop(imp, limit, cs, st', rest[1..]);
      assert rest[1..][..Min(limit - st'.lineCounter, |rest[1..]|)] == rest[..m][1..];
    }
  }

  /**
   The lines the run reads after skipping are exactly the window: the
   limited loop over the rest of the input does what the unlimited loop does
   over the window.
   */
  lemma ConsumesWindow(imp: Importer, lines: seq<string>, skip: int, limit: int, cs: int)
    ensures ReadLoop(imp, limit, cs, Start, SkipLines(lines, skip))
         == ReadLoop(imp, 0, cs, Start, Window(lines, skip, limit))
  {
    if limit > 0 {
      LimitedLoop(imp, limit, cs, Start, SkipLines(lines, skip));
    }
  }

  /** The records of a run depend only on the lines of its window. */
  lemma ImportDependsOnlyOnWindow(imp: Importer, lines: seq<string>, skip: int, limit: int, cs: int)
    ensures ImportInChunks(imp, lines, skip, limit, cs) == ImportInChunks(imp, Window(lines, skip, limit), 0, 0, cs)
  {
    ConsumesWindow(imp, lines, skip, limit, cs);
  }

  /** The state the loop ends in after the window is read. */
  lemma RunInv(imp: Importer, lines: seq<string>, skip: int, limit: int, cs: int)
    ensures var W := Window(lines, skip, limit);
            var st := ReadLoop(imp, limit, cs, Start, SkipLines(lines, skip));
            && Inv(imp, cs, W, st)
            && |st.saved| == Flushes(|W|, cs)
            && Leftover(W, cs) == W[ChunkStart(|st.saved|, cs)..]
  {
    var W := Window(lines, skip, limit);
    ConsumesWindow(imp, lines, skip, limit, cs);
    StartInv(imp, cs);
    LoopInv(imp, cs, [], Start, W);
    assert [] + W == W;
    var st := ReadLoop(imp, limit, cs, Start, SkipLines(lines, skip));
    FlushesBridge(|st.saved|, |W|, cs);
  }

  /**
   Record `i` of a run over the window `W`: its metadata, and its words are
   those of chunk `i` when it was saved at a boundary, those of the lines
   after the last boundary otherwise.
   */
  ghost predicate FinalOk(imp: Importer, cs: int, W: seq<string>, recs: seq<ChunkRecord>, i: nat)
    requires i < |recs|
  {
    RecordOk(imp, cs, recs[i], i, if i < Flushes(|W|, cs) then Span(W, i, cs) else Leftover(W, cs))
  }

  lemma FinalAt(imp: Importer, cs: int, W: seq<string>, st: ImportState, i: nat)
    requires Inv(imp, cs, W, st)
    requires |st.saved| == Flushes(|W|, cs) && Leftover(W, cs) == W[ChunkStart(|st.saved|, cs)..]
    requires i < |Finish(imp, cs, st)|
    ensures FinalOk(imp, cs, W, Finish(imp, cs, st), i)
  {
    if i < |st.saved| {
      assert SavedAt(imp, cs, W, st.saved, i);
    }
  }

  lemma RunRecords(imp: Importer, lines: seq<string>, skip: int, limit: int, cs: int)
    ensures var W := Window(lines, skip, limit);
            var recs := ImportInChunks(imp, lines, skip, limit, cs);
            forall i: nat :: i < |recs| ==> FinalOk(imp, cs, W, recs, i)
  {
    var W := Window(lines, skip, limit);
    var st := ReadLoop(imp, limit, cs, Start, SkipLines(lines, skip));
    RunInv(imp, lines, skip, limit, cs);
    forall i: nat | i < |Finish(imp, cs, st)| ensures FinalOk(imp, cs, W, Finish(imp, cs, st), i) {
      FinalAt(imp, cs, W, st, i);
    }
  }

  // ---------------------------------------------------------------- theorems

  /**
   Count conservation: over all records of one run, the counts of a word add
   up to its number of occurrences in the consumed lines; skipped lines and
   lines past the limit count for nothing.
   */
  lemma ImportConservation(imp: Importer, lines: seq<string>, skip: int, limit: int, cs: int)
    ensures Bags(ImportInChunks(imp, lines, skip, limit, cs)) == multiset(TokensOf(Window(lines, skip, limit)))
    ensures forall w :: TotalCount(ImportInChunks(imp, lines, skip, limit, cs), w)
                        == multiset(TokensOf(Window(lines, skip, limit)))[w]
  {
    var st := ReadLoop(imp, limit, cs, Start, SkipLines(lines, skip));
    var recs := ImportInChunks(imp, lines, skip, limit, cs);
    RunInv(imp, lines, skip, limit, cs);
    if |st.wordCounts| > 0 {
      var rec := SaveChunkDocument(imp, st.chunkNo, cs, st.wordCounts);
      BagsAppend(st.saved, [rec]);
      assert Bags([rec]) == Bag(st.wordCounts);
    } else {
      assert Bag(st.wordCounts) == multiset{};
    }
    forall w ensures TotalCount(recs, w) == multiset(TokensOf(Window(lines, skip, limit)))[w] {
      BagsCount(recs, w);
    }
  }

  /**
   Numbering and layout: the records are numbered 0, 1, 2, ... in insertion
   order; each carries the configured chunk size (a partial last chunk too),
   the importer's source, and an `id` exactly when the importer has one.
   */
  lemma ImportNumbering(imp: Importer, lines: seq<string>, skip: int, limit: int, cs: int)
    ensures var recs := ImportInChunks(imp, lines, skip, limit, cs);
            forall i :: 0 <= i < |recs| ==>
              && recs[i].chunkNo == i
              && recs[i].chunkSize == cs
              && recs[i].source == imp.source
              && recs[i].id == imp.serverId
  {
    var W := Window(lines, skip, limit);
    var recs := ImportInChunks(imp, lines, skip, limit, cs);
    RunRecords(imp, lines, skip, limit, cs);
    forall i | 0 <= i < |recs|
      ensures recs[i].chunkNo == i && recs[i].chunkSize == cs && recs[i].source == imp.source && recs[i].id == imp.serverId
    {
      assert FinalOk(imp, cs, W, recs, i);
    }
  }

  /**
   Number of records: one per boundary flush (whether or not its lines held a
   word), plus one final record exactly when the lines after the last
   boundary hold at least one word.
   */
  lemma ImportRecordCount(imp: Importer, lines: seq<string>, skip: int, limit: int, cs: int)
    ensures var W := Window(lines, skip, limit);
            |ImportInChunks(imp, lines, skip, limit, cs)|
            == Flushes(|W|, cs) + (if |TokensOf(Leftover(W, cs))| > 0 then 1 else 0)
  {
    var W := Window(lines, skip, limit);
    var st := ReadLoop(imp, limit, cs, Start, SkipLines(lines, skip));
    RunInv(imp, lines, skip, limit, cs);
    EmptyIffEmptyBag(st.wordCounts);
    assert |TokensOf(Leftover(W, cs))| == 0 <==> multiset(TokensOf(Leftover(W, cs))) == multiset{};
  }

  /** When the window is a whole number of chunks, no trailing record follows the boundary records. */
  lemma NoTrailingRecord(imp: Importer, lines: seq<string>, skip: int, limit: int, cs: int)
    requires cs > 0 && |Window(lines, skip, limit)| % cs == 0
    ensures |ImportInChunks(imp, lines, skip, limit, cs)| == |Window(lines, skip, limit)| / cs
  {
    var W := Window(lines, skip, limit);
    ImportRecordCount(imp, lines, skip, limit, cs);
    assert Leftover(W, cs) == [];
  }

  /** Without a positive chunk size there is no boundary flush: one record if the window holds a word, none otherwise. */
  lemma NoBoundaryFlush(imp: Importer, lines: seq<string>, skip: int, limit: int, cs: int)
    requires cs <= 0
    ensures |ImportInChunks(imp, lines, skip, limit, cs)| == if |TokensOf(Window(lines, skip, limit))| > 0 then 1 else 0
  {
    var W := Window(lines, skip, limit);
    ImportRecordCount(imp, lines, skip, limit, cs);
    assert Leftover(W, cs) == W;
  }

  /**
   Contents of each record: its words are distinct, each count is at least 1,
   and the record holds exactly the words of its own lines: chunk `j` of the
   window for a boundary record, the lines after the last boundary for the
   final one.
   */
  lemma ImportChunkContents(imp: Importer, lines: seq<string>, skip: int, limit: int, cs: int)
    ensures var W := Window(lines, skip, limit);
            var recs := ImportInChunks(imp, lines, skip, limit, cs);
            forall j :: 0 <= j < |recs| ==>
              && WellFormed(recs[j].words)
              && Bag(recs[j].words)
                 == multiset(TokensOf(if j < Flushes(|W|, cs) then Span(W, j, cs) else Leftover(W, cs)))
  {
    var W := Window(lines, skip, limit);
    var recs := ImportInChunks(imp, lines, skip, limit, cs);
    RunRecords(imp, lines, skip, limit, cs);
    forall j | 0 <= j < |recs|
      ensures CountsOk(recs[j].words, if j < Flushes(|W|, cs) then Span(W, j, cs) else Leftover(W, cs))
    {
      assert FinalOk(imp, cs, W, recs, j);
    }
  }

  /** Every word a record holds is a token: non-empty and made of `a`..`z` only. */
  lemma ImportWordsAreTokens(imp: Importer, lines: seq<string>, skip: int, limit: int, cs: int)
    ensures var recs := ImportInChunks(imp, lines, skip, limit, cs);
            forall j, x :: 0 <= j < |recs| && x in Words(recs[j].words) ==> IsToken(x)
  {
    var W := Window(lines, skip, limit);
    var recs := ImportInChunks(imp, lines, skip, limit, cs);
    ImportChunkContents(imp, lines, skip, limit, cs);
    forall j, x | 0 <= j < |recs| && x in Words(recs[j].words) ensures IsToken(x) {
      var ws := recs[j].words;
      var span := if j < Flushes(|W|, cs) then Span(W, j, cs) else Leftover(W, cs);
      CountPositiveIffPresent(ws, x);
      BagCount(ws, x);
      assert x in multiset(TokensOf(span));
      var toks := TokensOf(span);
      TokensOfTokens(span);
      var i :| 0 <= i < |toks| && toks[i] == x;
    }
  }

  // ---------------------------------------------------------------- cleanData

  lemma {:induction false} CleanAppend(imp: Importer, a: seq<ChunkRecord>, b: seq<ChunkRecord>)
    ensures CleanData(imp, a + b) == CleanData(imp, a) + CleanData(imp, b)
    decreases |a|
  {
    if |a| == 0 {
      assert a + b == b;
    } else {
      assert (a + b)[1..] == a[1..] + b;
      CleanAppend(imp, a[1..], b);
    }
  }

  /** Cleaning twice removes nothing more than cleaning once. */
  lemma {:induction false} CleanIdempotent(imp: Importer, store: seq<ChunkRecord>)
    ensures CleanData(imp, CleanData(imp, store)) == CleanData(imp, store)
    decreases |store|
  {
    if |store| > 0 {
      CleanIdempotent(imp, store[1..]);
      if !CleanFilter(imp, store[0]) {
        assert ([store[0]] + CleanData(imp, store[1..]))[1..] == CleanData(imp, store[1..]);
      }
    }
  }

  /** Without a server id, every record of the source goes, whatever its `id`. */
  lemma {:induction false} CleanWithoutId(imp: Importer, store: seq<ChunkRecord>)
    requires imp.serverId.None?
    ensures forall rec :: rec in CleanData(imp, store) <==> rec in store && rec.source != imp.source
  {
    var r := CleanData(imp, store);
    CleanSpec(imp, store);
    forall rec ensures rec in r <==> rec in store && rec.source != imp.source {
      assert rec in r <==> multiset(r)[rec] > 0;
      assert rec in store <==> multiset(store)[rec] > 0;
    }
  }

  /** With a server id, only the records of that source carrying that `id` go. */
  lemma {:induction false} CleanWithId(imp: Importer, store: seq<ChunkRecord>)
    requires imp.serverId.Some?
    ensures forall rec :: rec in CleanData(imp, store)
                          <==> rec in store && (rec.source != imp.source || rec.id != imp.serverId)
  {
    var r := CleanData(imp, store);
    CleanSpec(imp, store);
    forall rec ensures rec in r <==> rec in store && (rec.source != imp.source || rec.id != imp.serverId) {
      assert rec in r <==> multiset(r)[rec] > 0;
      assert rec in store <==> multiset(store)[rec] > 0;
    }
  }

  /**
   Re-import is idempotent: cleaning and importing the same lines again into
   the collection one clean-and-import left behind yields that same collection.
   */
  lemma ReimportIdempotent(imp: Importer, store: seq<ChunkRecord>, lines: seq<string>, skip: int, limit: int, cs: int)
    ensures var recs := ImportInChunks(imp, lines, skip, limit, cs);
            var once := CleanData(imp, store) + recs;
            CleanData(imp, once) + recs == once
  {
    ImportNumbering(imp, lines, skip, limit, cs);
    CleanThenInsert(imp, store, ImportInChunks(imp, lines, skip, limit, cs));
  }

  /** Cleaning removes a batch of the importer's own records and nothing that survived an earlier clean. */
  lemma CleanThenInsert(imp: Importer, store: seq<ChunkRecord>, recs: seq<ChunkRecord>)
    requires forall i :: 0 <= i < |recs| ==> recs[i].source == imp.source && recs[i].id == imp.serverId
    ensures CleanData(imp, CleanData(imp, store) + recs) == CleanData(imp, store)
  {
    var clean := CleanData(imp, store);
    CleanAppend(imp, clean, recs);
    CleanIdempotent(imp, store);
    CleanAllMatching(imp, recs);
    assert clean + [] == clean;
  }

  lemma {:induction false} CleanAllMatching(imp: Importer, recs: seq<ChunkRecord>)
    requires forall i :: 0 <= i < |recs| ==> recs[i].source == imp.source && recs[i].id == imp.serverId
    ensures CleanData(imp, recs) == []
    decreases |recs|
  {
    if |recs| > 0 {
      CleanAllMatching(imp, recs[1..]);
    }
  }
}
