/**
 Import followed by aggregation: what the two aggregations report for the
 records one import run writes.
 */
module EndToEnd {
  import opened Tokenizer
  import opened WordCounts
  import opened Store
  import opened Importing
  import opened ImportProofs
  import opened Aggregation

  /**
   Aggregating the records of one run over its source reports exactly the
   words of the consumed lines, each with its number of occurrences, and
   the map-reduce job reports the same.
   */
  lemma AggregateImport(imp: Importer, lines: seq<string>, skip: int, limit: int, cs: int)
    ensures var toks := multiset(TokensOf(Window(lines, skip, limit)));
            var r := Aggregate(ImportInChunks(imp, lines, skip, limit, cs), imp.source);
            && (forall w :: w in r <==> w in toks)
            && (forall w :: w in r ==> r[w] == toks[w])
            && MapReduce(ImportInChunks(imp, lines, skip, limit, cs), imp.source) == r
  {
    var recs := ImportInChunks(imp, lines, skip, limit, cs);
    var toks := multiset(TokensOf(Window(lines, skip, limit)));
    ImportNumbering(imp, lines, skip, limit, cs);
    ImportChunkContents(imp, lines, skip, limit, cs);
    ImportConservation(imp, lines, skip, limit, cs);
    MatchAll(recs, imp.source);
    StrategiesAgree(recs, imp.source);
    forall w ensures w in AllWords(recs) <==> w in toks {
      AllWordsIffCounted(recs, w);
    }
  }

  /**
   Cleaning without a server id and importing again: the aggregation sees
   the new run only, whatever the collection held for that source before.
   */
  lemma CleanImportAggregate(imp: Importer, store: seq<ChunkRecord>, lines: seq<string>, skip: int, limit: int, cs: int)
    requires imp.serverId.None?
    ensures var recs := ImportInChunks(imp, lines, skip, limit, cs);
            Aggregate(CleanData(imp, store) + recs, imp.source) == Aggregate(recs, imp.source)
  {
    var recs := ImportInChunks(imp, lines, skip, limit, cs);
    var kept := CleanData(imp, store);
    MatchNone(kept, imp.source);
    MatchAppend(kept, recs, imp.source);
    assert [] + Match(recs, imp.source) == Match(recs, imp.source);
  }
}
