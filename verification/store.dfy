/**
 The document store, reduced to what the importer and the aggregator rely on:
 a collection is a sequence of chunk records, one per saved document.
 */
module Store {
  import opened WordCounts

  datatype Option<+T> = None | Some(value: T)

  /**
   One saved chunk document: `{source, id?, chunkNo, chunkSize, words: [{word, cnt}]}`.
   `id` is `None` for a document written without the `id` field.
   */
  datatype ChunkRecord = ChunkRecord(
    source: string,
    id: Option<string>,
    chunkNo: int,
    chunkSize: int,
    words: seq<WordCount>)

  /** Sum of the counts of `w` over all records. */
  function TotalCount(recs: seq<ChunkRecord>, w: string): nat
  {
    if |recs| == 0 then 0 else CountOf(recs[0].words, w) + TotalCount(recs[1..], w)
  }

  lemma {:induction false} TotalCountAppend(a: seq<ChunkRecord>, b: seq<ChunkRecord>, w: string)
    ensures TotalCount(a + b, w) == TotalCount(a, w) + TotalCount(b, w)
    decreases |a|
  {
    if |a| == 0 {
      assert a + b == b;
    } else {
      assert (a + b)[1..] == a[1..] + b;
      TotalCountAppend(a[1..], b, w);
    }
  }

  /** All counts of all records, as one multiset of words. */
  function Bags(recs: seq<ChunkRecord>): multiset<string>
  {
    if |recs| == 0 then multiset{} else Bag(recs[0].words) + Bags(recs[1..])
  }

  lemma {:induction false} BagsAppend(a: seq<ChunkRecord>, b: seq<ChunkRecord>)
    ensures Bags(a + b) == Bags(a) + Bags(b)
    decreases |a|
  {
    if |a| == 0 {
      assert a + b == b;
    } else {
      assert (a + b)[1..] == a[1..] + b;
      BagsAppend(a[1..], b);
    }
  }

  /** A word's total count is its multiplicity in the records' bag. */
  lemma {:induction false} BagsCount(recs: seq<ChunkRecord>, w: string)
    ensures Bags(recs)[w] == TotalCount(recs, w)
  {
    if |recs| > 0 {
      BagCount(recs[0].words, w);
      BagsCount(recs[1..], w);
    }
  }

  /** The words that have an entry in some record. */
  function AllWords(recs: seq<ChunkRecord>): set<string>
  {
    if |recs| == 0 then {} else Words(recs[0].words) + AllWords(recs[1..])
  }

  /** When no record holds a zero count, a word has an entry exactly when its total is positive. */
  lemma {:induction false} AllWordsIffCounted(recs: seq<ChunkRecord>, w: string)
    requires forall i :: 0 <= i < |recs| ==> Positive(recs[i].words)
    ensures w in AllWords(recs) <==> TotalCount(recs, w) > 0
  {
    if |recs| > 0 {
      CountPositiveIffPresent(recs[0].words, w);
      AllWordsIffCounted(recs[1..], w);
    }
  }

  lemma {:induction false} AllWordsAppend(a: seq<ChunkRecord>, b: seq<ChunkRecord>)
    ensures AllWords(a + b) == AllWords(a) + AllWords(b)
    decreases |a|
  {
    if |a| == 0 {
      assert a + b == b;
    } else {
      assert (a + b)[1..] == a[1..] + b;
      AllWordsAppend(a[1..], b);
    }
  }

  /** Every record with its `id` replaced by `id`. */
  function WithId(recs: seq<ChunkRecord>, id: Option<string>): (r: seq<ChunkRecord>)
    ensures |r| == |recs|
    ensures forall i :: 0 <= i < |r| ==> r[i] == recs[i].(id := id)
  {
    if |recs| == 0 then [] else [recs[0].(id := id)] + WithId(recs[1..], id)
  }

  /** Totals and words read only the `words` of the records. */
  lemma {:induction false} SameWordsSameTotals(a: seq<ChunkRecord>, b: seq<ChunkRecord>)
    requires |a| == |b|
    requires forall i :: 0 <= i < |a| ==> a[i].words == b[i].words
    ensures AllWords(a) == AllWords(b)
    ensures forall w :: TotalCount(a, w) == TotalCount(b, w)
    decreases |a|
  {
    if |a| > 0 {
      SameWordsSameTotals(a[1..], b[1..]);
    }
  }
}
