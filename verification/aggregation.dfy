/**
 The two aggregations of the word counts of one source. The pipeline
 (`$match` on `source`, `$project` of `words`, `$unwind` of `words`, `$group`
 by word with `$sum` of `cnt`) and the map-reduce job (a mapper that emits
 `(word, cnt)` for every entry, the reducer `Array.sum`, a `source` filter)
 are modelled by what their stages compute over an in-memory collection.
 Both results are maps from word to total.
 */
module Aggregation {
  import opened WordCounts
  import opened Store

  // ----------------------------------------------------------------- pipeline

  /** `$match` on `source`: the records of that source, in collection order; `id` plays no part. */
  function Match(store: seq<ChunkRecord>, source: string): (r: seq<ChunkRecord>)
    ensures forall i :: 0 <= i < |r| ==> r[i].source == source
  {
    if |store| == 0 then []
    else
      var rest := Match(store[1..], source);
      if store[0].source == source then [store[0]] + rest else rest
  }

  /** `$match` keeps every record of `source` with its multiplicity and no other record. */
  lemma {:induction false} MatchSpec(store: seq<ChunkRecord>, source: string)
    ensures forall rec :: multiset(Match(store, source))[rec]
                          == if rec.source == source then multiset(store)[rec] else 0
    decreases |store|
  {
    if |store| > 0 {
      MatchSpec(store[1..], source);
      assert store == [store[0]] + store[1..];
    }
  }

  /** `$project` and `$unwind` of `words`: one row per entry, record after record. */
  function Unwind(recs: seq<ChunkRecord>): (r: seq<WordCount>)
    ensures Words(r) == AllWords(recs)
    ensures forall w :: CountOf(r, w) == TotalCount(recs, w)
  {
    if |recs| == 0 then []
    else
      var rest := Unwind(recs[1..]);
      WordsAppend(recs[0].words, rest);
      CountOfAppendAll(recs[0].words, rest);
      recs[0].words + rest
  }

  lemma CountOfAppendAll(a: seq<WordCount>, b: seq<WordCount>)
    ensures forall w :: CountOf(a + b, w) == CountOf(a, w) + CountOf(b, w)
  {
    forall w ensures CountOf(a + b, w) == CountOf(a, w) + CountOf(b, w) {
      CountOfAppend(a, b, w);
    }
  }

  /**
   `$group` by `words.word` with `$sum` of `words.cnt`: one entry per word
   that has a row, holding the sum of that word's counts over all rows.
   */
  function GroupSum(rows: seq<WordCount>): (r: map<string, nat>)
    ensures r.Keys == Words(rows)
    ensures forall w :: w in r ==> r[w] == CountOf(rows, w)
    decreases |rows|
  {
    if |rows| == 0 then map[]
    else
      var init := rows[..|rows| - 1];
      var last := rows[|rows| - 1];
      var m := GroupSum(init);
      GroupStep(init, m, last);
      assert rows == init + [last];
      m[last.word := (if last.word in m then m[last.word] else 0) + last.cnt]
  }

  lemma GroupSnoc(rows: seq<WordCount>, last: WordCount)
    ensures Words(rows + [last]) == Words(rows) + {last.word}
    ensures forall w :: CountOf(rows + [last], w) == CountOf(rows, w) + (if last.word == w then last.cnt else 0)
  {
    WordsAppend(rows, [last]);
    WordsSingleton(last);
    forall w ensures CountOf(rows + [last], w) == CountOf(rows, w) + (if last.word == w then last.cnt else 0) {
      CountOfAppend(rows, [last], w);
      assert [last][1..] == [];
      assert CountOf([last], w) == (if last.word == w then last.cnt else 0) + CountOf([], w);
    }
  }

  /** Adding one row to the grouped map of the rows before it. */
  lemma GroupStep(rows: seq<WordCount>, m: map<string, nat>, last: WordCount)
    requires m.Keys == Words(rows)
    requires forall w :: w in m ==> m[w] == CountOf(rows, w)
    ensures var m' := m[last.word := (if last.word in m then m[last.word] else 0) + last.cnt];
            && m'.Keys == Words(rows + [last])
            && forall w :: w in m' ==> m'[w] == CountOf(rows + [last], w)
  {
    GroupSnoc(rows, last);
    if last.word !in m {
      CountPositiveOnlyIfPresent(rows, last.word);
    }
  }

  /** A word without an entry has count 0. */
  lemma {:induction false} CountPositiveOnlyIfPresent(ws: seq<WordCount>, w: string)
    requires w !in Words(ws)
    ensures CountOf(ws, w) == 0
  {
    if |ws| > 0 {
      WordsCons(ws[0], ws[1..]);
      assert ws == [ws[0]] + ws[1..];
      CountPositiveOnlyIfPresent(ws[1..], w);
    }
  }

  /**
   The pipeline: one result per word that has an entry in some record of
   `source`, holding the sum of its counts over those records.
   */
  function Aggregate(store: seq<ChunkRecord>, source: string): (r: map<string, nat>)
    ensures r.Keys == AllWords(Match(store, source))
    ensures forall w :: w in r ==> r[w] == TotalCount(Match(store, source), w)
  {
    GroupSum(Unwind(Match(store, source)))
  }

  // --------------------------------------------------------------- map-reduce

  /** One `emit(key, value)` of the mapper. */
  datatype Emission = Emission(key: string, value: nat)

  /** The mapper's loop over `words`: `emit(words[i].word, words[i].cnt)` for every `i`, in order. */
  function Mapper(words: seq<WordCount>): (r: seq<Emission>)
    ensures |r| == |words|
    ensures forall i :: 0 <= i < |r| ==> r[i].key == words[i].word && r[i].value == words[i].cnt
  {
    if |words| == 0 then [] else [Emission(words[0].word, words[0].cnt)] + Mapper(words[1..])
  }

  /** The map phase: the mapper run on every record, in collection order. */
  function EmitAll(recs: seq<ChunkRecord>): seq<Emission>
  {
    if |recs| == 0 then [] else Mapper(recs[0].words) + EmitAll(recs[1..])
  }

  /** The keys emitted. */
  function Keys(es: seq<Emission>): set<string>
  {
    set i | 0 <= i < |es| :: es[i].key
  }

  /** The values emitted for `key`, in emission order. */
  function ValuesOf(es: seq<Emission>, key: string): seq<nat>
  {
    if |es| == 0 then []
    else (if es[0].key == key then [es[0].value] else []) + ValuesOf(es[1..], key)
  }

  /** The shuffle: emissions gathered, in order, into one list of values per key. */
  function Collect(es: seq<Emission>): (r: map<string, seq<nat>>)
    ensures r.Keys == Keys(es)
    ensures forall k :: k in r ==> r[k] == ValuesOf(es, k)
    decreases |es|
  {
    if |es| == 0 then map[]
    else
      var init := es[..|es| - 1];
      var last := es[|es| - 1];
      var m := Collect(init);
      CollectStep(init, m, last);
      assert es == init + [last];
      m[last.key := (if last.key in m then m[last.key] else []) + [last.value]]
  }

  lemma CollectSnoc(es: seq<Emission>, last: Emission)
    ensures Keys(es + [last]) == Keys(es) + {last.key}
    ensures forall k :: ValuesOf(es + [last], k) == ValuesOf(es, k) + (if last.key == k then [last.value] else [])
  {
    KeysAppend(es, [last]);
    assert Keys([last]) == {last.key} by {
      assert [last][0].key == last.key;
    }
    forall k ensures ValuesOf(es + [last], k) == ValuesOf(es, k) + (if last.key == k then [last.value] else []) {
      ValuesOfAppend(es, [last], k);
      assert [last][1..] == [];
      assert ValuesOf([last], k) == (if last.key == k then [last.value] else []) + ValuesOf([], k);
    }
  }

  /** Adding one emission to the shuffle of the emissions before it. */
  lemma CollectStep(es: seq<Emission>, m: map<string, seq<nat>>, last: Emission)
    requires m.Keys == Keys(es)
    requires forall k :: k in m ==> m[k] == ValuesOf(es, k)
    ensures var m' := m[last.key := (if last.key in m then m[last.key] else []) + [last.value]];
            && m'.Keys == Keys(es + [last])
            && forall k :: k in m' ==> m'[k] == ValuesOf(es + [last], k)
  {
    CollectSnoc(es, last);
    if last.key !in m {
      NoValuesIfAbsent(es, last.key);
    }
  }

  /** A key never emitted has no values. */
  lemma {:induction false} NoValuesIfAbsent(es: seq<Emission>, key: string)
    requires key !in Keys(es)
    ensures ValuesOf(es, key) == []
  {
    if |es| > 0 {
      KeysCons(es[0], es[1..]);
      assert es == [es[0]] + es[1..];
      NoValuesIfAbsent(es[1..], key);
    }
  }

  lemma {:induction false} ValuesOfAppend(a: seq<Emission>, b: seq<Emission>, key: string)
    ensures ValuesOf(a + b, key) == ValuesOf(a, key) + ValuesOf(b, key)
    decreases |a|
  {
    if |a| == 0 {
      assert a + b == b;
    } else {
      assert (a + b)[0] == a[0];
      assert (a + b)[1..] == a[1..] + b;
      ValuesOfAppend(a[1..], b, key);
      var h := if a[0].key == key then [a[0].value] else [];
      assert ValuesOf(a + b, key) == h + (ValuesOf(a[1..], key) + ValuesOf(b, key));
      assert h + (ValuesOf(a[1..], key) + ValuesOf(b, key)) == (h + ValuesOf(a[1..], key)) + ValuesOf(b, key);
    }
  }

  /** The reducer `Array.sum(values)`. */
  function Reduce(values: seq<nat>): nat
  {
    if |values| == 0 then 0 else values[0] + Reduce(values[1..])
  }

  /** The engine leaves a key with a single value unreduced; otherwise it applies the reducer. */
  function Finalize(values: seq<nat>): (r: nat)
    ensures r == Reduce(values)
  {
    if |values| == 1 then values[0] else Reduce(values)
  }

  /**
   The map-reduce job: one result per key emitted by a record of `source`,
   holding the reduction of all values emitted for that key.
   */
  function MapReduce(store: seq<ChunkRecord>, source: string): (r: map<string, nat>)
    ensures r.Keys == AllWords(Match(store, source))
    ensures forall w :: w in r ==> r[w] == TotalCount(Match(store, source), w)
  {
    var es := EmitAll(Match(store, source));
    var groups := Collect(es);
    EmitAllSpec(Match(store, source));
    map k | k in groups :: Finalize(groups[k])
  }

  // --------------------------------------------------------------- the reducer

  lemma {:induction false} ReduceAppend(a: seq<nat>, b: seq<nat>)
    ensures Reduce(a + b) == Reduce(a) + Reduce(b)
    decreases |a|
  {
    if |a| == 0 {
      assert a + b == b;
    } else {
      assert (a + b)[1..] == a[1..] + b;
      ReduceAppend(a[1..], b);
    }
  }

  /** The reducer does not depend on the order in which values arrive. */
  lemma {:induction false} ReducePermutation(a: seq<nat>, b: seq<nat>)
    requires multiset(a) == multiset(b)
    ensures Reduce(a) == Reduce(b)
    decreases |a|
  {
    if |a| == 0 {
      assert |b| == |multiset(b)| == 0;
    } else {
      assert a[0] in multiset(b);
      var i :| 0 <= i < |b| && b[i] == a[0];
      var rest := b[..i] + b[i + 1..];
      assert multiset(a[1..]) == multiset(rest) by {
        assert a == [a[0]] + a[1..];
        RemoveAtBag(b, i);
      }
      ReducePermutation(a[1..], rest);
      RemoveAtReduce(b, i);
    }
  }

  /** Taking out the value at position `i` keeps every other value. */
  lemma RemoveAtBag(s: seq<nat>, i: nat)
    requires i < |s|
    ensures multiset(s[..i] + s[i + 1..]) == multiset(s) - multiset{s[i]}
  {
    var l, r := s[..i], s[i + 1..];
    assert s == l + [s[i]] + r;
    assert multiset(s) == multiset(l) + multiset{s[i]} + multiset(r);
  }

  /** Taking out the value at position `i` lowers the reduction by `s[i]`. */
  lemma RemoveAtReduce(s: seq<nat>, i: nat)
    requires i < |s|
    ensures Reduce(s) == s[i] + Reduce(s[..i] + s[i + 1..])
  {
    var l, t, r := s[..i], s[i..], s[i + 1..];
    assert s == l + t;
    assert t[0] == s[i] && t[1..] == r;
    ReduceAppend(l, t);
    ReduceAppend(l, r);
  }

  /** All values of a list of batches, batch after batch. */
  function Flatten(batches: seq<seq<nat>>): seq<nat>
  {
    if |batches| == 0 then [] else batches[0] + Flatten(batches[1..])
  }

  /** The partial result of every batch. */
  function Partials(batches: seq<seq<nat>>): (r: seq<nat>)
    ensures |r| == |batches|
    ensures forall i :: 0 <= i < |r| ==> r[i] == Reduce(batches[i])
  {
    if |batches| == 0 then [] else [Reduce(batches[0])] + Partials(batches[1..])
  }

  /**
   Re-reduction: reducing the partial results of any split of the values
   into batches gives the reduction of all values at once, so the engine may
   reduce in as many rounds as it likes.
   */
  lemma {:induction false} ReduceRereduce(batches: seq<seq<nat>>)
    ensures Reduce(Partials(batches)) == Reduce(Flatten(batches))
    decreases |batches|
  {
    if |batches| > 0 {
      ReduceRereduce(batches[1..]);
      ReduceAppend(batches[0], Flatten(batches[1..]));
      assert Partials(batches)[1..] == Partials(batches[1..]);
    }
  }

  // ------------------------------------------------------------ map-phase facts

  lemma {:induction false} MapperSpec(words: seq<WordCount>)
    ensures Keys(Mapper(words)) == Words(words)
    ensures forall k :: Reduce(ValuesOf(Mapper(words), k)) == CountOf(words, k)
    decreases |words|
  {
    if |words| > 0 {
      var e := Emission(words[0].word, words[0].cnt);
      MapperSpec(words[1..]);
      assert Mapper(words) == [e] + Mapper(words[1..]);
      KeysCons(e, Mapper(words[1..]));
      WordsCons(words[0], words[1..]);
      assert words == [words[0]] + words[1..];
      forall k ensures Reduce(ValuesOf(Mapper(words), k)) == CountOf(words, k) {
        ValuesOfAppend([e], Mapper(words[1..]), k);
        assert ValuesOf([e], k) == (if e.key == k then [e.value] else []) + ValuesOf([e][1..], k);
        assert [e][1..] == [];
        ReduceAppend(ValuesOf([e], k), ValuesOf(Mapper(words[1..]), k));
      }
    } else {
      assert Mapper(words) == [];
    }
  }

  lemma KeysCons(e: Emission, es: seq<Emission>)
    ensures Keys([e] + es) == {e.key} + Keys(es)
  {
    var r := [e] + es;
    forall k | k in Keys(r) ensures k in {e.key} + Keys(es) {
      var i :| 0 <= i < |r| && r[i].key == k;
      if i > 0 { assert es[i - 1].key == k; }
    }
    forall k | k in {e.key} + Keys(es) ensures k in Keys(r) {
      if k == e.key {
        assert r[0].key == k;
      } else {
        var i :| 0 <= i < |es| && es[i].key == k;
        assert r[i + 1].key == k;
      }
    }
  }

  lemma KeysAppend(a: seq<Emission>, b: seq<Emission>)
    ensures Keys(a + b) == Keys(a) + Keys(b)
  {
    var ab := a + b;
    forall k | k in Keys(ab) ensures k in Keys(a) + Keys(b) {
      var i :| 0 <= i < |ab| && ab[i].key == k;
      if i >= |a| { assert b[i - |a|].key == k; }
    }
    forall k | k in Keys(a) + Keys(b) ensures k in Keys(ab) {
      if k in Keys(a) {
        var i :| 0 <= i < |a| && a[i].key == k;
        assert ab[i].key == k;
      } else {
        var i :| 0 <= i < |b| && b[i].key == k;
        assert ab[|a| + i].key == k;
      }
    }
  }

  /** The map phase emits exactly the words of the records, and the values of a word add up to its total. */
  lemma {:induction false} EmitAllSpec(recs: seq<ChunkRecord>)
    ensures Keys(EmitAll(recs)) == AllWords(recs)
    ensures forall k :: Reduce(ValuesOf(EmitAll(recs), k)) == TotalCount(recs, k)
    decreases |recs|
  {
    if |recs| > 0 {
      var head := Mapper(recs[0].words);
      var tail := EmitAll(recs[1..]);
      EmitAllSpec(recs[1..]);
      MapperSpec(recs[0].words);
      KeysAppend(head, tail);
      forall k ensures Reduce(ValuesOf(EmitAll(recs), k)) == TotalCount(recs, k) {
        ValuesOfAppend(head, tail, k);
        ReduceAppend(ValuesOf(head, k), ValuesOf(tail, k));
      }
    }
  }

  // ------------------------------------------------------------------ results

  /**
   The two strategies agree: the same words, each with the same total (the
   map-reduce total is a floating-point number in the engine; both are
   whole numbers here). No separate proof is needed: it follows from the
   contracts of `Aggregate` and `MapReduce`, which both characterise the
   result by `AllWords` and `TotalCount` of the matching records.
   */
  lemma StrategiesAgree(store: seq<ChunkRecord>, source: string)
    ensures Aggregate(store, source).Keys == MapReduce(store, source).Keys
    ensures forall w :: w in Aggregate(store, source) ==> Aggregate(store, source)[w] == MapReduce(store, source)[w]
    ensures Aggregate(store, source) == MapReduce(store, source)
  {
  }

  /**
   Whatever batches the engine splits the values of a key into, and in
   whatever order they arrive, reducing the partial results gives the sum
   of the values.
   */
  lemma AnyReducePlan(values: seq<nat>, batches: seq<seq<nat>>)
    requires multiset(Flatten(batches)) == multiset(values)
    ensures Reduce(Partials(batches)) == Reduce(values)
  {
    ReduceRereduce(batches);
    ReducePermutation(Flatten(batches), values);
  }

  lemma {:induction false} MatchAppend(a: seq<ChunkRecord>, b: seq<ChunkRecord>, source: string)
    ensures Match(a + b, source) == Match(a, source) + Match(b, source)
    decreases |a|
  {
    if |a| == 0 {
      assert a + b == b;
    } else {
      assert (a + b)[1..] == a[1..] + b;
      MatchAppend(a[1..], b, source);
    }
  }

  /** `$match` drops a collection none of whose records is of `source`. */
  lemma {:induction false} MatchNone(recs: seq<ChunkRecord>, source: string)
    requires forall i :: 0 <= i < |recs| ==> recs[i].source != source
    ensures Match(recs, source) == []
    decreases |recs|
  {
    if |recs| > 0 {
      MatchNone(recs[1..], source);
    }
  }

  /** `$match` keeps a collection all of whose records are of `source`. */
  lemma {:induction false} MatchAll(recs: seq<ChunkRecord>, source: string)
    requires forall i :: 0 <= i < |recs| ==> recs[i].source == source
    ensures Match(recs, source) == recs
    decreases |recs|
  {
    if |recs| > 0 {
      MatchAll(recs[1..], source);
      assert recs == [recs[0]] + recs[1..];
    }
  }

  /**
   Aggregating two collections together: the words of either, each with the
   sum of its two totals (a word absent from one side counts 0 there).
   */
  lemma AggregateAppend(a: seq<ChunkRecord>, b: seq<ChunkRecord>, source: string)
    ensures var ra, rb, r := Aggregate(a, source), Aggregate(b, source), Aggregate(a + b, source);
            && r.Keys == ra.Keys + rb.Keys
            && forall w :: w in r ==> r[w] == (if w in ra then ra[w] else 0) + (if w in rb then rb[w] else 0)
  {
    var ma, mb := Match(a, source), Match(b, source);
    MatchAppend(a, b, source);
    AllWordsAppend(ma, mb);
    forall w ensures TotalCount(ma + mb, w) == (if w in AllWords(ma) then TotalCount(ma, w) else 0)
                                               + (if w in AllWords(mb) then TotalCount(mb, w) else 0)
    {
      TotalCountAppend(ma, mb, w);
      TotalAbsent(ma, w);
      TotalAbsent(mb, w);
    }
  }

  /** A word with no entry has total 0. */
  lemma {:induction false} TotalAbsent(recs: seq<ChunkRecord>, w: string)
    ensures w !in AllWords(recs) ==> TotalCount(recs, w) == 0
    decreases |recs|
  {
    if |recs| > 0 {
      TotalAbsent(recs[1..], w);
      if w !in Words(recs[0].words) {
        CountPositiveOnlyIfPresent(recs[0].words, w);
      }
    }
  }

  /** Records of other sources take no part in either strategy. */
  lemma OtherSourcesIgnored(store: seq<ChunkRecord>, other: seq<ChunkRecord>, source: string)
    requires forall i :: 0 <= i < |other| ==> other[i].source != source
    ensures Aggregate(store + other, source) == Aggregate(store, source)
    ensures MapReduce(store + other, source) == MapReduce(store, source)
  {
    MatchAppend(store, other, source);
    MatchNone(other, source);
    assert Match(store, source) + [] == Match(store, source);
  }

  /** Both results read only the words and totals of the records of `source`. */
  lemma SameTotalsSameResults(a: seq<ChunkRecord>, b: seq<ChunkRecord>, source: string)
    requires AllWords(Match(a, source)) == AllWords(Match(b, source))
    requires forall w :: TotalCount(Match(a, source), w) == TotalCount(Match(b, source), w)
    ensures Aggregate(a, source) == Aggregate(b, source)
    ensures MapReduce(a, source) == MapReduce(b, source)
  {
    SameTotalsSameAggregate(a, b, source);
    StrategiesAgree(a, source);
    StrategiesAgree(b, source);
  }

  lemma SameTotalsSameAggregate(a: seq<ChunkRecord>, b: seq<ChunkRecord>, source: string)
    requires AllWords(Match(a, source)) == AllWords(Match(b, source))
    requires forall w :: TotalCount(Match(a, source), w) == TotalCount(Match(b, source), w)
    ensures Aggregate(a, source) == Aggregate(b, source)
  {
    var ra, rb := Aggregate(a, source), Aggregate(b, source);
    assert ra.Keys == rb.Keys;
    forall w | w in ra ensures ra[w] == rb[w] {
    }
  }

  /** A record whose `words` list is empty yields no row, no emission and no key. */
  lemma EmptyRecordIgnored(store: seq<ChunkRecord>, rec: ChunkRecord, source: string)
    requires |rec.words| == 0
    ensures Aggregate(store + [rec], source) == Aggregate(store, source)
    ensures MapReduce(store + [rec], source) == MapReduce(store, source)
  {
    EmptyRecordTotals(store, rec, source);
    SameTotalsSameResults(store + [rec], store, source);
  }

  lemma EmptyRecordTotals(store: seq<ChunkRecord>, rec: ChunkRecord, source: string)
    requires |rec.words| == 0
    ensures AllWords(Match(store + [rec], source)) == AllWords(Match(store, source))
    ensures forall w :: TotalCount(Match(store + [rec], source), w) == TotalCount(Match(store, source), w)
  {
    var m := Match(store, source);
    MatchAppend(store, [rec], source);
    assert Match([rec], source) == [] || Match([rec], source) == [rec];
    assert m + [] == m;
    AllWordsAppend(m, [rec]);
    assert AllWords([rec]) == {};
    forall w ensures TotalCount(m + [rec], w) == TotalCount(m, w) {
      TotalCountAppend(m, [rec], w);
    }
  }

  /** The `id` field takes no part in either strategy: rewriting every `id` changes nothing. */
  lemma IdIgnored(store: seq<ChunkRecord>, id: Option<string>, source: string)
    ensures Aggregate(WithId(store, id), source) == Aggregate(store, source)
    ensures MapReduce(WithId(store, id), source) == MapReduce(store, source)
  {
    MatchWithId(store, id, source);
    SameWordsSameTotals(Match(WithId(store, id), source), Match(store, source));
    SameTotalsSameResults(WithId(store, id), store, source);
  }

  lemma {:induction false} MatchWithId(store: seq<ChunkRecord>, id: Option<string>, source: string)
    ensures Match(WithId(store, id), source) == WithId(Match(store, source), id)
    decreases |store|
  {
    if |store| > 0 {
      MatchWithId(store[1..], id, source);
      assert WithId(store, id)[1..] == WithId(store[1..], id);
    }
  }
}
