/**
 Per-word counting. The importer's `Map<String, Long>` accumulator is an
 association list of (word, count) entries with distinct words; a new word
 is appended, an existing one has its count raised. Every property below is
 stated through `CountOf`, which does not depend on the order of entries, so
 the order chosen here stands for any iteration order of the hash map.
 The same entry type is the `{word, cnt}` element of a saved record.
 */
module WordCounts {

  datatype WordCount = WordCount(word: string, cnt: nat)

  /** Sum of the counts of all entries for `w` (the word's count when entries are distinct). */
  function CountOf(ws: seq<WordCount>, w: string): nat
  {
    if |ws| == 0 then 0
    else (if ws[0].word == w then ws[0].cnt else 0) + CountOf(ws[1..], w)
  }

  /** The counts as a multiset of words: `w` occurs as often as its count says. */
  function Bag(ws: seq<WordCount>): multiset<string>
  {
    if |ws| == 0 then multiset{}
    else multiset{}[ws[0].word := ws[0].cnt] + Bag(ws[1..])
  }

  /** The words that have an entry. */
  function Words(ws: seq<WordCount>): set<string>
  {
    set i | 0 <= i < |ws| :: ws[i].word
  }

  /** Entries name pairwise different words. */
  predicate Distinct(ws: seq<WordCount>) {
    forall i, j :: 0 <= i < j < |ws| ==> ws[i].word != ws[j].word
  }

  /** No entry holds a zero count. */
  predicate Positive(ws: seq<WordCount>) {
    forall i :: 0 <= i < |ws| ==> ws[i].cnt >= 1
  }

  predicate WellFormed(ws: seq<WordCount>) {
    Distinct(ws) && Positive(ws)
  }

  /** Counting one more occurrence of `w`: raise its entry, or append a new entry with count 1. */
  function Observe(acc: seq<WordCount>, w: string): seq<WordCount>
  {
    if |acc| == 0 then [WordCount(w, 1)]
    else if acc[0].word == w then [acc[0].(cnt := acc[0].cnt + 1)] + acc[1..]
    else [acc[0]] + Observe(acc[1..], w)
  }

  /** Counting `w` adds `w` to the words and one `w` to the bag, and keeps the map well-formed. */
  lemma ObserveSpec(acc: seq<WordCount>, w: string)
    ensures Words(Observe(acc, w)) == Words(acc) + {w}
    ensures WellFormed(acc) ==> WellFormed(Observe(acc, w))
    ensures Bag(Observe(acc, w)) == Bag(acc) + multiset{w}
  {
    ObserveWords(acc, w);
    ObserveBag(acc, w);
    if WellFormed(acc) {
      ObserveWellFormed(acc, w);
    }
  }

  /** Counting `w` gives `w` an entry and no other word one. */
  lemma {:induction false} ObserveWords(acc: seq<WordCount>, w: string)
    ensures Words(Observe(acc, w)) == Words(acc) + {w}
    decreases |acc|
  {
    if |acc| == 0 {
      WordsSingleton(WordCount(w, 1));
    } else {
      var r := Observe(acc, w);
      assert acc == [acc[0]] + acc[1..];
      WordsCons(acc[0], acc[1..]);
      WordsCons(r[0], r[1..]);
      assert r == [r[0]] + r[1..];
      if acc[0].word != w {
        ObserveWords(acc[1..], w);
      }
    }
  }

  /** Counting `w` adds exactly one `w` to the bag. */
  lemma {:induction false} ObserveBag(acc: seq<WordCount>, w: string)
    ensures Bag(Observe(acc, w)) == Bag(acc) + multiset{w}
    decreases |acc|
  {
    var r := Observe(acc, w);
    if |acc| == 0 {
      assert r[1..] == [];
    } else if acc[0].word == w {
      assert r[1..] == acc[1..];
      assert multiset{}[w := acc[0].cnt + 1] == multiset{}[w := acc[0].cnt] + multiset{w};
    } else {
      assert r[1..] == Observe(acc[1..], w);
      ObserveBag(acc[1..], w);
    }
  }

  /** Counting keeps the words distinct and the counts positive. */
  lemma {:induction false} ObserveWellFormed(acc: seq<WordCount>, w: string)
    requires WellFormed(acc)
    ensures WellFormed(Observe(acc, w))
    decreases |acc|
  {
    if |acc| == 0 {
    } else if acc[0].word == w {
      var r := Observe(acc, w);
      forall i | 0 < i < |r| ensures r[i] == acc[i] {
      }
    } else {
      var tail := Observe(acc[1..], w);
      assert Distinct(acc[1..]) by {
        forall i, j | 0 <= i < j < |acc[1..]| ensures acc[1..][i].word != acc[1..][j].word {
          assert acc[1..][i] == acc[i + 1] && acc[1..][j] == acc[j + 1];
        }
      }
      ObserveWellFormed(acc[1..], w);
      ObserveWords(acc[1..], w);
      WordsCons(acc[0], acc[1..]);
      assert acc == [acc[0]] + acc[1..];
      assert acc[0].word !in Words(acc[1..]);
      DistinctCons(acc[0], tail);
      assert Observe(acc, w) == [acc[0]] + tail;
    }
  }

  lemma DistinctCons(e: WordCount, ws: seq<WordCount>)
    requires Distinct(ws) && e.word !in Words(ws)
    ensures Distinct([e] + ws)
  {
    var r := [e] + ws;
    forall i, j | 0 <= i < j < |r| ensures r[i].word != r[j].word {
      if i == 0 {
        assert r[j] == ws[j - 1];
        assert ws[j - 1].word in Words(ws);
      } else {
        assert r[i] == ws[i - 1] && r[j] == ws[j - 1];
      }
    }
  }

  /** Counting every token of `ts`, in order. */
  function ObserveAll(acc: seq<WordCount>, ts: seq<string>): seq<WordCount>
    decreases |ts|
  {
    if |ts| == 0 then acc else ObserveAll(Observe(acc, ts[0]), ts[1..])
  }

  /** Counting a sequence of tokens adds exactly those tokens to the bag and keeps the map well-formed. */
  lemma ObserveAllSpec(acc: seq<WordCount>, ts: seq<string>)
    ensures WellFormed(acc) ==> WellFormed(ObserveAll(acc, ts))
    ensures Bag(ObserveAll(acc, ts)) == Bag(acc) + multiset(ts)
  {
    ObserveAllBag(acc, ts);
    if WellFormed(acc) {
      ObserveAllWellFormed(acc, ts);
    }
  }

  lemma {:induction false} ObserveAllBag(acc: seq<WordCount>, ts: seq<string>)
    ensures Bag(ObserveAll(acc, ts)) == Bag(acc) + multiset(ts)
    decreases |ts|
  {
    if |ts| > 0 {
      ObserveBag(acc, ts[0]);
      ObserveAllBag(Observe(acc, ts[0]), ts[1..]);
      assert ts == [ts[0]] + ts[1..];
    }
  }

  lemma {:induction false} ObserveAllWellFormed(acc: seq<WordCount>, ts: seq<string>)
    requires WellFormed(acc)
    ensures WellFormed(ObserveAll(acc, ts))
    decreases |ts|
  {
    if |ts| > 0 {
      ObserveWellFormed(acc, ts[0]);
      ObserveAllWellFormed(Observe(acc, ts[0]), ts[1..]);
    }
  }

  /** With no zero counts, a word has an entry exactly when its count is positive. */
  lemma {:induction false} CountPositiveIffPresent(ws: seq<WordCount>, w: string)
    requires Positive(ws)
    ensures CountOf(ws, w) > 0 <==> w in Words(ws)
  {
    if |ws| > 0 {
      assert Words(ws) == {ws[0].word} + Words(ws[1..]);
      CountPositiveIffPresent(ws[1..], w);
    }
  }

  /** The count of a word is its multiplicity in the bag. */
  lemma {:induction false} BagCount(ws: seq<WordCount>, w: string)
    ensures Bag(ws)[w] == CountOf(ws, w)
  {
    if |ws| > 0 {
      BagCount(ws[1..], w);
    }
  }

  /** In a well-formed accumulator a counted word has exactly one entry, and it carries the count. */
  lemma {:induction false} EntryOfCount(ws: seq<WordCount>, w: string)
    requires WellFormed(ws) && CountOf(ws, w) > 0
    ensures WordCount(w, CountOf(ws, w)) in ws
  {
    assert |ws| > 0;
    assert WellFormed(ws[1..]);
    if ws[0].word == w {
      assert Words(ws) == {ws[0].word} + Words(ws[1..]);
      forall i | 0 <= i < |ws[1..]| ensures ws[1..][i].word != w {
        assert ws[1..][i] == ws[i + 1];
      }
      CountPositiveIffPresent(ws[1..], w);
      assert ws[0] == WordCount(w, CountOf(ws, w));
    } else {
      EntryOfCount(ws[1..], w);
    }
  }

  /** An accumulator with no zero counts is empty exactly when its bag is. */
  lemma {:induction false} EmptyIffEmptyBag(ws: seq<WordCount>)
    requires Positive(ws)
    ensures |ws| == 0 <==> Bag(ws) == multiset{}
  {
    if |ws| > 0 {
      BagCount(ws, ws[0].word);
      CountPositiveIffPresent(ws, ws[0].word);
      assert ws[0].word in Words(ws);
    }
  }

  lemma {:induction false} CountOfAppend(a: seq<WordCount>, b: seq<WordCount>, w: string)
    ensures CountOf(a + b, w) == CountOf(a, w) + CountOf(b, w)
    decreases |a|
  {
    if |a| == 0 {
      assert a + b == b;
    } else {
      assert (a + b)[1..] == a[1..] + b;
      CountOfAppend(a[1..], b, w);
    }
  }

  lemma WordsCons(e: WordCount, ws: seq<WordCount>)
    ensures Words([e] + ws) == {e.word} + Words(ws)
  {
    WordsAppend([e], ws);
    WordsSingleton(e);
  }

  lemma WordsSingleton(e: WordCount)
    ensures Words([e]) == {e.word}
  {
    assert [e][0].word == e.word;
  }

  lemma WordsAppend(a: seq<WordCount>, b: seq<WordCount>)
    ensures Words(a + b) == Words(a) + Words(b)
  {
    var ab := a + b;
    forall x | x in Words(ab) ensures x in Words(a) + Words(b) {
      var i :| 0 <= i < |ab| && ab[i].word == x;
      if i >= |a| { assert b[i - |a|].word == x; }
    }
    forall x | x in Words(a) + Words(b) ensures x in Words(ab) {
      if x in Words(a) {
        var i :| 0 <= i < |a| && a[i].word == x;
        assert ab[i].word == x;
      } else {
        var i :| 0 <= i < |b| && b[i].word == x;
        assert ab[|a| + i].word == x;
      }
    }
  }
}
