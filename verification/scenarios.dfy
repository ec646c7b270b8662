/**
 The repository's test scenarios, restated over the model. The text of the
 test resource `dump.txt` is not part of this model; `Dump` is a three-line
 stand-in for it that meets every assertion of ImporterTest: with chunk
 size 2 the first two lines hold mongo 2, floow 1, is 3 and awesome 3, the
 second line alone holds floow, is and awesome once each, and the third
 holds i, am, awesome and too. Other texts meet those assertions too (the
 tests check a record count and some entries, not the lines themselves).
 */
module Scenarios {
  import opened Tokenizer
  import opened WordCounts
  import opened Store
  import opened Importing
  import opened ImportProofs
  import opened Aggregation

  const Line1: string := "Mongo is awesome, mongo is awesome"
  const Line2: string := "Floow is awesome"
  const Line3: string := "I am awesome too!"
  const Dump: seq<string> := [Line1, Line2, Line3]

  // ------------------------------------------------------------- tokenizing

  /** A word and a separator in front of a rest whose words are known. */
  lemma ConsTail(w: string, c: char, rest: string, t: seq<string>)
    requires |w| > 0 && AllLetters(Lower(w)) && !IsLetter(LowerChar(c))
    requires Tokenize(rest) == t
    ensures Tokenize(w + [c] + rest) == [Lower(w)] + t
  {
    TokenizeCons(w, c, rest);
  }

  /** Three words with one separator after each of the first two. */
  lemma ThreeWords(a: string, c1: char, b: string, c2: char, d: string)
    requires |a| > 0 && |b| > 0 && |d| > 0
    requires AllLetters(Lower(a)) && AllLetters(Lower(b)) && AllLetters(Lower(d))
    requires !IsLetter(LowerChar(c1)) && !IsLetter(LowerChar(c2))
    ensures Tokenize(a + [c1] + (b + [c2] + d)) == [Lower(a)] + ([Lower(b)] + [Lower(d)])
  {
    TokenizeWord(d);
    ConsTail(b, c2, d, [Lower(d)]);
    ConsTail(a, c1, b + [c2] + d, [Lower(b)] + [Lower(d)]);
  }

  /** Two parts joined by a run of two separators: the words of each part, nothing in between. */
  lemma TwoParts(x: string, c1: char, c2: char, y: string)
    requires !IsLetter(LowerChar(c1)) && !IsLetter(LowerChar(c2))
    ensures Tokenize(x + [c1] + ([c2] + y)) == Tokenize(x) + Tokenize(y)
  {
    TokenizeSplit(x, c1, [c2] + y);
    TokenizeSep(c2, y);
  }

  /** Four words, each followed by a separator. */
  lemma FourWordsEnd(a: string, c1: char, b: string, c2: char, d: string, c3: char, e: string, c4: char)
    requires |a| > 0 && |b| > 0 && |d| > 0 && |e| > 0
    requires AllLetters(Lower(a)) && AllLetters(Lower(b)) && AllLetters(Lower(d)) && AllLetters(Lower(e))
    requires !IsLetter(LowerChar(c1)) && !IsLetter(LowerChar(c2))
    requires !IsLetter(LowerChar(c3)) && !IsLetter(LowerChar(c4))
    ensures Tokenize(a + [c1] + (b + [c2] + (d + [c3] + (e + [c4])))) == [Lower(a)] + ([Lower(b)] + ([Lower(d)] + [Lower(e)]))
  {
    TokenizeWordSep(e, c4);
    ConsTail(d, c3, e + [c4], [Lower(e)]);
    ConsTail(b, c2, d + [c3] + (e + [c4]), [Lower(d)] + [Lower(e)]);
    ConsTail(a, c1, b + [c2] + (d + [c3] + (e + [c4])), [Lower(b)] + ([Lower(d)] + [Lower(e)]));
  }

  lemma Separators()
    ensures !IsLetter(LowerChar(' ')) && !IsLetter(LowerChar(',')) && !IsLetter(LowerChar('!'))
  {
  }

  lemma LowerWords()
    ensures Lower("Mongo") == "mongo" && Lower("Floow") == "floow" && Lower("I") == "i"
    ensures AllLetters("mongo") && AllLetters("floow") && AllLetters("i")
  {
    assert Lower("Mongo")[0] == 'm';
    assert Lower("Floow")[0] == 'f';
    assert Lower("I")[0] == 'i';
  }

  lemma PlainWords()
    ensures Lower("is") == "is" && Lower("awesome") == "awesome" && Lower("am") == "am"
    ensures Lower("too") == "too" && Lower("mongo") == "mongo"
    ensures AllLetters("is") && AllLetters("awesome") && AllLetters("am") && AllLetters("too")
  {
    LowerLetters("is");
    LowerLetters("awesome");
    LowerLetters("am");
    LowerLetters("too");
    LowerLetters("mongo");
  }

  lemma Line1Parts()
    ensures Line1 == ("Mongo" + [' '] + ("is" + [' '] + "awesome")) + [','] + ([' '] + ("mongo" + [' '] + ("is" + [' '] + "awesome")))
  {
  }

  lemma Line2Parts()
    ensures Line2 == "Floow" + [' '] + ("is" + [' '] + "awesome")
  {
  }

  lemma Line3Parts()
    ensures Line3 == "I" + [' '] + ("am" + [' '] + ("awesome" + [' '] + ("too" + ['!'])))
  {
  }

  /**
   Java's split drops trailing empty pieces: a word followed by separators is
   that word alone, a line of separators gives no piece, and the empty line
   gives one empty piece. `Fields` keeps the empty pieces.
   */
  lemma SplitExamples()
    ensures Split("a!!") == ["a"]
    ensures Split("!!") == []
    ensures Split("") == [""]
    ensures Fields("!!") == ["", "", ""]
  {
    assert !IsLetter('!');
    assert Fields("") == [""];
    assert "!" == ['!'] + "";
    assert Fields("!") == ["", ""];
    assert "!!" == ['!'] + "!";
    assert Fields("!!") == ["", "", ""];
    assert "a!!"[0] == 'a' && "a!!"[1..] == "!!";
    assert ['a'] + "" == "a" && ["", "", ""][1..] == ["", ""];
    assert Fields("a!!") == ["a", "", ""];
    assert !AllLetters("!!") by { assert "!!"[0] == '!'; }
    assert !AllLetters("a!!") by { assert "a!!"[1] == '!'; }
    assert DropTrailingEmpty(["", "", ""]) == [] by {
      assert ["", "", ""][..2] == ["", ""];
      assert ["", ""][..1] == [""];
      assert [""][..0] == [];
    }
    assert DropTrailingEmpty(["a", "", ""]) == ["a"] by {
      assert ["a", "", ""][..2] == ["a", ""];
      assert ["a", ""][..1] == ["a"];
    }
  }

  /** Helpers: regrouping concatenated singletons as a sequence display. */
  lemma Join3<T>(x: T, y: T, z: T)
    ensures [x] + ([y] + [z]) == [x, y, z]
  {
  }

  lemma Join4<T>(x: T, y: T, z: T, u: T)
    ensures [x] + ([y] + ([z] + [u])) == [x, y, z, u]
  {
  }

  lemma Join33<T>(x: T, y: T, z: T, u: T, v: T, w: T)
    ensures [x, y, z] + [u, v, w] == [x, y, z, u, v, w]
  {
  }

  /** A comma and a space in a row separate two words; no empty word is counted. */
  lemma TokenizeLine1()
    ensures Tokenize(Line1) == ["mongo", "is", "awesome", "mongo", "is", "awesome"]
  {
    Line1Parts();
    Separators();
    LowerWords();
    PlainWords();
    ThreeWords("Mongo", ' ', "is", ' ', "awesome");
    ThreeWords("mongo", ' ', "is", ' ', "awesome");
    Join3("mongo", "is", "awesome");
    TwoParts("Mongo" + [' '] + ("is" + [' '] + "awesome"), ',', ' ', "mongo" + [' '] + ("is" + [' '] + "awesome"));
    Join33("mongo", "is", "awesome", "mongo", "is", "awesome");
  }

  lemma TokenizeLine2()
    ensures Tokenize(Line2) == ["floow", "is", "awesome"]
  {
    Line2Parts();
    Separators();
    LowerWords();
    PlainWords();
    ThreeWords("Floow", ' ', "is", ' ', "awesome");
    Join3("floow", "is", "awesome");
  }

  /** A trailing `!` ends the last word and adds none. */
  lemma TokenizeLine3()
    ensures Tokenize(Line3) == ["i", "am", "awesome", "too"]
  {
    Line3Parts();
    Separators();
    LowerWords();
    PlainWords();
    FourWordsEnd("I", ' ', "am", ' ', "awesome", ' ', "too", '!');
    Join4("i", "am", "awesome", "too");
  }

  // ---------------------------------------------------------------- importing

  /** A counted word with a known bag multiplicity is an entry `{word, cnt}` of the record. */
  lemma Contains(ws: seq<WordCount>, w: string, n: nat)
    requires WellFormed(ws) && n > 0 && Bag(ws)[w] == n
    ensures WordCount(w, n) in ws
  {
    BagCount(ws, w);
    EntryOfCount(ws, w);
  }

  /**
   Skip 1, limit 1: the run reads only the second line. One record holds its
   words (none when it has no word, unless a chunk size of 1 forces a
   boundary flush), numbered 0 and carrying the configured chunk size.
   */
  lemma OneLineWindow(imp: Importer, lines: seq<string>, cs: int)
    requires |lines| >= 2
    ensures var recs := ImportInChunks(imp, lines, 1, 1, cs);
            && |recs| == (if cs == 1 || |Tokenize(lines[1])| > 0 then 1 else 0)
            && forall i :: 0 <= i < |recs| ==>
                 && recs[i].chunkNo == 0 && recs[i].chunkSize == cs
                 && recs[i].source == imp.source && recs[i].id == imp.serverId
                 && WellFormed(recs[i].words)
                 && Bag(recs[i].words) == multiset(Tokenize(lines[1]))
  {
    var W := Window(lines, 1, 1);
    assert W == [lines[1]];
    assert TokensOf(W) == Tokenize(lines[1]) by {
      assert W[1..] == [];
    }
    ImportRecordCount(imp, lines, 1, 1, cs);
    ImportNumbering(imp, lines, 1, 1, cs);
    ImportChunkContents(imp, lines, 1, 1, cs);
    OneLineChunks(W, cs);
  }

  lemma OneLineChunks(W: seq<string>, cs: int)
    requires |W| == 1
    ensures Flushes(1, cs) == if cs == 1 then 1 else 0
    ensures cs == 1 ==> Span(W, 0, cs) == W && Leftover(W, cs) == []
    ensures cs != 1 ==> Leftover(W, cs) == W
  {
    if cs == 1 {
      assert ChunkStart(1, cs) == 1;
    } else if cs > 1 {
      assert 1 / cs == 0 && 1 % cs == 1;
    }
  }

  /**
   Three lines in chunks of two: a boundary record for the first two lines,
   then a final record for the third line when it has a word.
   */
  lemma ThreeLinesChunksOfTwo(imp: Importer, lines: seq<string>)
    requires |lines| == 3
    ensures var recs := ImportInChunks(imp, lines, 0, 0, 2);
            && |recs| == (if |Tokenize(lines[2])| > 0 then 2 else 1)
            && (forall i :: 0 <= i < |recs| ==>
                 && recs[i].chunkNo == i && recs[i].chunkSize == 2
                 && recs[i].source == imp.source && recs[i].id == imp.serverId
                 && WellFormed(recs[i].words))
            && Bag(recs[0].words) == multiset(Tokenize(lines[0]) + Tokenize(lines[1]))
            && (|recs| == 2 ==> Bag(recs[1].words) == multiset(Tokenize(lines[2])))
  {
    ThreeLinesCount(imp, lines);
    ImportNumbering(imp, lines, 0, 0, 2);
    ThreeLinesContents(imp, lines);
  }

  lemma ThreeLinesCount(imp: Importer, lines: seq<string>)
    requires |lines| == 3
    ensures |ImportInChunks(imp, lines, 0, 0, 2)| == if |Tokenize(lines[2])| > 0 then 2 else 1
  {
    assert Window(lines, 0, 0) == lines;
    ThreeLines(lines);
    ImportRecordCount(imp, lines, 0, 0, 2);
  }

  lemma ThreeLinesContents(imp: Importer, lines: seq<string>)
    requires |lines| == 3
    ensures var recs := ImportInChunks(imp, lines, 0, 0, 2);
            && |recs| >= 1
            && (forall i :: 0 <= i < |recs| ==> WellFormed(recs[i].words))
            && Bag(recs[0].words) == multiset(Tokenize(lines[0]) + Tokenize(lines[1]))
            && (|recs| == 2 ==> Bag(recs[1].words) == multiset(Tokenize(lines[2])))
  {
    var recs := ImportInChunks(imp, lines, 0, 0, 2);
    assert Window(lines, 0, 0) == lines;
    ThreeLinesCount(imp, lines);
    ThreeLines(lines);
    ImportChunkContents(imp, lines, 0, 0, 2);
    assert Bag(recs[0].words) == multiset(TokensOf(Span(lines, 0, 2)));
    if |recs| == 2 {
      assert Bag(recs[1].words) == multiset(TokensOf(Leftover(lines, 2)));
    }
  }

  lemma ThreeLines(lines: seq<string>)
    requires |lines| == 3
    ensures Flushes(3, 2) == 1
    ensures Span(lines, 0, 2) == lines[..2] && TokensOf(lines[..2]) == Tokenize(lines[0]) + Tokenize(lines[1])
    ensures Leftover(lines, 2) == lines[2..] && TokensOf(lines[2..]) == Tokenize(lines[2])
  {
    ThreeLinesBounds(lines);
    assert lines[..2] == [lines[0]] + [lines[1]];
    TokensOfAppend([lines[0]], [lines[1]]);
    TokensOfOne(lines[0]);
    TokensOfOne(lines[1]);
    assert lines[2..] == [lines[2]];
    TokensOfOne(lines[2]);
  }

  lemma ThreeLinesBounds(lines: seq<string>)
    requires |lines| == 3
    ensures Flushes(3, 2) == 1
    ensures Span(lines, 0, 2) == lines[..2]
    ensures Leftover(lines, 2) == lines[2..]
  {
    assert ChunkStart(1, 2) == 2;
    assert Boundary(3, 2) == 2;
  }

  lemma TokensOfOne(line: string)
    ensures TokensOf([line]) == Tokenize(line)
  {
    assert [line][1..] == [];
  }

  /** The words of the first two lines, as a bag. */
  lemma FirstChunkBag()
    ensures var m := multiset(["mongo", "is", "awesome", "mongo", "is", "awesome"] + ["floow", "is", "awesome"]);
            m["mongo"] == 2 && m["floow"] == 1 && m["is"] == 3 && m["awesome"] == 3
  {
  }

  lemma SecondChunkBag()
    ensures var m := multiset(["i", "am", "awesome", "too"]);
            m["i"] == 1 && m["am"] == 1 && m["awesome"] == 1 && m["too"] == 1
  {
  }

  lemma SecondLineBag()
    ensures var m := multiset(["floow", "is", "awesome"]);
            m["floow"] == 1 && m["is"] == 1 && m["awesome"] == 1
  {
  }

  /**
   The whole input in chunks of two, without an identifier: two records,
   numbered 0 and 1, the first counting mongo 2, floow 1, is 3 and awesome 3,
   the second i, am, awesome and too once each.
   */
  lemma ImportWholeFile()
    ensures var recs := ImportInChunks(Importer("dump.txt", None), Dump, 0, 0, 2);
            && |recs| == 2
            && recs[0].source == "dump.txt" && recs[0].chunkNo == 0 && recs[0].chunkSize == 2
            && recs[0].id == None
            && WordCount("mongo", 2) in recs[0].words && WordCount("floow", 1) in recs[0].words
            && WordCount("is", 3) in recs[0].words && WordCount("awesome", 3) in recs[0].words
            && recs[1].source == "dump.txt" && recs[1].chunkNo == 1 && recs[1].chunkSize == 2
            && WordCount("i", 1) in recs[1].words && WordCount("am", 1) in recs[1].words
            && WordCount("awesome", 1) in recs[1].words && WordCount("too", 1) in recs[1].words
  {
    var imp := Importer("dump.txt", None);
    var recs := ImportInChunks(imp, Dump, 0, 0, 2);
    TokenizeLine1();
    TokenizeLine2();
    TokenizeLine3();
    ThreeLinesChunksOfTwo(imp, Dump);
    FirstChunkBag();
    SecondChunkBag();
    var a := recs[0].words;
    var b := recs[1].words;
    Contains(a, "mongo", 2);
    Contains(a, "floow", 1);
    Contains(a, "is", 3);
    Contains(a, "awesome", 3);
    Contains(b, "i", 1);
    Contains(b, "am", 1);
    Contains(b, "awesome", 1);
    Contains(b, "too", 1);
  }

  /** Skip 1, limit 1, identifier "serverId1": one record, chunk 0, holding floow, is and awesome once each. */
  lemma ImportSecondLineOnly()
    ensures var recs := ImportInChunks(Importer("dump.txt", Some("serverId1")), Dump, 1, 1, 2);
            && |recs| == 1
            && recs[0].source == "dump.txt" && recs[0].chunkNo == 0 && recs[0].chunkSize == 2
            && recs[0].id == Some("serverId1")
            && WordCount("floow", 1) in recs[0].words && WordCount("is", 1) in recs[0].words
            && WordCount("awesome", 1) in recs[0].words
  {
    var imp := Importer("dump.txt", Some("serverId1"));
    var recs := ImportInChunks(imp, Dump, 1, 1, 2);
    TokenizeLine2();
    OneLineWindow(imp, Dump, 2);
    SecondLineBag();
    var a := recs[0].words;
    Contains(a, "floow", 1);
    Contains(a, "is", 1);
    Contains(a, "awesome", 1);
  }

  // ----------------------------------------------------------- stored records

  const Chunk0: seq<WordCount> := [WordCount("mongo", 2), WordCount("is", 2), WordCount("awesome", 2)]
  const Chunk1: seq<WordCount> := [WordCount("floow", 1), WordCount("is", 1), WordCount("awesome", 1)]
  const Chunk2: seq<WordCount> := [WordCount("i", 1), WordCount("am", 1), WordCount("awesome", 1), WordCount("too", 1)]

  /** A collection with records of two sources, with and without an identifier. */
  const Mixed: seq<ChunkRecord> := [
    ChunkRecord("dump.txt", None, 0, 1, Chunk0),
    ChunkRecord("dump.txt", Some("serverId1"), 1, 1, Chunk1),
    ChunkRecord("dump.txt", Some("serverId2"), 1, 1, Chunk1),
    ChunkRecord("dump2.txt", None, 2, 1, Chunk2)]

  lemma CleanCons(imp: Importer, rec: ChunkRecord, rest: seq<ChunkRecord>)
    ensures CleanData(imp, [rec] + rest) == (if CleanFilter(imp, rec) then [] else [rec]) + CleanData(imp, rest)
  {
    assert ([rec] + rest)[1..] == rest;
  }

  /** Cleaning a four-record collection keeps each record that fails the filter, in order. */
  lemma CleanFour(imp: Importer, a: ChunkRecord, b: ChunkRecord, c: ChunkRecord, d: ChunkRecord)
    ensures CleanData(imp, [a, b, c, d])
            == (if CleanFilter(imp, a) then [] else [a]) + (if CleanFilter(imp, b) then [] else [b])
               + (if CleanFilter(imp, c) then [] else [c]) + (if CleanFilter(imp, d) then [] else [d])
  {
    assert [a, b, c, d] == [a] + ([b] + ([c] + ([d] + [])));
    CleanCons(imp, d, []);
    CleanCons(imp, c, [d] + []);
    CleanCons(imp, b, [c] + ([d] + []));
    CleanCons(imp, a, [b] + ([c] + ([d] + [])));
  }

  lemma MixedSources()
    ensures Mixed[0].source == "dump.txt" && Mixed[1].source == "dump.txt" && Mixed[2].source == "dump.txt"
    ensures Mixed[3].source != "dump.txt"
    ensures Mixed[0].id == None && Mixed[1].id == Some("serverId1") && Mixed[2].id != Some("serverId1")
  {
    assert |Mixed[3].source| != |"dump.txt"|;
    assert Mixed[2].id.value[8] != "serverId1"[8];
  }

  /** Without an identifier every record of the source goes, whatever its `id`: only the other source's record is left. */
  lemma CleanMixedWithoutId()
    ensures CleanData(Importer("dump.txt", None), Mixed) == [Mixed[3]]
  {
    MixedSources();
    CleanFour(Importer("dump.txt", None), Mixed[0], Mixed[1], Mixed[2], Mixed[3]);
    assert Mixed == [Mixed[0], Mixed[1], Mixed[2], Mixed[3]];
  }

  /** With identifier "serverId1" only that identifier's record goes: three are left. */
  lemma CleanMixedWithId()
    ensures CleanData(Importer("dump.txt", Some("serverId1")), Mixed) == [Mixed[0], Mixed[2], Mixed[3]]
  {
    MixedSources();
    CleanFour(Importer("dump.txt", Some("serverId1")), Mixed[0], Mixed[1], Mixed[2], Mixed[3]);
    assert Mixed == [Mixed[0], Mixed[1], Mixed[2], Mixed[3]];
  }

  // -------------------------------------------------------------- aggregating

  /** Three chunks of one source, one line each. */
  const Corpus: seq<ChunkRecord> := [
    ChunkRecord("dump.txt", None, 0, 1, Chunk0),
    ChunkRecord("dump.txt", None, 1, 1, Chunk1),
    ChunkRecord("dump.txt", None, 2, 1, Chunk2)]

  lemma TotalCons(rec: ChunkRecord, rest: seq<ChunkRecord>, w: string)
    ensures TotalCount([rec] + rest, w) == CountOf(rec.words, w) + TotalCount(rest, w)
    ensures AllWords([rec] + rest) == Words(rec.words) + AllWords(rest)
  {
    assert ([rec] + rest)[1..] == rest;
  }

  lemma TotalThree(a: ChunkRecord, b: ChunkRecord, c: ChunkRecord, w: string)
    ensures TotalCount([a, b, c], w) == CountOf(a.words, w) + CountOf(b.words, w) + CountOf(c.words, w)
    ensures AllWords([a, b, c]) == Words(a.words) + Words(b.words) + Words(c.words)
  {
    assert [a, b, c] == [a] + ([b] + ([c] + []));
    TotalCons(c, [], w);
    TotalCons(b, [c] + [], w);
    TotalCons(a, [b] + ([c] + []), w);
  }

  lemma CountCons(x: WordCount, rest: seq<WordCount>, w: string)
    ensures CountOf([x] + rest, w) == (if x.word == w then x.cnt else 0) + CountOf(rest, w)
    ensures Words([x] + rest) == {x.word} + Words(rest)
  {
    assert ([x] + rest)[1..] == rest;
    WordsCons(x, rest);
  }

  lemma CountThree(x: WordCount, y: WordCount, z: WordCount, w: string)
    ensures CountOf([x, y, z], w) == (if x.word == w then x.cnt else 0) + (if y.word == w then y.cnt else 0)
                                     + (if z.word == w then z.cnt else 0)
    ensures Words([x, y, z]) == {x.word, y.word, z.word}
  {
    assert [x, y, z] == [x] + ([y] + ([z] + []));
    CountCons(z, [], w);
    CountCons(y, [z] + [], w);
    CountCons(x, [y] + ([z] + []), w);
  }

  lemma CountFour(x: WordCount, y: WordCount, z: WordCount, u: WordCount, w: string)
    ensures CountOf([x, y, z, u], w) == (if x.word == w then x.cnt else 0) + CountOf([y, z, u], w)
    ensures Words([x, y, z, u]) == {x.word} + Words([y, z, u])
  {
    assert [x, y, z, u] == [x] + [y, z, u];
    CountCons(x, [y, z, u], w);
  }

  /** Every total of the corpus, word by word: the sum of the word's entries in the three chunks. */
  lemma CorpusTotal(w: string)
    ensures TotalCount(Corpus, w)
            == (if w == "mongo" then 2 else 0) + (if w == "is" then 2 else 0) + (if w == "awesome" then 2 else 0)
               + (if w == "floow" then 1 else 0) + (if w == "is" then 1 else 0) + (if w == "awesome" then 1 else 0)
               + (if w == "i" then 1 else 0) + (if w == "am" then 1 else 0)
               + (if w == "awesome" then 1 else 0) + (if w == "too" then 1 else 0)
    ensures AllWords(Corpus) == {"mongo", "is", "awesome"} + {"floow", "is", "awesome"} + ({"i"} + {"am", "awesome", "too"})
  {
    assert Corpus == [Corpus[0], Corpus[1], Corpus[2]];
    TotalThree(Corpus[0], Corpus[1], Corpus[2], w);
    CountThree(Chunk0[0], Chunk0[1], Chunk0[2], w);
    assert Chunk0 == [Chunk0[0], Chunk0[1], Chunk0[2]];
    CountThree(Chunk1[0], Chunk1[1], Chunk1[2], w);
    assert Chunk1 == [Chunk1[0], Chunk1[1], Chunk1[2]];
    CountFour(Chunk2[0], Chunk2[1], Chunk2[2], Chunk2[3], w);
    CountThree(Chunk2[1], Chunk2[2], Chunk2[3], w);
    assert Chunk2 == [Chunk2[0], Chunk2[1], Chunk2[2], Chunk2[3]];
  }

  const Expected: map<string, nat> := map["awesome" := 4, "is" := 3, "mongo" := 2, "am" := 1, "floow" := 1, "i" := 1, "too" := 1]

  lemma ExpectedSize()
    ensures |Expected| == 7
  {
    assert Expected.Keys == {"awesome", "is", "mongo", "am", "floow", "i", "too"};
  }

  lemma CorpusKeys()
    ensures AllWords(Corpus) == Expected.Keys
  {
    CorpusTotal("");
  }

  lemma CorpusValues()
    ensures forall w :: w in Expected ==> TotalCount(Corpus, w) == Expected[w]
  {
    CorpusTotal("awesome");
    CorpusTotal("is");
    CorpusTotal("mongo");
    CorpusTotal("am");
    CorpusTotal("floow");
    CorpusTotal("i");
    CorpusTotal("too");
  }

  /** A result is pinned down by its words and their totals. */
  lemma AggregateIs(store: seq<ChunkRecord>, source: string, m: map<string, nat>)
    requires AllWords(Match(store, source)) == m.Keys
    requires forall w :: w in m ==> TotalCount(Match(store, source), w) == m[w]
    ensures Aggregate(store, source) == m && MapReduce(store, source) == m
  {
    StrategiesAgree(store, source);
  }

  /** Both strategies give seven words: awesome 4, is 3, mongo 2, am, floow, i and too 1. */
  lemma AggregateCorpus()
    ensures Aggregate(Corpus, "dump.txt") == Expected
    ensures MapReduce(Corpus, "dump.txt") == Expected
    ensures |Aggregate(Corpus, "dump.txt")| == 7
  {
    MatchAll(Corpus, "dump.txt");
    CorpusKeys();
    CorpusValues();
    AggregateIs(Corpus, "dump.txt", Expected);
    ExpectedSize();
  }
}
