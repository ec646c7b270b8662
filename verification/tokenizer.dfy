/**
 The tokenizer of the importer: a line is lower-cased and split on every
 character outside `a`..`z`; empty pieces are dropped. Lower-casing is the
 ASCII part of Java's `toLowerCase`: `A`..`Z` become `a`..`z`, every other
 character is kept as it is (and is therefore a separator).
 */
module Tokenizer {

  /** A character that may be part of a token (the class `[a-z]`). */
  predicate IsLetter(c: char) {
    'a' <= c <= 'z'
  }

  /** A string made only of token characters. */
  predicate AllLetters(s: string) {
    forall i :: 0 <= i < |s| ==> IsLetter(s[i])
  }

  /** A well-formed token: non-empty and made only of `a`..`z`. */
  predicate IsToken(t: string) {
    |t| > 0 && AllLetters(t)
  }

  /** ASCII lower-casing of one character. */
  function LowerChar(c: char): (r: char)
    ensures 'A' <= c <= 'Z' ==> IsLetter(r) && r as int == c as int + 32
    ensures !('A' <= c <= 'Z') ==> r == c
    ensures IsLetter(r) <==> ('a' <= c <= 'z' || 'A' <= c <= 'Z')
  {
    if 'A' <= c <= 'Z' then (c as int + 32) as char else c
  }

  /** Lower-casing of a whole line, character by character. */
  function Lower(s: string): (r: string)
    ensures |r| == |s|
    ensures forall i :: 0 <= i < |s| ==> r[i] == LowerChar(s[i])
  {
    seq(|s|, i requires 0 <= i < |s| => LowerChar(s[i]))
  }

  /**
   The pieces of `s` between separators: every non-letter ends one piece and
   starts the next, so a string with k separators has k + 1 pieces, some of
   them possibly empty. Unlike Java's `split` (see `Split`) this keeps the
   trailing empty pieces; the words are the same either way (`SplitWords`).
   */
  function Fields(s: string): (r: seq<string>)
    ensures |r| >= 1
    ensures forall j :: 0 <= j < |r| ==> AllLetters(r[j])
    decreases |s|
  {
    if |s| == 0 then [""]
    else
      var rest := Fields(s[1..]);
      if IsLetter(s[0]) then [[s[0]] + rest[0]] + rest[1..] else [""] + rest
  }

  /** `fs` without its trailing empty strings. */
  function DropTrailingEmpty(fs: seq<string>): (r: seq<string>)
    ensures |r| <= |fs| && r == fs[..|r|]
    ensures |r| > 0 ==> |r[|r| - 1]| > 0
    ensures forall k :: |r| <= k < |fs| ==> fs[k] == ""
    decreases |fs|
  {
    if |fs| == 0 || |fs[|fs| - 1]| > 0 then fs else DropTrailingEmpty(fs[..|fs| - 1])
  }

  /**
   Java's `String.split(regex)` with the class `[^a-z]`: the pieces between
   separators with trailing empty pieces removed, except that a string
   without any separator is returned whole (so `""` gives `[""]` and a line
   of separators only gives no piece at all).
   */
  function Split(s: string): (r: seq<string>)
    ensures forall j :: 0 <= j < |r| ==> AllLetters(r[j])
    ensures (forall i :: 0 <= i < |s| ==> IsLetter(s[i])) ==> r == [s]
    ensures (exists i :: 0 <= i < |s| && !IsLetter(s[i])) ==> |r| == 0 || |r[|r| - 1]| > 0
  {
    var fs := Fields(s);
    if AllLetters(s) then (FieldsOfLetters(s); fs) else (SeparatorSplits(s); DropTrailingEmpty(fs))
  }

  /** A string with a separator has more than one piece. */
  lemma {:induction false} SeparatorSplits(s: string)
    requires !AllLetters(s)
    ensures |Fields(s)| > 1
    decreases |s|
  {
    if IsLetter(s[0]) {
      assert !AllLetters(s[1..]) by {
        var i :| 0 <= i < |s| && !IsLetter(s[i]);
        assert s[1..][i - 1] == s[i];
      }
      SeparatorSplits(s[1..]);
    }
  }

  /** The non-empty strings of `fs`, in order. */
  function NonEmpty(fs: seq<string>): (r: seq<string>)
    ensures |r| <= |fs|
  {
    if |fs| == 0 then []
    else if |fs[0]| > 0 then [fs[0]] + NonEmpty(fs[1..])
    else NonEmpty(fs[1..])
  }

  /** `NonEmpty` keeps exactly the non-empty pieces: nothing is invented and no non-empty piece is lost. */
  lemma {:induction false} NonEmptyMembers(fs: seq<string>)
    ensures forall t :: t in NonEmpty(fs) ==> t in fs && |t| > 0
    ensures forall f :: f in fs && |f| > 0 ==> f in NonEmpty(fs)
    decreases |fs|
  {
    if |fs| > 0 {
      NonEmptyMembers(fs[1..]);
      assert fs == [fs[0]] + fs[1..];
    }
  }

  /** The words of one line, in order of appearance. */
  function Tokenize(line: string): seq<string>
  {
    NonEmpty(Fields(Lower(line)))
  }

  /** Every word of a line is a token: runs of separators never yield an empty word. */
  lemma TokenizeTokens(line: string)
    ensures forall i :: 0 <= i < |Tokenize(line)| ==> IsToken(Tokenize(line)[i])
  {
    var fs := Fields(Lower(line));
    var r := NonEmpty(fs);
    NonEmptyMembers(fs);
    forall i | 0 <= i < |r| ensures IsToken(r[i]) {
      assert r[i] in r;
      var j :| 0 <= j < |fs| && fs[j] == r[i];
    }
  }

  lemma NonEmptyAppend(a: seq<string>, b: seq<string>)
    ensures NonEmpty(a + b) == NonEmpty(a) + NonEmpty(b)
  {
    if |a| > 0 {
      assert (a + b)[1..] == a[1..] + b;
      NonEmptyAppend(a[1..], b);
    } else {
      assert a + b == b;
    }
  }

  lemma {:induction false} FieldsSplit(a: string, c: char, b: string)
    requires !IsLetter(c)
    ensures Fields(a + [c] + b) == Fields(a) + Fields(b)
    decreases |a|
  {
    if |a| == 0 {
      assert a + [c] + b == [c] + b;
      assert ([c] + b)[1..] == b;
    } else {
      assert (a + [c] + b)[1..] == a[1..] + [c] + b;
      FieldsSplit(a[1..], c, b);
    }
  }

  lemma LowerAppend(a: string, b: string)
    ensures Lower(a + b) == Lower(a) + Lower(b)
  {
  }

  /**
   A separator cuts a line in two: the words of `a + [c] + b` are the words
   of `a` followed by the words of `b`, whatever runs of separators the two
   halves begin or end with.
   */
  lemma TokenizeSplit(a: string, c: char, b: string)
    requires !IsLetter(LowerChar(c))
    ensures Tokenize(a + [c] + b) == Tokenize(a) + Tokenize(b)
  {
    LowerAppend(a + [c], b);
    LowerAppend(a, [c]);
    assert Lower([c]) == [LowerChar(c)];
    FieldsSplit(Lower(a), LowerChar(c), Lower(b));
    NonEmptyAppend(Fields(Lower(a)), Fields(Lower(b)));
  }

  /** Dropping trailing empty strings keeps the non-empty ones. */
  lemma {:induction false} NonEmptyDropTrailing(fs: seq<string>)
    ensures NonEmpty(DropTrailingEmpty(fs)) == NonEmpty(fs)
    decreases |fs|
  {
    if |fs| > 0 && |fs[|fs| - 1]| == 0 {
      var init := fs[..|fs| - 1];
      NonEmptyDropTrailing(init);
      assert fs == init + [fs[|fs| - 1]];
      NonEmptyAppend(init, [fs[|fs| - 1]]);
      assert NonEmpty([fs[|fs| - 1]]) == [];
    }
  }

  /**
   Java's split and `Fields` yield the same words: they differ only in
   trailing empty pieces, which are never counted.
   */
  lemma SplitWords(s: string)
    ensures NonEmpty(Split(s)) == NonEmpty(Fields(s))
  {
    if !AllLetters(s) {
      NonEmptyDropTrailing(Fields(s));
    }
  }

  /** The words of a line are the non-empty pieces of Java's split of the lower-cased line. */
  lemma TokenizeBySplit(line: string)
    ensures Tokenize(line) == NonEmpty(Split(Lower(line)))
  {
    SplitWords(Lower(line));
  }

  lemma {:induction false} FieldsOfLetters(s: string)
    requires AllLetters(s)
    ensures Fields(s) == [s]
    decreases |s|
  {
    if |s| > 0 {
      FieldsOfLetters(s[1..]);
      assert [s[0]] + s[1..] == s;
    }
  }

  /** A line that is one word of ASCII letters (any case) is that word, lower-cased. */
  lemma TokenizeWord(w: string)
    requires |w| > 0
    requires AllLetters(Lower(w))
    ensures Tokenize(w) == [Lower(w)]
  {
    FieldsOfLetters(Lower(w));
  }

  /** Lower-casing leaves a string of `a`..`z` unchanged. */
  lemma LowerLetters(w: string)
    requires AllLetters(w)
    ensures Lower(w) == w
  {
  }

  /** A line that starts with a word and a separator: that word, lower-cased, then the words of the rest. */
  lemma TokenizeCons(w: string, c: char, rest: string)
    requires |w| > 0 && AllLetters(Lower(w)) && !IsLetter(LowerChar(c))
    ensures Tokenize(w + [c] + rest) == [Lower(w)] + Tokenize(rest)
  {
    TokenizeSplit(w, c, rest);
    TokenizeWord(w);
  }

  /** The empty line has no words. */
  lemma TokenizeEmpty()
    ensures Tokenize("") == []
  {
    assert Lower("") == "";
  }

  /** A leading separator adds no word (no empty token is counted). */
  lemma TokenizeSep(c: char, rest: string)
    requires !IsLetter(LowerChar(c))
    ensures Tokenize([c] + rest) == Tokenize(rest)
  {
    assert [] + [c] + rest == [c] + rest;
    TokenizeSplit([], c, rest);
    TokenizeEmpty();
  }

  /** A trailing separator adds no word either. */
  lemma TokenizeWordSep(w: string, c: char)
    requires |w| > 0 && AllLetters(Lower(w)) && !IsLetter(LowerChar(c))
    ensures Tokenize(w + [c]) == [Lower(w)]
  {
    assert w + [c] == w + [c] + [];
    TokenizeCons(w, c, []);
    TokenizeEmpty();
  }

  /** All words of a sequence of lines, line after line. */
  function TokensOf(lines: seq<string>): seq<string>
  {
    if |lines| == 0 then [] else Tokenize(lines[0]) + TokensOf(lines[1..])
  }

  /** Every word of a sequence of lines is a token. */
  lemma {:induction false} TokensOfTokens(lines: seq<string>)
    ensures forall i :: 0 <= i < |TokensOf(lines)| ==> IsToken(TokensOf(lines)[i])
    decreases |lines|
  {
    if |lines| > 0 {
      TokenizeTokens(lines[0]);
      TokensOfTokens(lines[1..]);
      var a, b := Tokenize(lines[0]), TokensOf(lines[1..]);
      forall i | 0 <= i < |a + b| ensures IsToken((a + b)[i]) {
        if i < |a| {
          assert (a + b)[i] == a[i];
        } else {
          assert (a + b)[i] == b[i - |a|];
        }
      }
    }
  }

  lemma {:induction false} TokensOfAppend(a: seq<string>, b: seq<string>)
    ensures TokensOf(a + b) == TokensOf(a) + TokensOf(b)
    decreases |a|
  {
    if |a| == 0 {
      assert a + b == b;
    } else {
      assert (a + b)[0] == a[0];
      assert (a + b)[1..] == a[1..] + b;
      TokensOfAppend(a[1..], b);
      var h := Tokenize(a[0]);
      assert h + (TokensOf(a[1..]) + TokensOf(b)) == (h + TokensOf(a[1..])) + TokensOf(b);
    }
  }
}
