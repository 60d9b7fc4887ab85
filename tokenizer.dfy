/** `tokenize_chinese` (scripts/vector_utils.py, lines 22-37): keep word
    characters, whitespace and CJK ideographs; split on whitespace; explode a
    word made only of ideographs into its characters and lower-case any other
    word as one token. */
module Tokenizer {

  /** The CJK Unified Ideographs block, U+4E00..U+9FFF. */
  predicate IsCjk(c: char)
  {
    '\U{4E00}' <= c <= '\U{9FFF}'
  }

  /** Python's Unicode whitespace (`str.isspace`, which is also what `\s`
      and `str.split()` use). */
  predicate IsSpace(c: char)
  {
    ('\t' <= c <= '\r') || ('\U{1C}' <= c <= '\U{1F}') || c == ' ' ||
    c == '\U{85}' || c == '\U{A0}' || c == '\U{1680}' ||
    ('\U{2000}' <= c <= '\U{200A}') || c == '\U{2028}' || c == '\U{2029}' ||
    c == '\U{202F}' || c == '\U{205F}' || c == '\U{3000}'
  }

  /** The Unicode tables the tokenizer consults and that this model leaves
      abstract: the `\w` class and the per-character `str.lower()`. */
  datatype CharTables = CharTables(isWord: char -> bool, lower: char -> char)

  /** What the tokenizer relies on of those tables: lower-casing never
      produces whitespace from a non-space. */
  predicate Consistent(u: CharTables)
  {
    forall c :: !IsSpace(c) ==> !IsSpace(u.lower(c))
  }

  /** `[\w\s一-鿿]`: the characters line 28 keeps. */
  predicate Kept(u: CharTables, c: char)
  {
    u.isWord(c) || IsSpace(c) || IsCjk(c)
  }

  /** Line 28: every other character becomes a space. */
  function Clean(u: CharTables, text: string): (r: string)
    ensures |r| == |text|
    ensures forall i :: 0 <= i < |text| ==>
      (Kept(u, text[i]) ==> r[i] == text[i]) && (!Kept(u, text[i]) ==> r[i] == ' ')
  {
    seq(|text|, i requires 0 <= i < |text| => if Kept(u, text[i]) then text[i] else ' ')
  }

  predicate NoSpace(w: string)
  {
    forall i :: 0 <= i < |w| ==> !IsSpace(w[i])
  }

  predicate AllSpace(s: string)
  {
    forall i :: 0 <= i < |s| ==> IsSpace(s[i])
  }

  /** Length of the run of non-space characters that starts `s`. */
  function WordEnd(s: string): (n: nat)
    ensures n <= |s|
    ensures NoSpace(s[..n])
    ensures n < |s| ==> IsSpace(s[n])
  {
    if s == [] || IsSpace(s[0]) then 0 else 1 + WordEnd(s[1..])
  }

  /** `str.split()` with no separator: the maximal runs of non-space
      characters, in order. */
  function Words(s: string): (ws: seq<string>)
    ensures forall i :: 0 <= i < |ws| ==> |ws[i]| > 0 && NoSpace(ws[i])
    decreases |s|
  {
    if s == [] then []
    else if IsSpace(s[0]) then Words(s[1..])
    else
      var n := WordEnd(s);
      [s[..n]] + Words(s[n..])
  }

  /** `re.match(r'^[一-鿿]+$', word)` */
  predicate AllCjk(w: string)
  {
    |w| > 0 && forall i :: 0 <= i < |w| ==> IsCjk(w[i])
  }

  /** `list(word)`: one single-character string per character. */
  function Chars(w: string): (r: seq<string>)
    ensures |r| == |w|
    ensures forall i :: 0 <= i < |w| ==> r[i] == [w[i]]
  {
    seq(|w|, i requires 0 <= i < |w| => [w[i]])
  }

  /** `word.lower()`, character by character. */
  function LowerWord(u: CharTables, w: string): (r: string)
    ensures |r| == |w|
    ensures forall i :: 0 <= i < |w| ==> r[i] == u.lower(w[i])
  {
    seq(|w|, i requires 0 <= i < |w| => u.lower(w[i]))
  }

  /** What one whitespace-delimited word contributes (lines 31-36). */
  function WordTokens(u: CharTables, w: string): seq<string>
  {
    if AllCjk(w) then Chars(w) else [LowerWord(u, w)]
  }

  /** The tokens of a list of words, concatenated in order. */
  function Tokens(u: CharTables, ws: seq<string>): seq<string>
  {
    if ws == [] then [] else Tokens(u, ws[..|ws| - 1]) + WordTokens(u, ws[|ws| - 1])
  }

  /** The value `tokenize_chinese(text)` returns. */
  function Tokenize(u: CharTables, text: string): seq<string>
  {
    Tokens(u, Words(Clean(u, text)))
  }

  /** Lines 28-37: the loop over the words of the cleaned text. */
  method TokenizeChinese(u: CharTables, text: string) returns (tokens: seq<string>)
    requires Consistent(u)
    ensures tokens == Tokenize(u, text)
    ensures forall i :: 0 <= i < |tokens| ==> |tokens[i]| > 0 && NoSpace(tokens[i])
  {
    var cleaned := Clean(u, text);
    var words := Words(cleaned);
    tokens := [];
    for k := 0 to |words|
      invariant tokens == Tokens(u, words[..k])
    {
      var word := words[k];
      TokensStep(u, words, k);
      if AllCjk(word) {
        tokens := tokens + Chars(word);
      } else {
        tokens := tokens + [LowerWord(u, word)];
      }
    }
    assert words[..|words|] == words;
    TokenShape(u, text);
  }

  /** One turn of the loop: the next word's tokens go on the end. */
  lemma TokensStep(u: CharTables, words: seq<string>, k: nat)
    requires k < |words|
    ensures Tokens(u, words[..k + 1]) == Tokens(u, words[..k]) + WordTokens(u, words[k])
  {
    assert words[..k + 1][..k] == words[..k];
  }

  // ---------------------------------------------------------------------
  // Properties

  /** Tokens of a word list are the tokens of its parts, in order and without
      deduplication. */
  lemma {:induction false} TokensAppend(u: CharTables, a: seq<string>, b: seq<string>)
    ensures Tokens(u, a + b) == Tokens(u, a) + Tokens(u, b)
    decreases |b|
  {
    if b == [] {
      assert a + b == a;
    } else {
      var b' := b[..|b| - 1];
      assert (a + b)[..|a + b| - 1] == a + b';
      assert (a + b)[|a + b| - 1] == b[|b| - 1];
      TokensAppend(u, a, b');
    }
  }

  /** Every token of well-shaped words is non-empty and holds no
      whitespace. */
  lemma {:induction false} TokensShape(u: CharTables, ws: seq<string>)
    requires Consistent(u)
    requires forall i :: 0 <= i < |ws| ==> |ws[i]| > 0 && NoSpace(ws[i])
    ensures forall i :: 0 <= i < |Tokens(u, ws)| ==>
      |Tokens(u, ws)[i]| > 0 && NoSpace(Tokens(u, ws)[i])
    decreases |ws|
  {
    if ws != [] {
      var init := ws[..|ws| - 1];
      var w := ws[|ws| - 1];
      TokensShape(u, init);
      var t := WordTokens(u, w);
      if AllCjk(w) {
        assert forall i :: 0 <= i < |t| ==> t[i] == [w[i]] && !IsSpace(w[i]);
      } else {
        var l := LowerWord(u, w);
        assert forall i :: 0 <= i < |l| ==> !IsSpace(w[i]) && l[i] == u.lower(w[i]);
        assert t == [l];
      }
      assert forall i :: 0 <= i < |t| ==> |t[i]| > 0 && NoSpace(t[i]);
      assert Tokens(u, ws) == Tokens(u, init) + t;
    }
  }

  /** Every token of `tokenize_chinese` is non-empty and holds no
      whitespace. */
  lemma TokenShape(u: CharTables, text: string)
    requires Consistent(u)
    ensures forall i :: 0 <= i < |Tokenize(u, text)| ==>
      |Tokenize(u, text)[i]| > 0 && NoSpace(Tokenize(u, text)[i])
  {
    TokensShape(u, Words(Clean(u, text)));
  }

  /** A string of whitespace has no words. */
  lemma {:induction false} WordsOfBlank(s: string)
    requires AllSpace(s)
    ensures Words(s) == []
    decreases |s|
  {
    if s != [] {
      WordsOfBlank(s[1..]);
    }
  }

  /** Empty, blank or all-punctuation text yields no tokens. */
  lemma NoWordCharsNoTokens(u: CharTables, text: string)
    requires forall i :: 0 <= i < |text| ==> !u.isWord(text[i]) && !IsCjk(text[i])
    ensures Tokenize(u, text) == []
  {
    var cleaned := Clean(u, text);
    assert AllSpace(cleaned);
    WordsOfBlank(cleaned);
  }

  /** A leading word that ends before `s` does (or right at a space that
      follows) is unaffected by what comes after. */
  lemma {:induction false} WordEndAppend(s: string, t: string)
    requires WordEnd(s) < |s| || (t != [] && IsSpace(t[0]))
    ensures WordEnd(s + t) == WordEnd(s)
    decreases |s|
  {
    if s != [] && !IsSpace(s[0]) {
      assert (s + t)[1..] == s[1..] + t;
      WordEndAppend(s[1..], t);
    }
  }

  /** `split()` of two texts joined by whitespace is the two splits, in
      order. */
  lemma {:induction false} WordsJoin(a: string, sp: char, b: string)
    requires IsSpace(sp)
    ensures Words(a + [sp] + b) == Words(a) + Words(b)
    decreases |a|
  {
    var s := a + [sp] + b;
    if a == [] {
      assert s[1..] == b;
    } else if IsSpace(a[0]) {
      assert s[1..] == a[1..] + [sp] + b;
      WordsJoin(a[1..], sp, b);
    } else {
      var m := WordEnd(a);
      WordEndAppend(a, [sp] + b);
      assert s == a + ([sp] + b);
      assert WordEnd(s) == m && 0 < m;
      assert s[..m] == a[..m];
      assert s[m..] == a[m..] + [sp] + b;
      WordsJoin(a[m..], sp, b);
      assert Words(s) == [s[..m]] + Words(s[m..]);
      assert Words(a) == [a[..m]] + Words(a[m..]);
    }
  }

  /** Texts joined by whitespace tokenize to the concatenation of their
      tokens: order is kept and repeats survive. */
  lemma TokenizeJoin(u: CharTables, a: string, sp: char, b: string)
    requires IsSpace(sp)
    ensures Tokenize(u, a + [sp] + b) == Tokenize(u, a) + Tokenize(u, b)
  {
    assert Clean(u, a + [sp] + b) == Clean(u, a) + [sp] + Clean(u, b);
    WordsJoin(Clean(u, a), sp, Clean(u, b));
    TokensAppend(u, Words(Clean(u, a)), Words(Clean(u, b)));
  }

  // ---------------------------------------------------------------------
  // A concrete instance: ASCII letters, digits and `_` plus the CJK block
  // as word characters, and ASCII lower-casing.

  function AsciiLower(c: char): char
  {
    if 'A' <= c <= 'Z' then (c as int + 32) as char else c
  }

  const Ascii: CharTables :=
    CharTables(
      c => ('a' <= c <= 'z') || ('A' <= c <= 'Z') || ('0' <= c <= '9') || c == '_' || IsCjk(c),
      AsciiLower)

  lemma AsciiConsistent()
    ensures Consistent(Ascii)
  {
  }

  /** A single word of non-space characters is split into itself. */
  lemma {:induction false} WordsOfWord(w: string)
    requires |w| > 0 && NoSpace(w)
    ensures WordEnd(w) == |w|
    ensures Words(w) == [w]
    decreases |w|
  {
    if |w| > 1 {
      WordsOfWord(w[1..]);
    }
    assert w[..|w|] == w;
    assert w[|w|..] == [];
  }

  /** A text that is a single word of kept characters is that word's
      tokens. */
  lemma TokenizeWord(u: CharTables, w: string)
    requires |w| > 0 && NoSpace(w)
    requires forall i :: 0 <= i < |w| ==> Kept(u, w[i])
    ensures Tokenize(u, w) == WordTokens(u, w)
  {
    assert Clean(u, w) == w;
    WordsOfWord(w);
    assert Tokens(u, [w]) == Tokens(u, []) + WordTokens(u, w);
  }

  /** The word rule (lines 31-36), for a text that is one word of kept
      characters: a word made only of ideographs gives its characters, one
      token each and in order; any other word (mixed ideographs and Latin
      included) gives exactly one token, itself lower-cased. */
  lemma WordRule(u: CharTables, w: string)
    requires |w| > 0 && NoSpace(w) && forall i :: 0 <= i < |w| ==> Kept(u, w[i])
    ensures AllCjk(w) ==>
      |Tokenize(u, w)| == |w| && forall i :: 0 <= i < |w| ==> Tokenize(u, w)[i] == [w[i]]
    ensures !AllCjk(w) ==> Tokenize(u, w) == [LowerWord(u, w)]
  {
    TokenizeWord(u, w);
  }

  /** The word rule anywhere in a text: a word set off by whitespace adds its
      own tokens between those of the text before and after it. */
  lemma WordInText(u: CharTables, a: string, sp: char, w: string, sp': char, b: string)
    requires IsSpace(sp) && IsSpace(sp')
    requires |w| > 0 && NoSpace(w) && forall i :: 0 <= i < |w| ==> Kept(u, w[i])
    ensures AllCjk(w) ==>
      Tokenize(u, a + [sp] + w + [sp'] + b) == Tokenize(u, a) + Chars(w) + Tokenize(u, b)
    ensures !AllCjk(w) ==>
      Tokenize(u, a + [sp] + w + [sp'] + b) == Tokenize(u, a) + [LowerWord(u, w)] + Tokenize(u, b)
  {
    var rest := w + [sp'] + b;
    assert a + [sp] + w + [sp'] + b == a + [sp] + rest;
    TokenizeJoin(u, w, sp', b);
    TokenizeJoin(u, a, sp, rest);
    TokenizeWord(u, w);
    var t := WordTokens(u, w);
    assert Tokenize(u, a + [sp] + rest) == Tokenize(u, a) + t + Tokenize(u, b);
  }

  /** Two words of kept characters joined by a space tokenize word by
      word. */
  lemma TokenizeTwoWords(u: CharTables, a: string, b: string)
    requires |a| > 0 && NoSpace(a) && forall i :: 0 <= i < |a| ==> Kept(u, a[i])
    requires |b| > 0 && NoSpace(b) && forall i :: 0 <= i < |b| ==> Kept(u, b[i])
    ensures Tokenize(u, a + [' '] + b) == WordTokens(u, a) + WordTokens(u, b)
  {
    TokenizeJoin(u, a, ' ', b);
    TokenizeWord(u, a);
    TokenizeWord(u, b);
  }

  /** An ASCII word of letters is kept whole and lower-cased. */
  lemma LatinWord(w: string, lower: string)
    requires |w| > 0 && |lower| == |w|
    requires forall i :: 0 <= i < |w| ==> ('a' <= w[i] <= 'z' || 'A' <= w[i] <= 'Z') && lower[i] == AsciiLower(w[i])
    ensures NoSpace(w) && forall i :: 0 <= i < |w| ==> Kept(Ascii, w[i])
    ensures WordTokens(Ascii, w) == [lower]
  {
    assert !IsCjk(w[0]);
    assert LowerWord(Ascii, w) == lower;
  }

  /** `tokenize_chinese("Hello World") == ["hello", "world"]` */
  lemma HelloWorld()
    ensures Tokenize(Ascii, "Hello World") == ["hello", "world"]
  {
    var a, b := "Hello", "World";
    assert a + [' '] + b == "Hello World";
    LatinWord(a, "hello");
    LatinWord(b, "world");
    TokenizeTwoWords(Ascii, a, b);
  }

  /** A mixed run of ideographs and Latin letters is one word that is not
      made only of ideographs, so it stays one lower-cased token:
      `tokenize_chinese("你好world") == ["你好world"]`. */
  lemma MixedRunIsOneToken()
    ensures Tokenize(Ascii, "\U{4F60}\U{597D}world") == ["\U{4F60}\U{597D}world"]
  {
    var w := "\U{4F60}\U{597D}world";
    TokenizeWord(Ascii, w);
    assert !IsCjk(w[2]);
    assert LowerWord(Ascii, w) == w;
  }

  /** With a space between them, the ideographs are split apart:
      `tokenize_chinese("你好 world") == ["你", "好", "world"]`. */
  lemma SeparatedRunIsSplit()
    ensures Tokenize(Ascii, "\U{4F60}\U{597D} world") == ["\U{4F60}", "\U{597D}", "world"]
  {
    var a, b := "\U{4F60}\U{597D}", "world";
    assert a + [' '] + b == "\U{4F60}\U{597D} world";
    TokenizeTwoWords(Ascii, a, b);
    assert AllCjk(a);
    assert Chars(a) == ["\U{4F60}", "\U{597D}"];
    assert !IsCjk(b[0]);
    assert LowerWord(Ascii, b) == b;
  }
}
