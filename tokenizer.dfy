/** The tokenizer: a run of plain text becomes its words, left to right.
    The text is split on runs of whitespace (spaces, newlines and the
    indentation of the corpus), the punctuation at both ends of each
    candidate word is stripped, and a candidate that is left empty (a lone
    `.` or `,`) is dropped. Nothing else is changed: no case folding, and
    accented letters are kept as they are. */
module Tokenizer {

  /** The whitespace that separates words: space, tab, line feed, vertical
      tab, form feed and carriage return. */
  predicate IsSpace(c: char) {
    c == ' ' || c == '\t' || c == '\n' || c == '\U{000B}' || c == '\U{000C}' || c == '\r'
  }

  predicate NoSpace(s: string) {
    forall i :: 0 <= i < |s| ==> !IsSpace(s[i])
  }

  predicate Blank(s: string) {
    forall i :: 0 <= i < |s| ==> IsSpace(s[i])
  }

  /** The punctuation stripped from the ends of words unless a parser is
      given another set: the comma and the full stop. */
  const DefaultPunctuation: set<char> := {',', '.'}

  /** A word as the tokenizer emits it: not empty, no whitespace inside, and
      no punctuation at either end. */
  predicate IsToken(w: string, punct: set<char>) {
    w != [] && NoSpace(w) && w[0] !in punct && w[|w| - 1] !in punct
  }

  /** `a + b` does not glue a word of `a` to a word of `b`. */
  predicate Separated(a: string, b: string) {
    a == [] || b == [] || IsSpace(a[|a| - 1]) || IsSpace(b[0])
  }

  /** Length of the run of non-whitespace characters that starts `s`. */
  function WordLen(s: string): (n: nat)
    ensures n <= |s|
    ensures NoSpace(s[..n])
    ensures n < |s| ==> IsSpace(s[n])
  {
    if s == [] || IsSpace(s[0]) then 0 else 1 + WordLen(s[1..])
  }

  /** The whitespace-separated words of `s`, left to right (Ruby's
      `String#split` without an argument). */
  function SplitWords(s: string): (ws: seq<string>)
    decreases |s|
    ensures forall i :: 0 <= i < |ws| ==> ws[i] != [] && NoSpace(ws[i])
  {
    if s == [] then []
    else if IsSpace(s[0]) then SplitWords(s[1..])
    else
      var n := WordLen(s);
      [s[..n]] + SplitWords(s[n..])
  }

  /** The words joined by single spaces: the inverse of `SplitWords`. */
  function Unwords(ws: seq<string>): string {
    if ws == [] then []
    else if |ws| == 1 then ws[0]
    else ws[0] + " " + Unwords(ws[1..])
  }

  /** Drops the punctuation at the start of `w`. */
  function StripLeading(w: string, punct: set<char>): string {
    if w != [] && w[0] in punct then StripLeading(w[1..], punct) else w
  }

  /** Drops the punctuation at the end of `w`. */
  function StripTrailing(w: string, punct: set<char>): string {
    if w != [] && w[|w| - 1] in punct then StripTrailing(w[..|w| - 1], punct) else w
  }

  /** Punctuation stripped from both ends of a candidate word. */
  function Strip(w: string, punct: set<char>): string {
    StripTrailing(StripLeading(w, punct), punct)
  }

  /** What `StripLeading` leaves is a suffix of `w`, everything dropped is
      punctuation, and what is left does not start with punctuation. */
  lemma {:induction false} StripLeadingSpec(w: string, punct: set<char>)
    ensures var r := StripLeading(w, punct);
      |r| <= |w| && r == w[|w| - |r|..] &&
      (forall i :: 0 <= i < |w| - |r| ==> w[i] in punct) &&
      (r == [] || r[0] !in punct)
  {
    if w != [] && w[0] in punct {
      StripLeadingSpec(w[1..], punct);
      var r := StripLeading(w, punct);
      forall i | 0 <= i < |w| - |r|
        ensures w[i] in punct
      {
        if i > 0 {
          assert w[i] == w[1..][i - 1];
        }
      }
    }
  }

  /** What `StripTrailing` leaves is a prefix of `w`, everything dropped is
      punctuation, and what is left does not end with punctuation. */
  lemma {:induction false} StripTrailingSpec(w: string, punct: set<char>)
    ensures var r := StripTrailing(w, punct);
      |r| <= |w| && r == w[..|r|] &&
      (forall i :: |r| <= i < |w| ==> w[i] in punct) &&
      (r == [] || r[|r| - 1] !in punct)
  {
    if w != [] && w[|w| - 1] in punct {
      StripTrailingSpec(w[..|w| - 1], punct);
    }
  }

  /** A stripped word is no longer than the candidate, neither starts nor
      ends with punctuation, and gains no whitespace. */
  lemma StripSpec(w: string, punct: set<char>)
    ensures var r := Strip(w, punct);
      |r| <= |w| &&
      (r == [] || (r[0] !in punct && r[|r| - 1] !in punct)) &&
      (NoSpace(w) ==> NoSpace(r))
  {
    var l := StripLeading(w, punct);
    StripLeadingSpec(w, punct);
    StripTrailingSpec(l, punct);
    var r := StripTrailing(l, punct);
    if NoSpace(w) {
      forall i | 0 <= i < |r|
        ensures !IsSpace(r[i])
      {
        assert r[i] == l[i] == w[|w| - |l| + i];
      }
    }
  }

  /** A candidate word stripped, as a sequence of zero or one word. */
  function CleanWord(w: string, punct: set<char>): seq<string> {
    var r := Strip(w, punct);
    if r == [] then [] else [r]
  }

  /** Each candidate word stripped, and the ones left empty dropped. */
  function CleanWords(ws: seq<string>, punct: set<char>): (ts: seq<string>)
    ensures |ts| <= |ws|
  {
    if ws == [] then [] else CleanWord(ws[0], punct) + CleanWords(ws[1..], punct)
  }

  /** The words of a text run, as the parser emits them. */
  function Tokenize(s: string, punct: set<char>): (ts: seq<string>)
    ensures forall i :: 0 <= i < |ts| ==> IsToken(ts[i], punct)
  {
    CleanWordsAreTokens(SplitWords(s), punct);
    CleanWords(SplitWords(s), punct)
  }

  /** What survives stripping is a token, provided no candidate word held
      whitespace. */
  lemma {:induction false} CleanWordsAreTokens(ws: seq<string>, punct: set<char>)
    requires forall i :: 0 <= i < |ws| ==> NoSpace(ws[i])
    ensures forall i :: 0 <= i < |CleanWords(ws, punct)| ==> IsToken(CleanWords(ws, punct)[i], punct)
  {
    if ws != [] {
      CleanWordsAreTokens(ws[1..], punct);
      StripSpec(ws[0], punct);
      var h, t := CleanWord(ws[0], punct), CleanWords(ws[1..], punct);
      assert CleanWords(ws, punct) == h + t;
      assert forall i :: 0 <= i < |h| ==> IsToken(h[i], punct);
    }
  }

  // ---------------------------------------------------------------------
  // Splitting on whitespace

  lemma {:induction false} WordLenOfWord(w: string)
    requires NoSpace(w)
    ensures WordLen(w) == |w|
    decreases |w|
  {
    if w != [] {
      WordLenOfWord(w[1..]);
    }
  }

  /** The first word of `a + b` is the first word of `a` when `a` has a
      whitespace in it, or when `b` starts with one. */
  lemma {:induction false} WordLenAppend(a: string, b: string)
    requires WordLen(a) < |a| || b == [] || IsSpace(b[0])
    ensures WordLen(a + b) == WordLen(a)
    decreases |a|
  {
    if a != [] && !IsSpace(a[0]) {
      assert (a + b)[1..] == a[1..] + b;
      WordLenAppend(a[1..], b);
    }
  }

  lemma {:induction false} SplitBlank(s: string)
    requires Blank(s)
    ensures SplitWords(s) == []
    decreases |s|
  {
    if s != [] {
      SplitBlank(s[1..]);
    }
  }

  lemma SplitWord(w: string)
    requires w != [] && NoSpace(w)
    ensures SplitWords(w) == [w]
  {
    WordLenOfWord(w);
    assert w[..|w|] == w;
  }

  /** Splitting distributes over a concatenation that does not glue two
      words together. */
  lemma {:induction false} SplitAppend(a: string, b: string)
    requires Separated(a, b)
    ensures SplitWords(a + b) == SplitWords(a) + SplitWords(b)
    decreases |a|, 1
  {
    if a == [] {
      assert a + b == b;
    } else if IsSpace(a[0]) {
      assert (a + b)[1..] == a[1..] + b;
      SplitAppend(a[1..], b);
    } else {
      SplitAppendWord(a, b);
    }
  }

  /** The step of `SplitAppend` where `a` starts with a word. */
  lemma {:induction false} SplitAppendWord(a: string, b: string)
    requires a != [] && !IsSpace(a[0]) && Separated(a, b)
    ensures SplitWords(a + b) == SplitWords(a) + SplitWords(b)
    decreases |a|, 0
  {
    var m := WordLen(a);
    WordLenAppend(a, b);
    assert (a + b)[0] == a[0];
    calc {
      SplitWords(a + b);
    == { assert (a + b)[..m] == a[..m]; assert (a + b)[m..] == a[m..] + b; }
      [a[..m]] + SplitWords(a[m..] + b);
    == { SplitAppend(a[m..], b); }
      [a[..m]] + (SplitWords(a[m..]) + SplitWords(b));
    }
  }

  /** Words joined by single spaces split back into the same words. */
  lemma {:induction false} SplitUnwords(ws: seq<string>)
    requires forall i :: 0 <= i < |ws| ==> ws[i] != [] && NoSpace(ws[i])
    ensures SplitWords(Unwords(ws)) == ws
  {
    if |ws| == 1 {
      SplitWord(ws[0]);
    } else if |ws| > 1 {
      SplitWord(ws[0]);
      SplitUnwords(ws[1..]);
      assert SplitWords(" ") == [];
      SplitAppend(ws[0], " ");
      SplitAppend(ws[0] + " ", Unwords(ws[1..]));
      assert ws == [ws[0]] + ws[1..];
    }
  }

  // ---------------------------------------------------------------------
  // Stripping punctuation

  /** Stripping removes exactly the punctuation that surrounds the core of a
      word: `Strip(",imprensa.", p) == "imprensa"`. */
  lemma {:induction false} StripAround(pre: string, core: string, post: string, punct: set<char>)
    requires forall i :: 0 <= i < |pre| ==> pre[i] in punct
    requires forall i :: 0 <= i < |post| ==> post[i] in punct
    requires core != [] && core[0] !in punct && core[|core| - 1] !in punct
    ensures Strip(pre + core + post, punct) == core
  {
    var w := pre + core + post;
    var l := StripLeading(w, punct);
    StripLeadingSpec(w, punct);
    assert w[|pre|] == core[0];
    assert l == core + post;
    var r := StripTrailing(l, punct);
    StripTrailingSpec(l, punct);
    assert l[|core| - 1] == core[|core| - 1];
  }

  /** A word made only of punctuation strips to nothing. */
  lemma {:induction false} StripPunctuationOnly(w: string, punct: set<char>)
    requires forall i :: 0 <= i < |w| ==> w[i] in punct
    ensures Strip(w, punct) == []
  {
    var l := StripLeading(w, punct);
    StripLeadingSpec(w, punct);
    assert l == [];
  }

  lemma StripToken(w: string, punct: set<char>)
    requires w != [] && w[0] !in punct && w[|w| - 1] !in punct
    ensures Strip(w, punct) == w
  {
    StripAround([], w, [], punct);
    assert [] + w + [] == w;
  }

  /** Stripping twice strips nothing more. */
  lemma StripIdempotent(w: string, punct: set<char>)
    ensures Strip(Strip(w, punct), punct) == Strip(w, punct)
  {
    var r := Strip(w, punct);
    StripSpec(w, punct);
    if r != [] {
      StripToken(r, punct);
    }
  }

  // ---------------------------------------------------------------------
  // Tokenizing

  /** The first candidate is cleaned on its own. */
  lemma CleanWordsCons(w: string, ws: seq<string>, punct: set<char>)
    ensures CleanWords([w] + ws, punct) == CleanWord(w, punct) + CleanWords(ws, punct)
  {
    assert ([w] + ws)[0] == w;
    assert ([w] + ws)[1..] == ws;
  }

  lemma {:induction false} CleanWordsAppend(a: seq<string>, b: seq<string>, punct: set<char>)
    ensures CleanWords(a + b, punct) == CleanWords(a, punct) + CleanWords(b, punct)
  {
    if a == [] {
      assert a + b == b;
    } else {
      var h := CleanWord(a[0], punct);
      var x, y := CleanWords(a[1..], punct), CleanWords(b, punct);
      calc {
        CleanWords(a + b, punct);
      == { assert a + b == [a[0]] + (a[1..] + b); }
        CleanWords([a[0]] + (a[1..] + b), punct);
      == { CleanWordsCons(a[0], a[1..] + b, punct); }
        h + CleanWords(a[1..] + b, punct);
      == { CleanWordsAppend(a[1..], b, punct); }
        h + (x + y);
      == 
        (h + x) + y;
      == { assert a == [a[0]] + a[1..]; CleanWordsCons(a[0], a[1..], punct); }
        CleanWords(a, punct) + y;
      }
    }
  }

  /** Only a candidate made of punctuation alone is dropped: when every
      candidate keeps something, each yields exactly its stripped form. */
  lemma {:induction false} CleanWordsKeepAll(ws: seq<string>, punct: set<char>)
    requires forall i :: 0 <= i < |ws| ==> Strip(ws[i], punct) != []
    ensures |CleanWords(ws, punct)| == |ws|
    ensures forall i :: 0 <= i < |ws| ==> CleanWords(ws, punct)[i] == Strip(ws[i], punct)
  {
    if ws != [] {
      CleanWordsKeepAll(ws[1..], punct);
      assert ws == [ws[0]] + ws[1..];
      CleanWordsCons(ws[0], ws[1..], punct);
      assert CleanWords(ws, punct) == [Strip(ws[0], punct)] + CleanWords(ws[1..], punct);
    }
  }

  /** Whitespace-only text has no words. */
  lemma TokenizeBlank(s: string, punct: set<char>)
    requires Blank(s)
    ensures Tokenize(s, punct) == []
  {
    SplitBlank(s);
  }

  /** Tokenizing distributes over a concatenation that does not glue two
      words together. */
  lemma TokenizeAppend(a: string, b: string, punct: set<char>)
    requires Separated(a, b)
    ensures Tokenize(a + b, punct) == Tokenize(a, punct) + Tokenize(b, punct)
  {
    SplitAppend(a, b);
    CleanWordsAppend(SplitWords(a), SplitWords(b), punct);
  }

  /** A single candidate word yields its stripped form, or nothing when
      only punctuation was left. */
  lemma TokenizeWord(w: string, punct: set<char>)
    requires w != [] && NoSpace(w)
    ensures Tokenize(w, punct) == if Strip(w, punct) == [] then [] else [Strip(w, punct)]
  {
    SplitWord(w);
  }

  /** Newlines and indentation around words are only separators: the
      candidate words joined by spaces and padded with whitespace tokenize to
      their stripped forms. */
  lemma TokenizePadded(pre: string, ws: seq<string>, post: string, punct: set<char>)
    requires Blank(pre) && Blank(post)
    requires forall i :: 0 <= i < |ws| ==> ws[i] != [] && NoSpace(ws[i])
    ensures Tokenize(pre + Unwords(ws) + post, punct) == CleanWords(ws, punct)
  {
    SplitUnwords(ws);
    SplitBlank(pre);
    SplitBlank(post);
    SplitAppend(pre, Unwords(ws));
    SplitAppend(pre + Unwords(ws), post);
    assert SplitWords(pre + Unwords(ws) + post) == ws;
  }

  /** Round trip: words that are already tokens, joined by spaces, tokenize
      back to the same words, in the same order and unchanged. */
  lemma {:induction false} TokenizeUnwords(ws: seq<string>, punct: set<char>)
    requires forall i :: 0 <= i < |ws| ==> IsToken(ws[i], punct)
    ensures Tokenize(Unwords(ws), punct) == ws
  {
    SplitUnwords(ws);
    CleanTokens(ws, punct);
  }

  lemma {:induction false} CleanTokens(ws: seq<string>, punct: set<char>)
    requires forall i :: 0 <= i < |ws| ==> IsToken(ws[i], punct)
    ensures CleanWords(ws, punct) == ws
  {
    if ws != [] {
      StripToken(ws[0], punct);
      CleanTokens(ws[1..], punct);
      assert ws == [ws[0]] + ws[1..];
    }
  }

  /** Tokenizing the spaced-out tokens of a text gives the same tokens. */
  lemma TokenizeIdempotent(s: string, punct: set<char>)
    ensures Tokenize(Unwords(Tokenize(s, punct)), punct) == Tokenize(s, punct)
  {
    TokenizeUnwords(Tokenize(s, punct), punct);
  }
}
