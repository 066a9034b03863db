/** The Lampada parser (`CorpusProcessor::Parsers::Lampada`): a HAREM corpus
    becomes the ordered list of its words, each tagged with the label of the
    named entity it belongs to, or with no label. The only state of a parser
    is what it was built with: its category table (and the punctuation its
    tokenizer strips); nothing changes between calls, so parsing is a
    function of the parser and the corpus. */
module Lampada {
  import opened Wrappers
  import opened Tokenizer
  import opened Categories
  import opened Markup

  /** `CorpusProcessor::Token`: a word and its category; `Token.new(w)`
      has no category. Two tokens are equal when both fields are. */
  datatype Token = Token(text: string, category: Option<Label>)

  datatype Parser = Parser(table: Table, punctuation: set<char>)

  /** `Lampada.new` and `Lampada.new(table)`: a given table replaces the
      default one. */
  function New(user: Option<Table>): Parser {
    Parser(ActiveTable(user), DefaultPunctuation)
  }

  /** Override law: a parser built with a table resolves a code that its
      table lacks to no category, even when the default table knows it. */
  lemma NewReplacesDefault(user: Table, code: Code)
    requires code != [] && Bar !in code
    requires code !in user && code in DefaultTable
    ensures ExtractCategory(New(Some(user)), code) == None
    ensures ExtractCategory(New(None), code) == Some(DefaultTable[code])
  {
    ResolveOne(code, user);
    ResolveOne(code, DefaultTable);
  }

  /** `Lampada#extract_category`. */
  function ExtractCategory(p: Parser, raw: string): (r: Option<Label>)
    ensures r.Some? ==> r.value in p.table.Values
  {
    Resolve(raw, p.table)
  }

  /** The category that the words of a segment receive: none for plain
      text, the resolved `CATEG` value for an entity. */
  function SegmentCategory(p: Parser, categ: Option<string>): (r: Option<Label>)
    ensures categ.None? ==> r.None?
    ensures r.Some? ==> r.value in p.table.Values
  {
    match categ
    case None => None
    case Some(raw) => ExtractCategory(p, raw)
  }

  /** The words of `text`, all with the same category. */
  function Tag(words: seq<string>, category: Option<Label>): seq<Token> {
    if words == [] then [] else [Token(words[0], category)] + Tag(words[1..], category)
  }

  /** Tagging keeps the words, in order, one token per word, each with the
      given category. */
  lemma {:induction false} TagWords(words: seq<string>, category: Option<Label>)
    ensures |Tag(words, category)| == |words|
    ensures forall i :: 0 <= i < |words| ==> Tag(words, category)[i] == Token(words[i], category)
  {
    if words != [] {
      TagWords(words[1..], category);
    }
  }

  /** Tagging is word by word: tagging two lists one after the other is
      tagging their concatenation. */
  lemma TagAppend(a: seq<string>, b: seq<string>, category: Option<Label>)
    ensures Tag(a + b, category) == Tag(a, category) + Tag(b, category)
  {
    TagWords(a + b, category);
    TagWords(a, category);
    TagWords(b, category);
    var l, r := Tag(a + b, category), Tag(a, category) + Tag(b, category);
    assert |l| == |r|;
    forall i | 0 <= i < |l| ensures l[i] == r[i] {
      if i < |a| {
        assert (a + b)[i] == a[i];
      } else {
        assert (a + b)[i] == b[i - |a|];
      }
    }
  }

  function SegmentTokens(p: Parser, seg: Segment): seq<Token> {
    Tag(Tokenize(seg.text, p.punctuation), SegmentCategory(p, seg.categ))
  }

  /** The tokens of the segments, one segment after the other. */
  function SegmentsTokens(p: Parser, segs: seq<Segment>): seq<Token> {
    if segs == [] then [] else SegmentTokens(p, segs[0]) + SegmentsTokens(p, segs[1..])
  }

  /** `Lampada#parse`: every word of every segment, in document order, with
      its segment's category. */
  function Parse(p: Parser, corpus: seq<Node>): seq<Token> {
    SegmentsTokens(p, Segments(corpus))
  }

  /** The words of a token list. */
  function Texts(ts: seq<Token>): (ws: seq<string>)
    ensures |ws| == |ts|
    ensures forall i :: 0 <= i < |ws| ==> ws[i] == ts[i].text
  {
    if ts == [] then [] else [ts[0].text] + Texts(ts[1..])
  }

  /** The words of a list of segments, one segment after the other. */
  function SegmentsWords(segs: seq<Segment>, punct: set<char>): seq<string> {
    if segs == [] then [] else Tokenize(segs[0].text, punct) + SegmentsWords(segs[1..], punct)
  }

  // ---------------------------------------------------------------------
  // Laws of parsing

  /** Every token is a real word (non-empty, no whitespace, no leading or
      trailing punctuation) and every label comes from the parser's own
      table. */
  lemma ParseTokens(p: Parser, corpus: seq<Node>)
    ensures forall i :: 0 <= i < |Parse(p, corpus)| ==> IsToken(Parse(p, corpus)[i].text, p.punctuation)
    ensures forall i :: 0 <= i < |Parse(p, corpus)| ==>
              Parse(p, corpus)[i].category.None? || Parse(p, corpus)[i].category.value in p.table.Values
  {
    SegmentsTokensValid(p, Segments(corpus));
  }

  lemma {:induction false} SegmentsTokensValid(p: Parser, segs: seq<Segment>)
    ensures forall i :: 0 <= i < |SegmentsTokens(p, segs)| ==> IsToken(SegmentsTokens(p, segs)[i].text, p.punctuation)
    ensures forall i :: 0 <= i < |SegmentsTokens(p, segs)| ==>
              SegmentsTokens(p, segs)[i].category.None? || SegmentsTokens(p, segs)[i].category.value in p.table.Values
  {
    if segs != [] {
      SegmentsTokensValid(p, segs[1..]);
      var ws := Tokenize(segs[0].text, p.punctuation);
      TagWords(ws, SegmentCategory(p, segs[0].categ));
      var h: seq<Token>, t: seq<Token> := SegmentTokens(p, segs[0]), SegmentsTokens(p, segs[1..]);
      assert SegmentsTokens(p, segs) == h + t;
      forall i | 0 <= i < |h + t|
        ensures IsToken((h + t)[i].text, p.punctuation)
        ensures (h + t)[i].category.None? || (h + t)[i].category.value in p.table.Values
      {
        if i < |h| {
          assert (h + t)[i] == Token(ws[i], SegmentCategory(p, segs[0].categ));
        } else {
          assert (h + t)[i] == t[i - |h|];
        }
      }
    }
  }

  lemma {:induction false} SegmentsTokensAppend(p: Parser, a: seq<Segment>, b: seq<Segment>)
    ensures SegmentsTokens(p, a + b) == SegmentsTokens(p, a) + SegmentsTokens(p, b)
  {
    if a == [] {
      assert a + b == b;
    } else {
      assert (a + b)[0] == a[0];
      assert (a + b)[1..] == a[1..] + b;
      SegmentsTokensAppend(p, a[1..], b);
      var h, x, y := SegmentTokens(p, a[0]), SegmentsTokens(p, a[1..]), SegmentsTokens(p, b);
      assert h + (x + y) == (h + x) + y;
    }
  }

  lemma SegmentsTokensOne(p: Parser, seg: Segment)
    ensures SegmentsTokens(p, [seg]) == SegmentTokens(p, seg)
  {
    assert [seg][1..] == [];
  }

  /** Document order, no deduplication: the tokens of two pieces of markup
      side by side (two paragraphs, two documents) are the tokens of the
      first followed by those of the second, even when they are equal. */
  lemma ParseAppend(p: Parser, a: seq<Node>, b: seq<Node>)
    ensures Parse(p, a + b) == Parse(p, a) + Parse(p, b)
  {
    SegmentsAppend(a, b);
    SegmentsTokensAppend(p, Segments(a), Segments(b));
  }

  /** One node after another: the tokens of the first node come first. */
  lemma ParseCons(p: Parser, n: Node, rest: seq<Node>)
    ensures Parse(p, [n] + rest) == Parse(p, [n]) + Parse(p, rest)
  {
    ParseAppend(p, [n], rest);
  }

  /** Structural elements (`colHAREM`, `DOC`, `P`, …) are transparent:
      their attributes yield nothing and their content is parsed as if it
      stood on its own, so text directly under `DOC`, outside any `P`, is
      parsed too. */
  lemma ParseStructure(p: Parser, name: string, attrs: seq<Attribute>, children: seq<Node>)
    requires name != EntityTag
    ensures Parse(p, [Element(name, attrs, children)]) == Parse(p, children)
  {
    assert Segments([Element(name, attrs, children)]) == Segments(children) + Segments([]);
    assert Segments(children) + Segments([]) == Segments(children);
  }

  /** A span's words keep their order and all share the span's category. */
  lemma ParseEntity(p: Parser, attrs: seq<Attribute>, children: seq<Node>)
    ensures Parse(p, [Element(EntityTag, attrs, children)])
              == Tag(Tokenize(InnerText(children), p.punctuation), SegmentCategory(p, AttributeValue(attrs, CategoryAttribute)))
    ensures Texts(Parse(p, [Element(EntityTag, attrs, children)])) == Tokenize(InnerText(children), p.punctuation)
    ensures forall i :: 0 <= i < |Parse(p, [Element(EntityTag, attrs, children)])| ==>
              Parse(p, [Element(EntityTag, attrs, children)])[i].category
                == SegmentCategory(p, AttributeValue(attrs, CategoryAttribute))
  {
    var seg := Segment(InnerText(children), AttributeValue(attrs, CategoryAttribute));
    assert Segments([Element(EntityTag, attrs, children)]) == [seg];
    SegmentsTokensOne(p, seg);
    assert Parse(p, [Element(EntityTag, attrs, children)]) == SegmentTokens(p, seg);
    var ws := Tokenize(seg.text, p.punctuation);
    TagWords(ws, SegmentCategory(p, seg.categ));
    assert Texts(SegmentTokens(p, seg)) == ws;
  }

  /** Plain text yields its words, left to right, with no category. */
  lemma ParseText(p: Parser, s: string)
    ensures Parse(p, [Text(s)]) == Tag(Tokenize(s, p.punctuation), None)
    ensures Texts(Parse(p, [Text(s)])) == Tokenize(s, p.punctuation)
    ensures forall i :: 0 <= i < |Parse(p, [Text(s)])| ==> Parse(p, [Text(s)])[i].category == None
  {
    assert Segments([Text(s)]) == [Segment(s, None)];
    SegmentsTokensOne(p, Segment(s, None));
    assert Parse(p, [Text(s)]) == SegmentTokens(p, Segment(s, None));
    TagWords(Tokenize(s, p.punctuation), None);
    assert Texts(SegmentTokens(p, Segment(s, None))) == Tokenize(s, p.punctuation);
  }

  /** An entity none of whose codes the table knows is not an error: its
      words come out exactly as if it were plain text. */
  lemma ParseUnknownEntity(p: Parser, attrs: seq<Attribute>, children: seq<Node>, raw: string)
    requires AttributeValue(attrs, CategoryAttribute) == Some(raw)
    requires forall i :: 0 <= i < |SplitCodes(raw)| ==> SplitCodes(raw)[i] !in p.table
    ensures Parse(p, [Element(EntityTag, attrs, children)]) == Parse(p, [Text(InnerText(children))])
  {
    assert Segments([Element(EntityTag, attrs, children)]) == [Segment(InnerText(children), Some(raw))];
    assert Segments([Text(InnerText(children))]) == [Segment(InnerText(children), None)];
    SegmentsTokensOne(p, Segment(InnerText(children), Some(raw)));
    SegmentsTokensOne(p, Segment(InnerText(children), None));
    assert ExtractCategory(p, raw) == None;
  }

  /** Markup without entities yields only untagged tokens. */
  lemma {:induction false} ParseWithoutEntities(p: Parser, corpus: seq<Node>)
    requires NoEntities(corpus)
    ensures forall i :: 0 <= i < |Parse(p, corpus)| ==> Parse(p, corpus)[i].category == None
  {
    NoEntitiesUntagged(corpus);
    UntaggedSegmentsTokens(p, Segments(corpus));
  }

  lemma {:induction false} UntaggedSegmentsTokens(p: Parser, segs: seq<Segment>)
    requires forall i :: 0 <= i < |segs| ==> segs[i].categ == None
    ensures forall i :: 0 <= i < |SegmentsTokens(p, segs)| ==> SegmentsTokens(p, segs)[i].category == None
  {
    if segs != [] {
      UntaggedSegmentsTokens(p, segs[1..]);
      TagWords(Tokenize(segs[0].text, p.punctuation), SegmentCategory(p, segs[0].categ));
      var h, t := SegmentTokens(p, segs[0]), SegmentsTokens(p, segs[1..]);
      assert SegmentsTokens(p, segs) == h + t;
      assert forall i :: 0 <= i < |h| ==> h[i].category == None;
    }
  }

  /** The words do not depend on the category table: two parsers that
      strip the same punctuation find the same words, in the same order;
      those are the words of the segments. */
  lemma {:induction false} ParseWords(p: Parser, corpus: seq<Node>)
    ensures Texts(Parse(p, corpus)) == SegmentsWords(Segments(corpus), p.punctuation)
  {
    SegmentsTokensWords(p, Segments(corpus));
  }

  lemma {:induction false} SegmentsTokensWords(p: Parser, segs: seq<Segment>)
    ensures Texts(SegmentsTokens(p, segs)) == SegmentsWords(segs, p.punctuation)
  {
    if segs != [] {
      SegmentsTokensWords(p, segs[1..]);
      var h, t := SegmentTokens(p, segs[0]), SegmentsTokens(p, segs[1..]);
      TextsAppend(h, t);
      TagWords(Tokenize(segs[0].text, p.punctuation), SegmentCategory(p, segs[0].categ));
      assert Texts(h) == Tokenize(segs[0].text, p.punctuation);
    }
  }

  lemma {:induction false} TextsAppend(a: seq<Token>, b: seq<Token>)
    ensures Texts(a + b) == Texts(a) + Texts(b)
  {
    assert |Texts(a + b)| == |Texts(a) + Texts(b)|;
    forall i | 0 <= i < |a + b|
      ensures Texts(a + b)[i] == (Texts(a) + Texts(b))[i]
    {
      if i < |a| {
        assert (a + b)[i] == a[i];
      } else {
        assert (a + b)[i] == b[i - |a|];
      }
    }
  }

  lemma ParseWordsIgnoreTable(p: Parser, q: Parser, corpus: seq<Node>)
    requires p.punctuation == q.punctuation
    ensures Texts(Parse(p, corpus)) == Texts(Parse(q, corpus))
  {
    ParseWords(p, corpus);
    ParseWords(q, corpus);
  }

  /** Markup whose text is all whitespace, such as an empty corpus or one
      holding only the XML declaration and the DOCTYPE, yields no tokens. */
  lemma ParseBlank(p: Parser, corpus: seq<Node>)
    requires Blank(InnerText(corpus))
    ensures Parse(p, corpus) == []
  {
    SegmentsKeepText(corpus);
    BlankSegmentsTokens(p, Segments(corpus));
  }

  lemma {:induction false} BlankSegmentsTokens(p: Parser, segs: seq<Segment>)
    requires Blank(SegmentText(segs))
    ensures SegmentsTokens(p, segs) == []
  {
    if segs != [] {
      var rest := SegmentText(segs[1..]);
      assert SegmentText(segs) == segs[0].text + rest;
      assert Blank(segs[0].text) by {
        forall i | 0 <= i < |segs[0].text| ensures IsSpace(segs[0].text[i]) {
          assert SegmentText(segs)[i] == segs[0].text[i];
        }
      }
      assert Blank(rest) by {
        forall i | 0 <= i < |rest| ensures IsSpace(rest[i]) {
          assert SegmentText(segs)[|segs[0].text| + i] == rest[i];
        }
      }
      TokenizeBlank(segs[0].text, p.punctuation);
      BlankSegmentsTokens(p, segs[1..]);
    }
  }

  /** Attributes other than `CATEG` never produce tokens or change a
      category. */
  lemma ParseIgnoresMetadata(p: Parser, corpus: seq<Node>)
    ensures Parse(p, Bare(corpus)) == Parse(p, corpus)
  {
    BareSegments(corpus);
  }
}
