/** The examples of `spec/unit/parsers/lampada_spec.rb`, each corpus written
    as its markup tree. Text that holds several words is written
    `Line(before, words, after)`: the words joined by single spaces, with the
    whitespace (newline and indentation) that surrounds them in the corpus. */
module LampadaExamples {
  import opened Wrappers
  import opened Tokenizer
  import opened Categories
  import opened Markup
  import opened Lampada

  function Line(before: string, words: seq<string>, after: string): string {
    before + Unwords(words) + after
  }

  const Indent: string := "\n      "

  /** `<?xml version="1.0" encoding="ISO-8859-1"?>` and `<!DOCTYPE colHAREM>`. */
  const Prolog: seq<Node> := [Declaration("version=\"1.0\" encoding=\"ISO-8859-1\""), Doctype("colHAREM")]
  const Version: seq<Attribute> := [Attribute("versao", "Segundo_dourada_com_relacoes_14Abril2010")]
  const DocId: seq<Attribute> := [Attribute("DOCID", "H2-dftre765")]

  /** The prolog followed by the `colHAREM` root holding `content`. */
  function Harem(content: seq<Node>): seq<Node> {
    Prolog + [Element("colHAREM", Version, content)]
  }

  const UserTable: Table := map["FRUTA" := "fruit", "LIVRO" := "book"]

  // ---------------------------------------------------------------------
  // Corpora

  const PhraseWords: seq<string> := ["Fatores", "Demográficos", "e", "Econômicos", "Subjacentes"]
  const Phrase: string := Line("", PhraseWords, "")

  const SimplePhrase: seq<Node> :=
    Harem([Text("\n"), Element("DOC", DocId, [Text("\n  "), Element("P", [], [Text(Phrase)]), Text("\n")]), Text("\n")])

  const TwoSimplePhrases: seq<Node> :=
    Harem([Text("\n"), Element("DOC", DocId, [Text("\n  "), Element("P", [], [Text(Phrase)]), Text("\n  "), Element("P", [], [Text(Phrase)]), Text("\n")]), Text("\n")])

  const Outro: seq<Attribute> := [Attribute("ID", "H2-dftre765-102"), Attribute("CATEG", "OUTRO"), Attribute("COMENT", "DUVIDA_DIRECTIVASTEMPO")]

  const UselessParagraph: Node :=
    Element("P", [], [Text(Line("", ["Nos", "finais", "da"], " ")), Element("EM", Outro, [Text(Unwords(["Idade", "Média"]))])])

  const UselessEntity: seq<Node> :=
    Harem([Text("\n"), Element("DOC", DocId, [Text("\n  "), UselessParagraph, Text("\n")]), Text("\n")])

  const PortugalAttrs: seq<Attribute> :=
    [Attribute("ID", "H2-dftre765-23"), Attribute("CATEG", "LOCAL"), Attribute("TIPO", "HUMANO"), Attribute("SUBTIPO", "PAIS"),
     Attribute("COREL", "H2-dftre765-8 H2-dftre765-37"), Attribute("TIPOREL", "local_nascimento_de incluido")]

  const Foram: seq<string> := ForamStart + ForamEnd
  const ForamStart: seq<string> := ["Foram", "igualmente", "determinantes", "para", "evitar", "que"]
  const ForamEnd: seq<string> := ["as", "ideias", "reformadoras", "encontrassem", "divulgação", "em"]

  const OneEntityParagraph: Node :=
    Element("P", [], [Text(Line("", Foram, Indent)), Element("EM", PortugalAttrs, [Text(Unwords(["Portugal"]))]), Text(Indent)])

  const OneEntity: seq<Node> := InDocument(OneEntityParagraph)

  const AlemanhaAttrs: seq<Attribute> :=
    [Attribute("ID", "H2-dftre765-9"), Attribute("CATEG", "LOCAL"), Attribute("TIPO", "HUMANO"), Attribute("SUBTIPO", "PAIS"),
     Attribute("COREL", "H2-dftre765-37"), Attribute("TIPOREL", "incluido")]
  const GutenbergAttrs: seq<Attribute> :=
    [Attribute("ID", "H2-dftre765-10"), Attribute("CATEG", "PESSOA"), Attribute("TIPO", "INDIVIDUAL"),
     Attribute("COREL", "H2-dftre765-9"), Attribute("TIPOREL", "natural_de")]
  const InquisicaoAttrs: seq<Attribute> :=
    [Attribute("ID", "H2-dftre765-20"), Attribute("CATEG", "ORGANIZACAO"), Attribute("TIPO", "INSTITUICAO"), Attribute("COMENT", "2/3")]

  /** The paragraph of the two "multiple entities" examples, with the
      entities' categories and texts as parameters. */
  function EntitiesParagraph(first: seq<Attribute>, firstWords: seq<string>, second: seq<Attribute>, secondWords: seq<string>): Node {
    Element("P", [], EntitiesHead(first, firstWords) + EntitiesTail(second, secondWords))
  }

  function EntitiesHead(first: seq<Attribute>, firstWords: seq<string>): seq<Node> {
    [Text(Line(Indent, ["A", "imprensa,", "inventada", "na"], Indent)),
     Element("EM", first, [Text(Unwords(firstWords))]),
     Text(Line(Indent, ["por"], Indent))]
  }

  function EntitiesTail(second: seq<Attribute>, secondWords: seq<string>): seq<Node> {
    [Element("EM", second, [Text(Unwords(secondWords))]),
     Text(Indent),
     Element("EM", InquisicaoAttrs, [Text(Unwords(["Inquisição"]))]),
     Text(Line(Indent, ["e", "a", "censura"], " " + Indent))]
  }

  function InDocument(paragraph: Node): seq<Node> {
    Harem([Text("\n  "), Element("DOC", DocId, [Text(Indent), paragraph, Text("\n  ")]), Text("\n")])
  }

  const MultipleEntities: seq<Node> :=
    InDocument(EntitiesParagraph(AlemanhaAttrs, ["Alemanha"], GutenbergAttrs, ["John", "Gutenberg"]))

  const BananaAttrs: seq<Attribute> :=
    [Attribute("ID", "H2-dftre765-9"), Attribute("CATEG", "FRUTA"), Attribute("TIPO", "HUMANO"), Attribute("SUBTIPO", "PAIS"),
     Attribute("COREL", "H2-dftre765-37"), Attribute("TIPOREL", "incluido")]
  const PotterAttrs: seq<Attribute> :=
    [Attribute("ID", "H2-dftre765-10"), Attribute("CATEG", "LIVRO"), Attribute("TIPO", "INDIVIDUAL"),
     Attribute("COREL", "H2-dftre765-9"), Attribute("TIPOREL", "natural_de")]

  const UserEntities: seq<Node> :=
    InDocument(EntitiesParagraph(BananaAttrs, ["Banana"], PotterAttrs, ["Harry", "Potter"]))

  const ReformaAttrs: seq<Attribute> :=
    [Attribute("ID", "H2-dftre765-1"), Attribute("CATEG", "ABSTRACCAO|ACONTECIMENTO"), Attribute("TIPO", "IDEIA|EFEMERIDE")]

  /** Text directly under `DOC`, outside any `P`. */
  const SpacesAfterPunctuation: seq<Node> :=
    Harem([Text("\n  "), Element("DOC", DocId, [
      Text(Indent),
      Element("EM", ReformaAttrs, [Text(Unwords(["Reforma", "Protestante"]))]),
      Text(Line(Indent, [".", "No"], "\n  "))]), Text("\n")])

  // ---------------------------------------------------------------------
  // Building blocks of the proofs

  lemma ParseHarem(p: Parser, content: seq<Node>)
    ensures Parse(p, Harem(content)) == Parse(p, content)
  {
    ParseAppend(p, Prolog, [Element("colHAREM", Version, content)]);
    ParseBlank(p, Prolog);
    ParseStructure(p, "colHAREM", Version, content);
  }

  /** Whitespace around a single node adds nothing. */
  lemma ParsePadded(p: Parser, a: string, n: Node, b: string)
    requires Blank(a) && Blank(b)
    ensures Parse(p, [Text(a), n, Text(b)]) == Parse(p, [n])
  {
    ParseCons(p, Text(a), [n, Text(b)]);
    ParseCons(p, n, [Text(b)]);
    ParseBlank(p, [Text(a)]);
    ParseBlank(p, [Text(b)]);
  }

  /** Structure padded with whitespace adds nothing. */
  lemma ParsePaddedStructure(p: Parser, name: string, attrs: seq<Attribute>, a: string, n: Node, b: string)
    requires name != EntityTag && Blank(a) && Blank(b)
    ensures Parse(p, [Element(name, attrs, [Text(a), n, Text(b)])]) == Parse(p, [n])
  {
    ParseStructure(p, name, attrs, [Text(a), n, Text(b)]);
    ParsePadded(p, a, n, b);
  }

  lemma ParseInDocument(p: Parser, paragraph: Node)
    ensures Parse(p, InDocument(paragraph)) == Parse(p, [paragraph])
  {
    var doc := Element("DOC", DocId, [Text(Indent), paragraph, Text("\n  ")]);
    calc {
      Parse(p, InDocument(paragraph));
    == { ParseHarem(p, [Text("\n  "), doc, Text("\n")]); }
      Parse(p, [Text("\n  "), doc, Text("\n")]);
    == { ParsePadded(p, "\n  ", doc, "\n"); }
      Parse(p, [doc]);
    == { ParsePaddedStructure(p, "DOC", DocId, Indent, paragraph, "\n  "); }
      Parse(p, [paragraph]);
    }
  }

  /** Every word is already a token under the default punctuation; stated
      word by word, so that it can be checked on a list of literal words. */
  predicate AllTokens(words: seq<string>) {
    words == [] || (IsToken(words[0], DefaultPunctuation) && AllTokens(words[1..]))
  }

  lemma {:induction false} AllTokensEach(words: seq<string>)
    requires AllTokens(words)
    ensures forall i :: 0 <= i < |words| ==> IsToken(words[i], DefaultPunctuation)
  {
    if words != [] {
      AllTokensEach(words[1..]);
      assert forall i :: 1 <= i < |words| ==> words[i] == words[1..][i - 1];
    }
  }

  lemma {:induction false} AllTokensAppend(a: seq<string>, b: seq<string>)
    requires AllTokens(a) && AllTokens(b)
    ensures AllTokens(a + b)
  {
    if a != [] {
      AllTokensAppend(a[1..], b);
      assert (a + b)[1..] == a[1..] + b;
    } else {
      assert a + b == b;
    }
  }

  /** Every word is a non-empty run of non-space characters. */
  predicate AllWords(words: seq<string>) {
    forall i :: 0 <= i < |words| ==> words[i] != [] && NoSpace(words[i])
  }

  /** A line of plain text whose words need no stripping. */
  lemma ParsePlainLine(p: Parser, before: string, words: seq<string>, after: string)
    requires p.punctuation == DefaultPunctuation
    requires Blank(before) && Blank(after)
    requires AllTokens(words)
    ensures Parse(p, [Text(Line(before, words, after))]) == Tag(words, None)
  {
    AllTokensEach(words);
    TokenizePadded(before, words, after, p.punctuation);
    CleanTokens(words, p.punctuation);
    ParseText(p, Line(before, words, after));
  }

  /** A line of plain text whose candidate words strip to `expected`. */
  lemma ParseCleanLine(p: Parser, before: string, words: seq<string>, after: string, expected: seq<string>)
    requires p.punctuation == DefaultPunctuation
    requires Blank(before) && Blank(after)
    requires AllWords(words)
    requires CleanWords(words, DefaultPunctuation) == expected
    ensures Parse(p, [Text(Line(before, words, after))]) == Tag(expected, None)
  {
    TokenizePadded(before, words, after, p.punctuation);
    ParseText(p, Line(before, words, after));
  }

  /** An entity whose words need no stripping. */
  lemma ParseSpan(p: Parser, attrs: seq<Attribute>, words: seq<string>, raw: string, cat: Option<Label>)
    requires AttributeValue(attrs, CategoryAttribute) == Some(raw)
    requires ExtractCategory(p, raw) == cat
    requires p.punctuation == DefaultPunctuation
    requires AllTokens(words)
    ensures Parse(p, [Element(EntityTag, attrs, [Text(Unwords(words))])]) == Tag(words, cat)
  {
    AllTokensEach(words);
    TokenizePadded("", words, "", p.punctuation);
    assert "" + Unwords(words) + "" == Unwords(words);
    CleanTokens(words, p.punctuation);
    assert InnerText([Text(Unwords(words))]) == Unwords(words);
    ParseEntity(p, attrs, [Text(Unwords(words))]);
  }

  lemma CategoryLocal()
    ensures ExtractCategory(New(None), "LOCAL") == Some("location")
  {
    ResolveOne("LOCAL", DefaultTable);
  }

  lemma CategoryPessoa()
    ensures ExtractCategory(New(None), "PESSOA") == Some("person")
  {
    ResolveOne("PESSOA", DefaultTable);
  }

  lemma CategoryOrganizacao()
    ensures ExtractCategory(New(None), "ORGANIZACAO") == Some("organization")
  {
    ResolveOne("ORGANIZACAO", DefaultTable);
  }

  lemma CategoryOutro()
    ensures ExtractCategory(New(None), "OUTRO") == None
  {
    ResolveOne("OUTRO", DefaultTable);
  }

  lemma CategoryFruta()
    ensures ExtractCategory(New(Some(UserTable)), "FRUTA") == Some("fruit")
  {
    ResolveOne("FRUTA", UserTable);
  }

  lemma CategoryLivro()
    ensures ExtractCategory(New(Some(UserTable)), "LIVRO") == Some("book")
  {
    ResolveOne("LIVRO", UserTable);
  }

  lemma CategoryUserOrganizacao()
    ensures ExtractCategory(New(Some(UserTable)), "ORGANIZACAO") == None
  {
    ResolveOne("ORGANIZACAO", UserTable);
  }

  lemma AbstraccaoCodes()
    ensures "ABSTRACCAO|ACONTECIMENTO" == "ABSTRACCAO" + [Bar] + "ACONTECIMENTO"
  {
  }

  /** Two codes the table does not know resolve to no category. */
  lemma ResolveUnknownPair(a: Code, b: Code, table: Table)
    requires a != [] && b != [] && Bar !in a && Bar !in b
    requires a !in table && b !in table
    ensures Resolve(a + [Bar] + b, table) == None
  {
    ResolveSkipsUnknown(a, b, table);
    ResolveOne(b, table);
  }

  lemma CategoryAbstraccao()
    ensures ExtractCategory(New(None), "ABSTRACCAO|ACONTECIMENTO") == None
  {
    AbstraccaoCodes();
    ResolveUnknownPair("ABSTRACCAO", "ACONTECIMENTO", DefaultTable);
  }

  // ---------------------------------------------------------------------
  // Words that need cleaning

  lemma StripImprensa()
    ensures Strip("imprensa,", DefaultPunctuation) == "imprensa"
  {
    StripAround("", "imprensa", ",", DefaultPunctuation);
    assert "" + "imprensa" + "," == "imprensa,";
  }

  lemma StripDot()
    ensures Strip(".", DefaultPunctuation) == []
  {
    StripPunctuationOnly(".", DefaultPunctuation);
  }

  lemma CleanImprensaSplit()
    ensures CleanWords(["A", "imprensa,", "inventada", "na"], DefaultPunctuation)
              == CleanWords(["A"], DefaultPunctuation) + CleanWords(["imprensa,"], DefaultPunctuation) + CleanWords(["inventada", "na"], DefaultPunctuation)
  {
    assert ["A", "imprensa,", "inventada", "na"] == ["A"] + ["imprensa,"] + ["inventada", "na"];
    CleanWordsAppend(["A"] + ["imprensa,"], ["inventada", "na"], DefaultPunctuation);
    CleanWordsAppend(["A"], ["imprensa,"], DefaultPunctuation);
  }

  lemma CleanA()
    ensures CleanWords(["A"], DefaultPunctuation) == ["A"]
  {
    CleanTokens(["A"], DefaultPunctuation);
  }

  lemma CleanImprensaWord()
    ensures CleanWords(["imprensa,"], DefaultPunctuation) == ["imprensa"]
  {
    StripImprensa();
  }

  lemma CleanInventadaNa()
    ensures CleanWords(["inventada", "na"], DefaultPunctuation) == ["inventada", "na"]
  {
    CleanTokens(["inventada", "na"], DefaultPunctuation);
  }

  /** "imprensa," loses its comma. */
  lemma CleanImprensa()
    ensures CleanWords(["A", "imprensa,", "inventada", "na"], DefaultPunctuation) == ["A", "imprensa", "inventada", "na"]
  {
    calc {
      CleanWords(["A", "imprensa,", "inventada", "na"], DefaultPunctuation);
    == { CleanImprensaSplit(); CleanA(); CleanImprensaWord(); CleanInventadaNa(); }
      ["A"] + ["imprensa"] + ["inventada", "na"];
    == 
      ["A", "imprensa", "inventada", "na"];
    }
  }

  /** A lone "." is dropped. */
  lemma CleanStop()
    ensures CleanWords([".", "No"], DefaultPunctuation) == ["No"]
  {
    StripDot();
    StripToken("No", DefaultPunctuation);
  }

  // ---------------------------------------------------------------------
  // Shapes of the example corpora, for any words, attributes and table

  /** Whitespace before some markup adds nothing. */
  lemma ParseDropLeading(p: Parser, s: string, nodes: seq<Node>)
    requires Blank(s)
    ensures Parse(p, [Text(s)] + nodes) == Parse(p, nodes)
  {
    ParseCons(p, Text(s), nodes);
    ParseBlank(p, [Text(s)]);
  }

  /** Whitespace after some markup adds nothing. */
  lemma ParseDropTrailing(p: Parser, nodes: seq<Node>, s: string)
    requires Blank(s)
    ensures Parse(p, nodes + [Text(s)]) == Parse(p, nodes)
  {
    ParseAppend(p, nodes, [Text(s)]);
    ParseBlank(p, [Text(s)]);
  }

  /** A line of plain words followed by an entity. */
  lemma ParseLineThenSpan(p: Parser, before: string, words: seq<string>, gap: string,
                          attrs: seq<Attribute>, entity: seq<string>, raw: string, cat: Option<Label>)
    requires p.punctuation == DefaultPunctuation && Blank(before) && Blank(gap)
    requires AllTokens(words) && AllTokens(entity)
    requires AttributeValue(attrs, CategoryAttribute) == Some(raw) && ExtractCategory(p, raw) == cat
    ensures Parse(p, [Text(Line(before, words, gap)), Element(EntityTag, attrs, [Text(Unwords(entity))])])
              == Tag(words, None) + Tag(entity, cat)
  {
    ParseCons(p, Text(Line(before, words, gap)), [Element(EntityTag, attrs, [Text(Unwords(entity))])]);
    ParsePlainLine(p, before, words, gap);
    ParseSpan(p, attrs, entity, raw, cat);
  }

  /** An entity followed by a line of words. */
  lemma ParseSpanThenLine(p: Parser, attrs: seq<Attribute>, entity: seq<string>, raw: string, cat: Option<Label>,
                          before: string, words: seq<string>, after: string, expected: seq<string>)
    requires p.punctuation == DefaultPunctuation && Blank(before) && Blank(after)
    requires AllTokens(entity) && AllWords(words) && CleanWords(words, DefaultPunctuation) == expected
    requires AttributeValue(attrs, CategoryAttribute) == Some(raw) && ExtractCategory(p, raw) == cat
    ensures Parse(p, [Element(EntityTag, attrs, [Text(Unwords(entity))]), Text(Line(before, words, after))])
              == Tag(entity, cat) + Tag(expected, None)
  {
    ParseCons(p, Element(EntityTag, attrs, [Text(Unwords(entity))]), [Text(Line(before, words, after))]);
    ParseSpan(p, attrs, entity, raw, cat);
    ParseCleanLine(p, before, words, after, expected);
  }

  lemma BlankGaps()
    ensures Blank(" ") && Blank("\n") && Blank("\n  ") && Blank(Indent) && Blank(" " + Indent)
  {
  }

  /** Plain words are left as they are. */
  lemma PlainWords(words: seq<string>)
    requires AllTokens(words)
    ensures AllWords(words) && CleanWords(words, DefaultPunctuation) == words
  {
    AllTokensEach(words);
    CleanTokens(words, DefaultPunctuation);
  }

  // ---------------------------------------------------------------------
  // `#parse` with the default categories

  /** "empty corpus" and "doctype": no tokens. */
  lemma EmptyCorpusExample()
    ensures Parse(New(None), []) == []
    ensures Parse(New(None), Prolog) == []
  {
    ParseBlank(New(None), Prolog);
  }

  lemma TokensPhrase() ensures AllTokens(PhraseWords) {}

  lemma ParsePhrase(p: Parser)
    requires p.punctuation == DefaultPunctuation
    ensures Parse(p, [Element("P", [], [Text(Phrase)])]) == Tag(PhraseWords, None)
  {
    TokensPhrase();
    ParseStructure(p, "P", [], [Text(Phrase)]);
    ParsePlainLine(p, "", PhraseWords, "");
  }

  lemma ParseSimplePhrase(p: Parser)
    requires p.punctuation == DefaultPunctuation
    ensures Parse(p, SimplePhrase) == Tag(PhraseWords, None)
  {
    var para := Element("P", [], [Text(Phrase)]);
    var doc := Element("DOC", DocId, [Text("\n  "), para, Text("\n")]);
    ParseHarem(p, [Text("\n"), doc, Text("\n")]);
    ParsePadded(p, "\n", doc, "\n");
    ParsePaddedStructure(p, "DOC", DocId, "\n  ", para, "\n");
    ParsePhrase(p);
  }

  lemma PhraseTokens()
    ensures Tag(PhraseWords, None)
              == [Token("Fatores", None), Token("Demográficos", None), Token("e", None), Token("Econômicos", None), Token("Subjacentes", None)]
  {
  }

  /** "simple phrase": one untagged token per word, accents kept. */
  lemma SimplePhraseExample()
    ensures Parse(New(None), SimplePhrase)
              == [Token("Fatores", None), Token("Demográficos", None), Token("e", None), Token("Econômicos", None), Token("Subjacentes", None)]
  {
    ParseSimplePhrase(New(None));
    PhraseTokens();
  }

  lemma ParseTwoParagraphs(p: Parser)
    requires p.punctuation == DefaultPunctuation
    ensures Parse(p, [Text("\n  "), Element("P", [], [Text(Phrase)]), Text("\n  "), Element("P", [], [Text(Phrase)]), Text("\n")])
              == Tag(PhraseWords, None) + Tag(PhraseWords, None)
  {
    var para := Element("P", [], [Text(Phrase)]);
    BlankGaps();
    calc {
      Parse(p, [Text("\n  "), para, Text("\n  "), para, Text("\n")]);
    == { assert [Text("\n  "), para, Text("\n  "), para, Text("\n")] == [Text("\n  ")] + [para, Text("\n  "), para, Text("\n")];
         ParseDropLeading(p, "\n  ", [para, Text("\n  "), para, Text("\n")]); }
      Parse(p, [para, Text("\n  "), para, Text("\n")]);
    == { ParseCons(p, para, [Text("\n  "), para, Text("\n")]); }
      Parse(p, [para]) + Parse(p, [Text("\n  "), para, Text("\n")]);
    == { ParsePadded(p, "\n  ", para, "\n"); }
      Parse(p, [para]) + Parse(p, [para]);
    == { ParsePhrase(p); }
      Tag(PhraseWords, None) + Tag(PhraseWords, None);
    }
  }

  lemma ParseTwoSimplePhrases(p: Parser)
    requires p.punctuation == DefaultPunctuation
    ensures Parse(p, TwoSimplePhrases) == Tag(PhraseWords, None) + Tag(PhraseWords, None)
  {
    var content := [Text("\n  "), Element("P", [], [Text(Phrase)]), Text("\n  "), Element("P", [], [Text(Phrase)]), Text("\n")];
    var doc := Element("DOC", DocId, content);
    ParseHarem(p, [Text("\n"), doc, Text("\n")]);
    ParsePadded(p, "\n", doc, "\n");
    ParseStructure(p, "DOC", DocId, content);
    ParseTwoParagraphs(p);
  }

  /** "two simple phrases": the paragraph's tokens twice, in order. */
  lemma TwoSimplePhrasesExample()
    ensures Parse(New(None), TwoSimplePhrases)
              == [Token("Fatores", None), Token("Demográficos", None), Token("e", None), Token("Econômicos", None), Token("Subjacentes", None),
                  Token("Fatores", None), Token("Demográficos", None), Token("e", None), Token("Econômicos", None), Token("Subjacentes", None)]
  {
    var once := [Token("Fatores", None), Token("Demográficos", None), Token("e", None), Token("Econômicos", None), Token("Subjacentes", None)];
    calc {
      Parse(New(None), TwoSimplePhrases);
    == { ParseTwoSimplePhrases(New(None)); }
      Tag(PhraseWords, None) + Tag(PhraseWords, None);
    == { PhraseTokens(); }
      once + once;
    }
  }

  /** No deduplication: the second paragraph repeats the first one's
      tokens. */
  lemma TwoSimplePhrasesRepeat()
    ensures Parse(New(None), TwoSimplePhrases) == Parse(New(None), SimplePhrase) + Parse(New(None), SimplePhrase)
  {
    ParseTwoSimplePhrases(New(None));
    ParseSimplePhrase(New(None));
  }

  lemma UselessEntityFacts()
    ensures Blank(" ") && AllTokens(["Nos", "finais", "da"]) && AllTokens(["Idade", "Média"])
    ensures AttributeValue(Outro, CategoryAttribute) == Some("OUTRO")
  {
  }

  lemma ParseUselessParagraph(p: Parser)
    requires p.punctuation == DefaultPunctuation && ExtractCategory(p, "OUTRO") == None
    ensures Parse(p, [UselessParagraph]) == Tag(["Nos", "finais", "da"], None) + Tag(["Idade", "Média"], None)
  {
    var line := Text(Line("", ["Nos", "finais", "da"], " "));
    var em := Element("EM", Outro, [Text(Unwords(["Idade", "Média"]))]);
    UselessEntityFacts();
    ParseStructure(p, "P", [], [line, em]);
    ParseLineThenSpan(p, "", ["Nos", "finais", "da"], " ", Outro, ["Idade", "Média"], "OUTRO", None);
  }

  lemma ParseUselessEntity(p: Parser)
    requires p.punctuation == DefaultPunctuation && ExtractCategory(p, "OUTRO") == None
    ensures Parse(p, UselessEntity) == Tag(["Nos", "finais", "da"], None) + Tag(["Idade", "Média"], None)
  {
    var doc := Element("DOC", DocId, [Text("\n  "), UselessParagraph, Text("\n")]);
    ParseHarem(p, [Text("\n"), doc, Text("\n")]);
    ParsePadded(p, "\n", doc, "\n");
    ParsePaddedStructure(p, "DOC", DocId, "\n  ", UselessParagraph, "\n");
    ParseUselessParagraph(p);
  }

  lemma UselessEntityTokens()
    ensures Tag(["Nos", "finais", "da"], None) + Tag(["Idade", "Média"], None)
              == [Token("Nos", None), Token("finais", None), Token("da", None), Token("Idade", None), Token("Média", None)]
  {
  }

  /** "useless entity": an entity whose code the table lacks (`OUTRO`)
      still yields its words, untagged. */
  lemma UselessEntityExample()
    ensures Parse(New(None), UselessEntity)
              == [Token("Nos", None), Token("finais", None), Token("da", None), Token("Idade", None), Token("Média", None)]
  {
    CategoryOutro();
    ParseUselessEntity(New(None));
    UselessEntityTokens();
  }

  lemma TokensForamStart() ensures AllTokens(ForamStart) {}
  lemma TokensForamEnd() ensures AllTokens(ForamEnd) {}

  lemma TokensForam()
    ensures AllTokens(Foram)
  {
    TokensForamStart();
    TokensForamEnd();
    AllTokensAppend(ForamStart, ForamEnd);
  }

  lemma OneEntityFacts()
    ensures Blank(Indent) && AllTokens(["Portugal"])
    ensures AttributeValue(PortugalAttrs, CategoryAttribute) == Some("LOCAL")
  {
  }

  lemma ParseForamPortugal(p: Parser)
    requires p.punctuation == DefaultPunctuation && ExtractCategory(p, "LOCAL") == Some("location")
    ensures Parse(p, [Text(Line("", Foram, Indent)), Element("EM", PortugalAttrs, [Text(Unwords(["Portugal"]))])])
              == Tag(Foram, None) + Tag(["Portugal"], Some("location"))
  {
    OneEntityFacts();
    TokensForam();
    ParseLineThenSpan(p, "", Foram, Indent, PortugalAttrs, ["Portugal"], "LOCAL", Some("location"));
  }

  lemma ParseOneEntityParagraph(p: Parser)
    requires p.punctuation == DefaultPunctuation && ExtractCategory(p, "LOCAL") == Some("location")
    ensures Parse(p, [OneEntityParagraph]) == Tag(Foram, None) + Tag(["Portugal"], Some("location"))
  {
    var line := Text(Line("", Foram, Indent));
    var em := Element("EM", PortugalAttrs, [Text(Unwords(["Portugal"]))]);
    calc {
      Parse(p, [OneEntityParagraph]);
    == { assert OneEntityParagraph == Element("P", [], [line, em] + [Text(Indent)]);
         ParseStructure(p, "P", [], [line, em] + [Text(Indent)]); }
      Parse(p, [line, em] + [Text(Indent)]);
    == { BlankGaps();
         ParseDropTrailing(p, [line, em], Indent); }
      Parse(p, [line, em]);
    == { ParseForamPortugal(p); }
      Tag(Foram, None) + Tag(["Portugal"], Some("location"));
    }
  }

  lemma ParseOneEntity(p: Parser)
    requires p.punctuation == DefaultPunctuation && ExtractCategory(p, "LOCAL") == Some("location")
    ensures Parse(p, OneEntity) == Tag(Foram, None) + Tag(["Portugal"], Some("location"))
  {
    ParseInDocument(p, OneEntityParagraph);
    ParseOneEntityParagraph(p);
  }

  lemma ForamStartTokens()
    ensures Tag(ForamStart, None)
              == [Token("Foram", None), Token("igualmente", None), Token("determinantes", None), Token("para", None),
                  Token("evitar", None), Token("que", None)]
  {
  }

  lemma ForamEndTokens()
    ensures Tag(ForamEnd, None)
              == [Token("as", None), Token("ideias", None),
                  Token("reformadoras", None), Token("encontrassem", None), Token("divulgação", None), Token("em", None)]
  {
  }

  lemma ForamTokens()
    ensures Tag(Foram, None)
              == [Token("Foram", None), Token("igualmente", None), Token("determinantes", None), Token("para", None),
                  Token("evitar", None), Token("que", None), Token("as", None), Token("ideias", None),
                  Token("reformadoras", None), Token("encontrassem", None), Token("divulgação", None), Token("em", None)]
  {
    TagAppend(ForamStart, ForamEnd, None);
    ForamStartTokens();
    ForamEndTokens();
  }

  lemma OneEntityTokens()
    ensures Tag(Foram, None) + Tag(["Portugal"], Some("location"))
              == [Token("Foram", None), Token("igualmente", None), Token("determinantes", None), Token("para", None),
                  Token("evitar", None), Token("que", None), Token("as", None), Token("ideias", None),
                  Token("reformadoras", None), Token("encontrassem", None), Token("divulgação", None), Token("em", None),
                  Token("Portugal", Some("location"))]
  {
    ForamTokens();
  }

  /** "one entity": only the entity's word is tagged; the `TIPO`,
      `SUBTIPO`, `COREL` and `TIPOREL` attributes change nothing. */
  lemma OneEntityExample()
    ensures Parse(New(None), OneEntity)
              == [Token("Foram", None), Token("igualmente", None), Token("determinantes", None), Token("para", None),
                  Token("evitar", None), Token("que", None), Token("as", None), Token("ideias", None),
                  Token("reformadoras", None), Token("encontrassem", None), Token("divulgação", None), Token("em", None),
                  Token("Portugal", Some("location"))]
  {
    CategoryLocal();
    ParseOneEntity(New(None));
    OneEntityTokens();
  }

  lemma EntitiesHeadFacts()
    ensures AllWords(["A", "imprensa,", "inventada", "na"]) && AllTokens(["por"])
  {
  }

  lemma EntitiesTailFacts()
    ensures AllTokens(["Inquisição"]) && AllTokens(["e", "a", "censura"])
    ensures AttributeValue(InquisicaoAttrs, CategoryAttribute) == Some("ORGANIZACAO")
  {
  }

  /** The first three children of the "multiple entities" paragraph: a line
      whose words need cleaning, an entity and a line of plain words. */
  lemma ParseEntitiesHead(p: Parser, first: seq<Attribute>, firstWords: seq<string>, raw: string, cat: Option<Label>)
    requires p.punctuation == DefaultPunctuation
    requires AttributeValue(first, CategoryAttribute) == Some(raw) && ExtractCategory(p, raw) == cat
    requires AllTokens(firstWords)
    ensures Parse(p, EntitiesHead(first, firstWords))
              == Tag(["A", "imprensa", "inventada", "na"], None) + (Tag(firstWords, cat) + Tag(["por"], None))
  {
    var a := Text(Line(Indent, ["A", "imprensa,", "inventada", "na"], Indent));
    var b := Element("EM", first, [Text(Unwords(firstWords))]);
    var c := Text(Line(Indent, ["por"], Indent));
    BlankGaps();
    EntitiesHeadFacts();
    CleanImprensa();
    PlainWords(["por"]);
    ParseCons(p, a, [b, c]);
    ParseCleanLine(p, Indent, ["A", "imprensa,", "inventada", "na"], Indent, ["A", "imprensa", "inventada", "na"]);
    ParseSpanThenLine(p, first, firstWords, raw, cat, Indent, ["por"], Indent, ["por"]);
  }

  /** The last four children of the "multiple entities" paragraph: two
      entities separated by whitespace, then a line of plain words. */
  lemma ParseEntitiesTail(p: Parser, second: seq<Attribute>, secondWords: seq<string>, raw: string, cat: Option<Label>, inquisicao: Option<Label>)
    requires p.punctuation == DefaultPunctuation
    requires AttributeValue(second, CategoryAttribute) == Some(raw) && ExtractCategory(p, raw) == cat
    requires ExtractCategory(p, "ORGANIZACAO") == inquisicao
    requires AllTokens(secondWords)
    ensures Parse(p, EntitiesTail(second, secondWords))
              == Tag(secondWords, cat) + (Tag(["Inquisição"], inquisicao) + Tag(["e", "a", "censura"], None))
  {
    var d := Element("EM", second, [Text(Unwords(secondWords))]);
    var e := Element("EM", InquisicaoAttrs, [Text(Unwords(["Inquisição"]))]);
    var f := Text(Line(Indent, ["e", "a", "censura"], " " + Indent));
    BlankGaps();
    EntitiesTailFacts();
    PlainWords(["e", "a", "censura"]);
    ParseCons(p, d, [Text(Indent), e, f]);
    ParseDropLeading(p, Indent, [e, f]);
    ParseSpan(p, second, secondWords, raw, cat);
    ParseSpanThenLine(p, InquisicaoAttrs, ["Inquisição"], "ORGANIZACAO", inquisicao, Indent, ["e", "a", "censura"], " " + Indent, ["e", "a", "censura"]);
  }

  /** The "multiple entities" paragraph in its document, for any first two
      entities and any table. */
  lemma ParseEntitiesParagraph(p: Parser, first: seq<Attribute>, firstWords: seq<string>, raw1: string, cat1: Option<Label>,
                               second: seq<Attribute>, secondWords: seq<string>, raw2: string, cat2: Option<Label>, inquisicao: Option<Label>)
    requires p.punctuation == DefaultPunctuation
    requires AttributeValue(first, CategoryAttribute) == Some(raw1) && ExtractCategory(p, raw1) == cat1
    requires AttributeValue(second, CategoryAttribute) == Some(raw2) && ExtractCategory(p, raw2) == cat2
    requires ExtractCategory(p, "ORGANIZACAO") == inquisicao
    requires AllTokens(firstWords) && AllTokens(secondWords)
    ensures Parse(p, InDocument(EntitiesParagraph(first, firstWords, second, secondWords)))
              == Tag(["A", "imprensa", "inventada", "na"], None) + (Tag(firstWords, cat1) + Tag(["por"], None))
                 + (Tag(secondWords, cat2) + (Tag(["Inquisição"], inquisicao) + Tag(["e", "a", "censura"], None)))
  {
    ParseInDocument(p, EntitiesParagraph(first, firstWords, second, secondWords));
    ParseStructure(p, "P", [], EntitiesHead(first, firstWords) + EntitiesTail(second, secondWords));
    ParseAppend(p, EntitiesHead(first, firstWords), EntitiesTail(second, secondWords));
    ParseEntitiesHead(p, first, firstWords, raw1, cat1);
    ParseEntitiesTail(p, second, secondWords, raw2, cat2, inquisicao);
  }

  lemma MultipleEntitiesFacts()
    ensures AllTokens(["Alemanha"]) && AllTokens(["John", "Gutenberg"])
    ensures AttributeValue(AlemanhaAttrs, CategoryAttribute) == Some("LOCAL")
    ensures AttributeValue(GutenbergAttrs, CategoryAttribute) == Some("PESSOA")
  {
  }

  lemma ParseMultipleEntities(p: Parser)
    requires p.punctuation == DefaultPunctuation
    requires ExtractCategory(p, "LOCAL") == Some("location") && ExtractCategory(p, "PESSOA") == Some("person")
    requires ExtractCategory(p, "ORGANIZACAO") == Some("organization")
    ensures Parse(p, MultipleEntities)
              == Tag(["A", "imprensa", "inventada", "na"], None) + (Tag(["Alemanha"], Some("location")) + Tag(["por"], None))
                 + (Tag(["John", "Gutenberg"], Some("person")) + (Tag(["Inquisição"], Some("organization")) + Tag(["e", "a", "censura"], None)))
  {
    MultipleEntitiesFacts();
    ParseEntitiesParagraph(p, AlemanhaAttrs, ["Alemanha"], "LOCAL", Some("location"),
                           GutenbergAttrs, ["John", "Gutenberg"], "PESSOA", Some("person"), Some("organization"));
  }

  lemma MultipleEntitiesTokens()
    ensures Tag(["A", "imprensa", "inventada", "na"], None) + (Tag(["Alemanha"], Some("location")) + Tag(["por"], None))
              + (Tag(["John", "Gutenberg"], Some("person")) + (Tag(["Inquisição"], Some("organization")) + Tag(["e", "a", "censura"], None)))
            == [Token("A", None), Token("imprensa", None), Token("inventada", None), Token("na", None),
                Token("Alemanha", Some("location")), Token("por", None),
                Token("John", Some("person")), Token("Gutenberg", Some("person")),
                Token("Inquisição", Some("organization")),
                Token("e", None), Token("a", None), Token("censura", None)]
  {
  }

  lemma DefaultCategories()
    ensures ExtractCategory(New(None), "LOCAL") == Some("location")
    ensures ExtractCategory(New(None), "PESSOA") == Some("person")
    ensures ExtractCategory(New(None), "ORGANIZACAO") == Some("organization")
  {
    CategoryLocal();
    CategoryPessoa();
    CategoryOrganizacao();
  }

  /** "multiple entities": each entity's words carry its category, in
      document order, and "imprensa," loses its comma. */
  lemma MultipleEntitiesExample()
    ensures Parse(New(None), MultipleEntities)
              == [Token("A", None), Token("imprensa", None), Token("inventada", None), Token("na", None),
                  Token("Alemanha", Some("location")), Token("por", None),
                  Token("John", Some("person")), Token("Gutenberg", Some("person")),
                  Token("Inquisição", Some("organization")),
                  Token("e", None), Token("a", None), Token("censura", None)]
  {
    DefaultCategories();
    ParseMultipleEntities(New(None));
    MultipleEntitiesTokens();
  }

  lemma ReformaFacts()
    ensures Blank(Indent) && Blank("\n  ") && AllTokens(["Reforma", "Protestante"]) && AllWords([".", "No"])
    ensures AttributeValue(ReformaAttrs, CategoryAttribute) == Some("ABSTRACCAO|ACONTECIMENTO")
  {
  }

  lemma ParseReformaThenStop(p: Parser)
    requires p.punctuation == DefaultPunctuation && ExtractCategory(p, "ABSTRACCAO|ACONTECIMENTO") == None
    ensures Parse(p, [Element("EM", ReformaAttrs, [Text(Unwords(["Reforma", "Protestante"]))]), Text(Line(Indent, [".", "No"], "\n  "))])
              == Tag(["Reforma", "Protestante"], None) + Tag(["No"], None)
  {
    ReformaFacts();
    CleanStop();
    ParseSpanThenLine(p, ReformaAttrs, ["Reforma", "Protestante"], "ABSTRACCAO|ACONTECIMENTO", None, Indent, [".", "No"], "\n  ", ["No"]);
  }

  lemma ParseSpacesAfterPunctuation(p: Parser)
    requires p.punctuation == DefaultPunctuation && ExtractCategory(p, "ABSTRACCAO|ACONTECIMENTO") == None
    ensures Parse(p, SpacesAfterPunctuation) == Tag(["Reforma", "Protestante"], None) + Tag(["No"], None)
  {
    var em := Element("EM", ReformaAttrs, [Text(Unwords(["Reforma", "Protestante"]))]);
    var line := Text(Line(Indent, [".", "No"], "\n  "));
    var doc := Element("DOC", DocId, [Text(Indent), em, line]);
    BlankGaps();
    calc {
      Parse(p, SpacesAfterPunctuation);
    == { ParseHarem(p, [Text("\n  "), doc, Text("\n")]); }
      Parse(p, [Text("\n  "), doc, Text("\n")]);
    == { ParsePadded(p, "\n  ", doc, "\n"); }
      Parse(p, [doc]);
    == { assert [Text(Indent), em, line] == [Text(Indent)] + [em, line];
         ParseStructure(p, "DOC", DocId, [Text(Indent)] + [em, line]); }
      Parse(p, [Text(Indent)] + [em, line]);
    == { ParseDropLeading(p, Indent, [em, line]); }
      Parse(p, [em, line]);
    == { ParseReformaThenStop(p); }
      Tag(["Reforma", "Protestante"], None) + Tag(["No"], None);
    }
  }

  lemma SpacesAfterPunctuationTokens()
    ensures Tag(["Reforma", "Protestante"], None) + Tag(["No"], None) == [Token("Reforma", None), Token("Protestante", None), Token("No", None)]
  {
  }

  /** "spaces after ponctuation": text directly under `DOC` is parsed, an
      entity of unknown codes is untagged, and the lone "." is dropped. */
  lemma SpacesAfterPunctuationExample()
    ensures Parse(New(None), SpacesAfterPunctuation) == [Token("Reforma", None), Token("Protestante", None), Token("No", None)]
  {
    CategoryAbstraccao();
    ParseSpacesAfterPunctuation(New(None));
    SpacesAfterPunctuationTokens();
  }

  // ---------------------------------------------------------------------
  // `#parse` with user-defined categories

  lemma UserEntitiesFacts()
    ensures AllTokens(["Banana"]) && AllTokens(["Harry", "Potter"])
    ensures AttributeValue(BananaAttrs, CategoryAttribute) == Some("FRUTA")
    ensures AttributeValue(PotterAttrs, CategoryAttribute) == Some("LIVRO")
  {
  }

  lemma ParseUserEntities(p: Parser)
    requires p.punctuation == DefaultPunctuation
    requires ExtractCategory(p, "FRUTA") == Some("fruit") && ExtractCategory(p, "LIVRO") == Some("book")
    requires ExtractCategory(p, "ORGANIZACAO") == None
    ensures Parse(p, UserEntities)
              == Tag(["A", "imprensa", "inventada", "na"], None) + (Tag(["Banana"], Some("fruit")) + Tag(["por"], None))
                 + (Tag(["Harry", "Potter"], Some("book")) + (Tag(["Inquisição"], None) + Tag(["e", "a", "censura"], None)))
  {
    UserEntitiesFacts();
    ParseEntitiesParagraph(p, BananaAttrs, ["Banana"], "FRUTA", Some("fruit"),
                           PotterAttrs, ["Harry", "Potter"], "LIVRO", Some("book"), None);
  }

  lemma UserEntitiesTokens()
    ensures Tag(["A", "imprensa", "inventada", "na"], None) + (Tag(["Banana"], Some("fruit")) + Tag(["por"], None))
              + (Tag(["Harry", "Potter"], Some("book")) + (Tag(["Inquisição"], None) + Tag(["e", "a", "censura"], None)))
            == [Token("A", None), Token("imprensa", None), Token("inventada", None), Token("na", None),
                Token("Banana", Some("fruit")), Token("por", None),
                Token("Harry", Some("book")), Token("Potter", Some("book")),
                Token("Inquisição", None),
                Token("e", None), Token("a", None), Token("censura", None)]
  {
  }

  lemma UserCategories()
    ensures ExtractCategory(New(Some(UserTable)), "FRUTA") == Some("fruit")
    ensures ExtractCategory(New(Some(UserTable)), "LIVRO") == Some("book")
    ensures ExtractCategory(New(Some(UserTable)), "ORGANIZACAO") == None
  {
    CategoryFruta();
    CategoryLivro();
    CategoryUserOrganizacao();
  }

  /** "user-defined categories": the user's table replaces the default one,
      so `ORGANIZACAO` is no longer recognised. */
  lemma UserEntitiesExample()
    ensures Parse(New(Some(UserTable)), UserEntities)
              == [Token("A", None), Token("imprensa", None), Token("inventada", None), Token("na", None),
                  Token("Banana", Some("fruit")), Token("por", None),
                  Token("Harry", Some("book")), Token("Potter", Some("book")),
                  Token("Inquisição", None),
                  Token("e", None), Token("a", None), Token("censura", None)]
  {
    UserCategories();
    ParseUserEntities(New(Some(UserTable)));
    UserEntitiesTokens();
  }

  // ---------------------------------------------------------------------
  // `#extract_category`

  lemma ExtractEmptyExample()
    ensures ExtractCategory(New(None), "") == None
  {
  }

  lemma ExtractOneExample()
    ensures ExtractCategory(New(None), "PESSOA") == Some("person")
  {
    CategoryPessoa();
  }

  /** "two categories": the unknown `OUTRA` is skipped. */
  lemma ExtractTwoExample()
    ensures ExtractCategory(New(None), "OUTRA|ORGANIZACAO") == Some("organization")
  {
    calc {
      ExtractCategory(New(None), "OUTRA|ORGANIZACAO");
    == { assert "OUTRA|ORGANIZACAO" == "OUTRA" + [Bar] + "ORGANIZACAO"; }
      Resolve("OUTRA" + [Bar] + "ORGANIZACAO", DefaultTable);
    == { ResolveSkipsUnknown("OUTRA", "ORGANIZACAO", DefaultTable); }
      Resolve("ORGANIZACAO", DefaultTable);
    == { ResolveOne("ORGANIZACAO", DefaultTable); }
      Some("organization");
    }
  }

  /** "ambiguidade": both codes are known and the leftmost wins. */
  lemma ExtractAmbiguousExample()
    ensures ExtractCategory(New(None), "PESSOA|ORGANIZACAO") == Some("person")
  {
    calc {
      ExtractCategory(New(None), "PESSOA|ORGANIZACAO");
    == { assert "PESSOA|ORGANIZACAO" == "PESSOA" + [Bar] + "ORGANIZACAO"; }
      Resolve("PESSOA" + [Bar] + "ORGANIZACAO", DefaultTable);
    == { ResolveLeftmostWins("PESSOA", "ORGANIZACAO", DefaultTable); }
      Some("person");
    }
  }
}
