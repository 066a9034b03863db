# Lampada: the HAREM corpus parser, modelled in Dafny

`CorpusProcessor::Parsers::Lampada` reads a HAREM ("colHAREM") corpus, an
XML document in which the named entities of Portuguese text are marked
with `EM` elements whose `CATEG` attribute names one or more categories
separated by `|`. It produces the ordered list of the corpus' words as
`CorpusProcessor::Token`s. Each token is a word plus its category. A word
inside an entity gets that entity's category, resolved through a table of
codes (`PESSOA`, `LOCAL`, `ORGANIZACAO` by default). Every other word has
no category.

The behaviour modelled is the one that `spec/unit/parsers/lampada_spec.rb`
pins down. The parser holds no state beyond the table it was built with,
so the model is a set of pure functions with the parser as an immutable
value:

- `wrappers.dfy` (`Wrappers`): the `Option` type, which stands for Ruby's `nil`.
- `categories.dfy` (`Categories`): `extract_category`.
  - A raw `CATEG` value is split on `|`.
  - The result is the label of the leftmost code that the active table knows.
  - If the table knows none of the codes, there is no category.
  - A table given to `Lampada.new` replaces the default table.
- `tokenizer.dfy` (`Tokenizer`): a text run becomes its words.
  - The run is split on whitespace.
  - The punctuation at both ends of each word is stripped.
  - Words left empty are dropped.
- `markup.dfy` (`Markup`): the corpus as a tree, and the document-order
  walk that turns it into segments.
  - Plain text becomes an untagged segment.
  - An `EM` becomes one segment carrying its raw `CATEG`.
  - Other elements are transparent.
- `lampada.dfy` (`Lampada`): `Token`, the parser value, `Lampada.new`,
  `extract_category`, `parse`, and the laws of parsing.
- `examples_lampada.dfy` (`LampadaExamples`): each example of the spec file
  as a markup tree, with a lemma stating the exact token list or
  category that the example expects.

## Model

| member | source | states |
|---|---|---|
| Lampada.NewReplacesDefault | spec/unit/parsers/lampada_spec.rb:196-201 | a user table replaces the default table outright: a code that only the default table knows resolves to no category under the user's table |
| Lampada.ExtractCategory | spec/unit/parsers/lampada_spec.rb:242-268 | every label that `extract_category` returns is a value of the parser's own table |
| Categories.Resolve | spec/unit/parsers/lampada_spec.rb:245-249 | an empty `CATEG` has no category, and any label found comes from the table |
| Categories.FirstKnown | spec/unit/parsers/lampada_spec.rb:257-267 | no category exactly when no code is in the table; otherwise the label of the leftmost known code, whatever follows it |
| Categories.SplitCodes | spec/unit/parsers/lampada_spec.rb:258 | splitting on the bar yields at least one field, and no field contains a bar |
| Categories.JoinSplitCodes | spec/unit/parsers/lampada_spec.rb:258 | the fields of a `CATEG` value joined by bars give the value back |
| Categories.SplitJoinCodes | spec/unit/parsers/lampada_spec.rb:264 | codes free of bars, joined by bars, split back into the same codes |
| Categories.ResolveOne | spec/unit/parsers/lampada_spec.rb:251-255 | a single code resolves to its table entry, or to no category when the table lacks it |
| Categories.ResolveLeftmostWins | spec/unit/parsers/lampada_spec.rb:263-267 | a known leftmost code wins, whatever follows it |
| Categories.ResolveSkipsUnknown | spec/unit/parsers/lampada_spec.rb:257-261 | an unknown leftmost code is skipped and the remaining codes decide |
| Tokenizer.Tokenize | spec/unit/parsers/lampada_spec.rb:27-48 | every word emitted is non-empty, has no whitespace, and neither starts nor ends with punctuation |
| Tokenizer.SplitUnwords | spec/unit/parsers/lampada_spec.rb:34 | words joined by single spaces split back into the same words |
| Tokenizer.SplitAppend | spec/unit/parsers/lampada_spec.rb:109-110 | splitting distributes over a concatenation that does not glue two words together |
| Tokenizer.StripLeadingSpec | spec/unit/parsers/lampada_spec.rb:143 | leading-punctuation stripping keeps a suffix, drops only punctuation, and leaves no leading punctuation |
| Tokenizer.StripTrailingSpec | spec/unit/parsers/lampada_spec.rb:143 | trailing-punctuation stripping keeps a prefix, drops only punctuation, and leaves no trailing punctuation |
| Tokenizer.StripSpec | spec/unit/parsers/lampada_spec.rb:143 | a stripped word is no longer than the original, has no punctuation at either end and gains no whitespace |
| Tokenizer.StripAround | spec/unit/parsers/lampada_spec.rb:143 | stripping removes exactly the punctuation that surrounds a word's core (`imprensa,` becomes `imprensa`) |
| Tokenizer.StripPunctuationOnly | spec/unit/parsers/lampada_spec.rb:180 | a word made only of punctuation (a lone `.`) strips to nothing |
| Tokenizer.StripIdempotent | spec/unit/parsers/lampada_spec.rb:143 | stripping twice strips nothing more |
| Tokenizer.CleanWordsAppend | spec/unit/parsers/lampada_spec.rb:143 | cleaning is word by word: it distributes over concatenation |
| Tokenizer.CleanWordsKeepAll | spec/unit/parsers/lampada_spec.rb:143 | when no word strips to nothing, each word yields exactly its stripped form, in order |
| Tokenizer.TokenizeBlank | spec/unit/parsers/lampada_spec.rb:10-25 | whitespace-only text has no words |
| Tokenizer.TokenizeAppend | spec/unit/parsers/lampada_spec.rb:109-110 | tokenizing distributes over a concatenation that does not glue two words together |
| Tokenizer.TokenizeWord | spec/unit/parsers/lampada_spec.rb:180 | a single candidate word yields its stripped form, or nothing when only punctuation was left |
| Tokenizer.TokenizePadded | spec/unit/parsers/lampada_spec.rb:142-148 | newlines and indentation around words only separate them |
| Tokenizer.TokenizeUnwords | spec/unit/parsers/lampada_spec.rb:27-48 | round trip: tokens joined by spaces tokenize back to the same tokens, in order, unchanged (accents included) |
| Tokenizer.CleanTokens | spec/unit/parsers/lampada_spec.rb:41-45 | words that are already tokens are left unchanged |
| Tokenizer.TokenizeIdempotent | spec/unit/parsers/lampada_spec.rb:27-48 | tokenizing the spaced-out tokens of a text gives the same tokens |
| Markup.AttributeValue | spec/unit/parsers/lampada_spec.rb:110 | no value exactly when no attribute has the name; otherwise the value of the first attribute with that name |
| Markup.SegmentsAppend | spec/unit/parsers/lampada_spec.rb:50-77 | the walk is in document order: the segments of two node lists side by side are those of each, in turn |
| Markup.SegmentsKeepText | spec/unit/parsers/lampada_spec.rb:172-192 | the walk neither loses nor invents text: its segments together are all the text of the markup, including text outside any `P` |
| Markup.NoEntitiesUntagged | spec/unit/parsers/lampada_spec.rb:27-48 | outside entity elements every segment is untagged |
| Markup.BareSegments | spec/unit/parsers/lampada_spec.rb:144-147 | removing every attribute except an entity's `CATEG` does not change the segments |
| Lampada.TagWords | spec/unit/parsers/lampada_spec.rb:162-163 | tagging gives one token per word, in order, each with the same category |
| Lampada.TagAppend | spec/unit/parsers/lampada_spec.rb:162-163 | tagging two word lists in turn is tagging their concatenation |
| Lampada.ParseTokens | spec/unit/parsers/lampada_spec.rb:7 | every token parsed is a real word, and every category it carries comes from the parser's table |
| Lampada.ParseAppend | spec/unit/parsers/lampada_spec.rb:50-77 | document order with no deduplication: parsing two pieces of markup side by side gives the first one's tokens followed by the second one's |
| Lampada.ParseCons | spec/unit/parsers/lampada_spec.rb:57-58 | one node's tokens come before those of the nodes after it |
| Lampada.ParseStructure | spec/unit/parsers/lampada_spec.rb:178-180 | `colHAREM`, `DOC` and `P` are transparent, so text directly under `DOC` is parsed too |
| Lampada.ParseEntity | spec/unit/parsers/lampada_spec.rb:146 | an entity yields its words, in order, every one carrying the entity's resolved category |
| Lampada.ParseText | spec/unit/parsers/lampada_spec.rb:27-48 | plain text yields its words, left to right, none with a category |
| Lampada.ParseUnknownEntity | spec/unit/parsers/lampada_spec.rb:86 | an entity none of whose codes the table knows is no error: its words come out as if it were plain text |
| Lampada.ParseWithoutEntities | spec/unit/parsers/lampada_spec.rb:27-48 | markup without entities yields only untagged tokens |
| Lampada.ParseWords | spec/unit/parsers/lampada_spec.rb:223-236 | the words parsed are the words of the segments, one segment after the other |
| Lampada.ParseWordsIgnoreTable | spec/unit/parsers/lampada_spec.rb:195-238 | the category table changes categories only, never the words |
| Lampada.ParseBlank | spec/unit/parsers/lampada_spec.rb:10-25 | markup whose text is all whitespace yields no tokens |
| Lampada.ParseIgnoresMetadata | spec/unit/parsers/lampada_spec.rb:144-147 | attributes other than an entity's `CATEG` never produce tokens or change a category |
| LampadaExamples.EmptyCorpusExample | spec/unit/parsers/lampada_spec.rb:10-25 | the empty corpus, and a corpus holding only the XML declaration and the DOCTYPE, give no tokens |
| LampadaExamples.SimplePhraseExample | spec/unit/parsers/lampada_spec.rb:27-48 | "simple phrase" gives its five words, untagged, accents kept |
| LampadaExamples.TwoSimplePhrasesExample | spec/unit/parsers/lampada_spec.rb:50-77 | "two simple phrases" gives the ten tokens that the example lists |
| LampadaExamples.TwoSimplePhrasesRepeat | spec/unit/parsers/lampada_spec.rb:50-77 | two equal paragraphs give the one-paragraph result twice, with no deduplication |
| LampadaExamples.UselessEntityExample | spec/unit/parsers/lampada_spec.rb:79-100 | "useless entity": `OUTRO` is unknown, so `Idade Média` stays untagged |
| LampadaExamples.OneEntityExample | spec/unit/parsers/lampada_spec.rb:102-133 | "one entity": only `Portugal` is tagged, as location |
| LampadaExamples.MultipleEntitiesExample | spec/unit/parsers/lampada_spec.rb:135-170 | "multiple entities": each entity's words carry its category, in order, and `imprensa,` loses its comma |
| LampadaExamples.SpacesAfterPunctuationExample | spec/unit/parsers/lampada_spec.rb:172-192 | "spaces after ponctuation": `ABSTRACCAO` then `ACONTECIMENTO` is unknown, the lone `.` is dropped, and `No` under `DOC` is kept |
| LampadaExamples.UserEntitiesExample | spec/unit/parsers/lampada_spec.rb:195-238 | a user table tags `Banana` as fruit and `Harry Potter` as book, and no longer recognises `ORGANIZACAO` |
| LampadaExamples.CategoryAbstraccao | spec/unit/parsers/lampada_spec.rb:179 | `ABSTRACCAO` then `ACONTECIMENTO` resolves to no category under the default table |
| LampadaExamples.ExtractEmptyExample | spec/unit/parsers/lampada_spec.rb:245-249 | `""` has no category |
| LampadaExamples.ExtractOneExample | spec/unit/parsers/lampada_spec.rb:251-255 | `PESSOA` is person |
| LampadaExamples.ExtractTwoExample | spec/unit/parsers/lampada_spec.rb:257-261 | `OUTRA` then `ORGANIZACAO` is organization: the unknown `OUTRA` is skipped |
| LampadaExamples.ExtractAmbiguousExample | spec/unit/parsers/lampada_spec.rb:263-267 | `PESSOA` then `ORGANIZACAO` is person: the leftmost known code wins |

## Left out

- `lib/corpus-processor/processor.rb` (`Processor#process`, lines 1-11) only hands the parser's output to a generator. The default parser and the generator it names are not part of this model.
- The implementation file of `Lampada` is not part of this model. The model is built from the behaviour its examples fix.
- Reading the corpus from a string is not modelled. The corpus is given as its markup tree, with the XML declaration and DOCTYPE as nodes that yield nothing. Malformed or unterminated markup therefore has no model; no example exercises it.
- The `ISO-8859-1` encoding is not modelled. Text is a sequence of characters.
- File I/O, the command line, and the output format of the StanfordNer generator are not modelled.
- Categories.FirstKnown: the leftmost code of the input wins. The examples cannot tell this from "the first code in table order wins" (`PESSOA|ORGANIZACAO` gives person either way). Leftmost-in-input is the modelled choice.
- Tokenizer.Tokenize: the punctuation stripped is a parameter of the parser. It defaults to `,` and `.`, the only characters the examples show being stripped; what other characters the real parser strips is not modelled.
- Lampada.Parse tokenizes each segment on its own. A word split across the boundary of an entity element, as in `ab<EM>cd</EM>`, therefore gives two tokens; no example fixes this case.
- Ruby symbols are modelled as strings (`:person` is `"person"`).
