/** The category resolver (`Lampada#extract_category`): a raw `CATEG` value,
    one or more codes separated by `|`, becomes the label of the leftmost
    code that the active table knows, or no category at all. */
module Categories {
  import opened Wrappers

  /** A raw corpus code such as `"PESSOA"`. */
  type Code = string

  /** A canonical label such as `"person"` (a Ruby symbol). */
  type Label = string

  /** The lookup table from codes to labels. */
  type Table = map<Code, Label>

  const Bar: char := '|'

  /** The table a parser uses when it is built without one. */
  const DefaultTable: Table := map["PESSOA" := "person", "LOCAL" := "location", "ORGANIZACAO" := "organization"]

  /** A table given at construction replaces the default one outright; the
      two are never merged. */
  function ActiveTable(user: Option<Table>): Table {
    match user
    case Some(u) => u
    case None => DefaultTable
  }

  /** The `|`-separated fields of `s`, left to right; every separator
      counts, so there is always at least one field. */
  function SplitCodes(s: string): (codes: seq<Code>)
    ensures |codes| >= 1
    ensures forall i :: 0 <= i < |codes| ==> Bar !in codes[i]
  {
    if s == [] then [[]]
    else
      var rest := SplitCodes(s[1..]);
      if s[0] == Bar then [[]] + rest else [[s[0]] + rest[0]] + rest[1..]
  }

  /** The codes written back with `|` between them: the inverse of
      `SplitCodes`. */
  function JoinCodes(codes: seq<Code>): string {
    if codes == [] then []
    else if |codes| == 1 then codes[0]
    else codes[0] + [Bar] + JoinCodes(codes[1..])
  }

  /** The label of the leftmost code that the table knows, or `None` when it
      knows none of them. */
  function FirstKnown(codes: seq<Code>, table: Table): (r: Option<Label>)
    ensures r == None <==> forall i :: 0 <= i < |codes| ==> codes[i] !in table
    ensures forall i :: 0 <= i < |codes| && codes[i] in table && (forall j :: 0 <= j < i ==> codes[j] !in table)
              ==> r == Some(table[codes[i]])
    ensures r.Some? ==> r.value in table.Values
  {
    if codes == [] then None
    else if codes[0] in table then
      assert table[codes[0]] in table.Values;
      Some(table[codes[0]])
    else FirstKnown(codes[1..], table)
  }

  /** `extract_category`: an empty value has no category; otherwise the
      leftmost of its codes that the table knows decides. */
  function Resolve(raw: string, table: Table): (r: Option<Label>)
    ensures raw == [] ==> r == None
    ensures r.Some? ==> r.value in table.Values
  {
    if raw == [] then None else FirstKnown(SplitCodes(raw), table)
  }

  // ---------------------------------------------------------------------
  // Splitting on `|`

  lemma JoinCodesCons(c: Code, codes: seq<Code>)
    requires codes != []
    ensures JoinCodes([c] + codes) == c + [Bar] + JoinCodes(codes)
  {
    assert ([c] + codes)[1..] == codes;
  }

  /** Joining the fields of `s` gives `s` back. */
  lemma {:induction false} JoinSplitCodes(s: string)
    ensures JoinCodes(SplitCodes(s)) == s
  {
    if s != [] {
      JoinSplitCodes(s[1..]);
      var rest := SplitCodes(s[1..]);
      if s[0] == Bar {
        JoinCodesCons([], rest);
        assert s == [s[0]] + s[1..];
      } else if |rest| == 1 {
        assert s == [s[0]] + rest[0];
      } else {
        JoinCodesCons([s[0]] + rest[0], rest[1..]);
        JoinCodesCons(rest[0], rest[1..]);
        assert rest == [rest[0]] + rest[1..];
        assert s == [s[0]] + s[1..];
      }
    }
  }

  /** A code without `|` is one field. */
  lemma {:induction false} SplitCode(c: Code)
    requires Bar !in c
    ensures SplitCodes(c) == [c]
  {
    if c != [] {
      SplitCode(c[1..]);
      assert c == [c[0]] + c[1..];
    }
  }

  /** The field that ends at the first `|` is split off first. */
  lemma {:induction false} SplitCodesBar(c: Code, rest: string)
    requires Bar !in c
    ensures SplitCodes(c + [Bar] + rest) == [c] + SplitCodes(rest)
  {
    if c == [] {
      assert c + [Bar] + rest == [Bar] + rest;
      assert ([Bar] + rest)[1..] == rest;
    } else {
      assert (c + [Bar] + rest)[1..] == c[1..] + [Bar] + rest;
      SplitCodesBar(c[1..], rest);
      assert [c[0]] + c[1..] == c;
    }
  }

  /** Fields free of `|` joined by `|` split back into the same fields. */
  lemma {:induction false} SplitJoinCodes(codes: seq<Code>)
    requires |codes| >= 1
    requires forall i :: 0 <= i < |codes| ==> Bar !in codes[i]
    ensures SplitCodes(JoinCodes(codes)) == codes
  {
    if |codes| == 1 {
      SplitCode(codes[0]);
    } else {
      SplitJoinCodes(codes[1..]);
      SplitCodesBar(codes[0], JoinCodes(codes[1..]));
      assert codes == [codes[0]] + codes[1..];
    }
  }

  // ---------------------------------------------------------------------
  // Resolution laws

  /** A single code resolves to its own entry, or to nothing when the table
      lacks it. */
  lemma ResolveOne(c: Code, table: Table)
    requires c != [] && Bar !in c
    ensures Resolve(c, table) == if c in table then Some(table[c]) else None
  {
    SplitCode(c);
  }

  /** Priority law: when the leftmost code is known it wins, whatever
      follows it and whatever the table says about the rest. */
  lemma ResolveLeftmostWins(c: Code, rest: string, table: Table)
    requires Bar !in c && c in table
    ensures Resolve(c + [Bar] + rest, table) == Some(table[c])
  {
    SplitCodesBar(c, rest);
  }

  /** An unknown leftmost code is skipped and the rest decides. */
  lemma ResolveSkipsUnknown(c: Code, rest: string, table: Table)
    requires Bar !in c && c !in table && rest != []
    ensures Resolve(c + [Bar] + rest, table) == Resolve(rest, table)
  {
    SplitCodesBar(c, rest);
    assert ([c] + SplitCodes(rest))[1..] == SplitCodes(rest);
  }

}
