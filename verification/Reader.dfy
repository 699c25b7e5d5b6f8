/** Tokens, and reading quoted data out of them. */
module Reader {
  import opened Options
  import opened Bytecode

  /** What the lexer delivers; the end of the input is delivered again and again. */
  datatype Token =
    | ATOM(name: string)
    | NUMBER(n: int)
    | STRING(s: string)
    | NIL
    | TRUE
    | LBRACE
    | RBRACE
    | QUOTE
    | EOF

  function Peek(toks: seq<Token>): Token {
    if toks == [] then EOF else toks[0]
  }

  function Advance(toks: seq<Token>): (r: seq<Token>)
    ensures |r| <= |toks|
    ensures toks != [] ==> |r| == |toks| - 1
  {
    if toks == [] then [] else toks[1..]
  }

  /** A value or none, what is left of the input, and whether a NULL was dereferenced on the way. */
  datatype Parsed = Parsed(value: Option<Value>, rest: seq<Token>, fault: bool)

  datatype ParsedItems = ParsedItems(items: seq<Value>, rest: seq<Token>, fault: bool)

  /** Reads the value that begins with token `tok`, which is already taken from the input. */
  function ParseToken(tok: Token, toks: seq<Token>): (r: Parsed)
    ensures |r.rest| <= |toks|
    decreases |toks|, 2
  {
    match tok
    case EOF => Parsed(None, toks, false)
    case RBRACE => Parsed(None, toks, false)
    case ATOM(x) => Parsed(Some(Sym(x)), toks, false)
    case NUMBER(n) => Parsed(Some(Num(n)), toks, false)
    case STRING(s) => Parsed(Some(Str(s)), toks, false)
    case NIL => Parsed(Some(Nil), toks, false)
    case TRUE => Parsed(Some(True), toks, false)
    case LBRACE =>
      var l := ParseItems(toks);
      Parsed(Some(List(l.items)), l.rest, l.fault)
    case QUOTE => Parsed(None, [], true)
  }

  /** A quote, if there is one, and a value. */
  function ParseValue(toks: seq<Token>): (r: Parsed)
    ensures |r.rest| <= |toks|
    ensures toks != [] ==> |r.rest| < |toks|
    ensures toks == [] ==> r.value.None?
    decreases |toks|, 0
  {
    var rest := Advance(toks);
    if toks == [] then Parsed(None, [], false)
    else if toks[0] == QUOTE then
      if rest == [] then Parsed(None, [], false) else ParseToken(Peek(rest), Advance(rest))
    else ParseToken(toks[0], rest)
  }

  /** Reads values until there is none: a closing brace or the end of the input. */
  function ParseItems(toks: seq<Token>): (r: ParsedItems)
    ensures |r.rest| <= |toks|
    decreases |toks|, 1
  {
    var v := ParseValue(toks);
    if v.fault then ParsedItems([], [], true)
    else if v.value.None? then ParsedItems([], v.rest, false)
    else
      var l := ParseItems(v.rest);
      ParsedItems([v.value.value] + l.items, l.rest, l.fault)
  }

  // ----- data, as written -----

  /** A datum as it is written after a quote or inside a quoted list. */
  datatype Datum =
    | DAtom(name: string)
    | DNum(n: int)
    | DStr(s: string)
    | DNil
    | DTrue
    | DList(items: Data)

  /** The items of a list; each may carry a quote of its own, which makes no difference to its value. */
  datatype Data = DEnd | DCons(quoted: bool, head: Datum, tail: Data)

  function Spell(d: Datum): (r: seq<Token>)
    ensures r != [] && r[0] != QUOTE && r[0] != RBRACE && r[0] != EOF
  {
    match d
    case DAtom(x) => [ATOM(x)]
    case DNum(n) => [NUMBER(n)]
    case DStr(s) => [STRING(s)]
    case DNil => [NIL]
    case DTrue => [TRUE]
    case DList(ds) => [LBRACE] + SpellAll(ds)
  }

  /** The items and the closing brace. */
  function SpellAll(ds: Data): (r: seq<Token>)
    ensures r != []
  {
    match ds
    case DEnd => [RBRACE]
    case DCons(q, d, rest) => (if q then [QUOTE] else []) + Spell(d) + SpellAll(rest)
  }

  function Denotes(d: Datum): Value {
    match d
    case DAtom(x) => Sym(x)
    case DNum(n) => Num(n)
    case DStr(s) => Str(s)
    case DNil => Nil
    case DTrue => True
    case DList(ds) => List(DenotesAll(ds))
  }

  function DenotesAll(ds: Data): seq<Value> {
    match ds
    case DEnd => []
    case DCons(_, d, rest) => [Denotes(d)] + DenotesAll(rest)
  }

  /** Reading what spells a datum gives the datum and takes exactly its tokens. */
  lemma {:induction false} ReadsDatum(d: Datum, rest: seq<Token>)
    ensures ParseToken(Spell(d)[0], Spell(d)[1..] + rest) == Parsed(Some(Denotes(d)), rest, false)
    decreases d, 1
  {
    match d
    case DList(ds) =>
      ReadsData(ds, rest);
      assert Spell(d)[1..] == SpellAll(ds);
    case _ => assert Spell(d)[1..] + rest == rest;
  }

  lemma {:induction false} ReadsData(ds: Data, rest: seq<Token>)
    ensures ParseItems(SpellAll(ds) + rest) == ParsedItems(DenotesAll(ds), rest, false)
    decreases ds, 0
  {
    var toks := SpellAll(ds) + rest;
    match ds
    case DEnd =>
      assert toks == [RBRACE] + rest && toks[1..] == rest;
      assert ParseValue(toks) == Parsed(None, rest, false);
    case DCons(q, d, tail) =>
      ReadsItem(q, d, SpellAll(tail) + rest);
      assert toks == (if q then [QUOTE] else []) + Spell(d) + (SpellAll(tail) + rest);
      ReadsData(tail, rest);
  }

  lemma {:induction false} ReadsItem(quoted: bool, d: Datum, rest: seq<Token>)
    ensures ParseValue((if quoted then [QUOTE] else []) + Spell(d) + rest) == Parsed(Some(Denotes(d)), rest, false)
    decreases d, 2
  {
    ReadsDatum(d, rest);
    var toks := Spell(d) + rest;
    assert toks[0] == Spell(d)[0] && toks[1..] == Spell(d)[1..] + rest;
    if quoted {
      assert [QUOTE] + Spell(d) + rest == [QUOTE] + toks;
      assert ([QUOTE] + toks)[1..] == toks;
    } else {
      assert [] + Spell(d) + rest == toks;
    }
  }
}
