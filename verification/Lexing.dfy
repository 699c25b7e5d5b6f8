/** From text to tokens: the tokens of a text with the words that come with them, and the texts of a token sequence. */
module Lexing {
  import opened Options
  import opened KeyOrder
  import opened DataText
  import R = Reader
  import B = Bytecode

  /** What the characters of a number are worth. */
  type Worth = string -> int

  /** A token together with the word in the buffer. */
  function WithWord(tok: Token, word: string, num: Worth): R.Token {
    match tok
    case EOF => R.EOF
    case NIL => R.NIL
    case TRUE => R.TRUE
    case ATOM => R.ATOM(word)
    case NUMBER => R.NUMBER(num(word))
    case STRING => R.STRING(word)
    case LBRACE => R.LBRACE
    case RBRACE => R.RBRACE
    case QUOTE => R.QUOTE
  }

  function TokenOf(l: Lexed, num: Worth): R.Token {
    WithWord(l.tok, l.dev.buffer, num)
  }

  /** Whoever takes the word of a token clears the buffer. */
  function Taken(l: Lexed): Device {
    if l.tok in {ATOM, NUMBER, STRING} then l.dev.(buffer := "") else l.dev
  }

  /** All tokens up to the end of the text. */
  function Tokens(d: Device, num: Worth): seq<R.Token>
    decreases |d.text| - d.pos
  {
    var l := Lex(d, "");
    if l.tok == EOF then [] else [TokenOf(l, num)] + Tokens(Taken(l), num)
  }

  // ----- reading from the text is reading from its tokens -----

  function ValueOf(v: Value, num: Worth): B.Value {
    match v
    case Nil => B.Nil
    case True => B.True
    case Num(digits) => B.Num(num(digits))
    case Str(s) => B.Str(s)
    case Sym(name, _) => B.Sym(name)
    case List(items, _) => B.List(ValuesOf(items, num))
  }

  function ValuesOf(items: Items, num: Worth): seq<B.Value> {
    match items
    case Empty => []
    case Item(v, rest) => [ValueOf(v, num)] + ValuesOf(rest, num)
  }

  /** Neither the end of a string nor that of a file is in the middle of the text. */
  predicate EndsOnce(text: string) {
    forall i :: 0 <= i < |text| ==> text[i] != NUL && text[i] as int != 255
  }

  lemma {:induction false} CommentToTheEnd(d: Device)
    requires EndsOnce(d.text) && !CommentEnds(d)
    ensures SkipComment(d).pos >= |d.text|
    decreases |d.text| - d.pos
  {
    if !AtEof(Getc(d)) {
      CommentToTheEnd(Getc(d));
    }
  }

  lemma {:induction false} EofIsTheEnd(d: Device, op: string)
    requires |op| <= 1 && EndsOnce(d.text) && Lex(d, op).tok == EOF
    ensures Lex(d, op).dev.pos >= |d.text|
    decreases |d.text| - d.pos
  {
    hide LexWord, CopyNumber, CopyString;
    var c, d1 := Peek(d), Getc(d);
    if c == NUL {
    } else if c == '#' && d1.count == 1 {
      var d2 := SkipLine(d1);
      EofIsTheEnd(if LineEnds(d1) then d2.(count := 0) else d2, op);
    } else if c == '\n' {
      EofIsTheEnd(d1.(count := 0), op);
    } else if c == '+' || c == '-' {
      EofIsTheEnd(d1, [c]);
    } else if c == ';' {
      if CommentEnds(d1) { EofIsTheEnd(SkipComment(d1), op); } else { CommentToTheEnd(d1); }
    } else {
      EofIsTheEnd(d1, op);
    }
  }

  lemma PastTheEnd(d: Device)
    requires d.pos >= |d.text|
    ensures Lex(d, "") == Lexed(EOF, Getc(d)) && ParseValue(d).value.None?
  {
  }

  lemma NothingAtTheEnd(d: Device, num: Worth)
    requires EndsOnce(d.text) && Lex(d, "").tok == EOF
    ensures Tokens(d, num) == [] && Tokens(Lex(d, "").dev.(buffer := ""), num) == []
  {
    hide Lex;
    EofIsTheEnd(d, "");
    PastTheEnd(Lex(d, "").dev.(buffer := ""));
  }

  function Rest(d: Device): nat {
    if d.pos < |d.text| then |d.text| - d.pos else 0
  }

  lemma FirstToken(d: Device, num: Worth)
    requires Lex(d, "").tok != EOF
    ensures var l := Lex(d, "");
      Tokens(d, num) == [TokenOf(l, num)] + Tokens(Taken(l), num) && TokenOf(l, num) != R.EOF
      && (TokenOf(l, num) == R.QUOTE <==> l.tok == QUOTE)
  {
    hide Lex;
  }

  /** The value read from the tokens is the one read from the text, and reading stopped at the same place. */
  predicate Alike(r: Parsed, q: R.Parsed, num: Worth) {
    q.fault == r.fault
    && (!r.fault ==>
      q.value == (if r.value.None? then None else Some(ValueOf(r.value.value, num))) && q.rest == Tokens(r.dev, num))
  }

  predicate ItemsAlike(r: ParsedItems, q: R.ParsedItems, num: Worth) {
    q.fault == r.fault && (!r.fault ==> q.items == ValuesOf(r.items, num) && q.rest == Tokens(r.dev, num))
  }

  lemma {:induction false} TokenAlike(l: Lexed, quoted: bool, num: Worth)
    requires EndsOnce(l.dev.text) && l.tok != EOF
    ensures Alike(ParseToken(l.tok, quoted, l.dev), R.ParseToken(TokenOf(l, num), Tokens(Taken(l), num)), num)
    decreases Rest(l.dev), 2
  {
    hide Tokens, ParseItems, R.ParseItems;
    if l.tok == LBRACE {
      ItemsReadAlike(l.dev, num);
    }
  }

  /** The reader on the text and the reader on its tokens come to the same. */
  lemma {:induction false} ReadsAlike(d: Device, num: Worth)
    requires EndsOnce(d.text)
    ensures Alike(ParseValue(d), R.ParseValue(Tokens(d, num)), num)
    decreases Rest(d), 0
  {
    hide Tokens, ParseToken, R.ParseToken, Lex;
    var l := Lex(d, "");
    if d.pos >= |d.text| { PastTheEnd(d); }
    if l.tok == EOF {
      NothingAtTheEnd(d, num);
    } else {
      FirstToken(d, num);
      if l.tok == QUOTE {
        var l2 := Lex(l.dev, "");
        if l2.tok == EOF {
          NothingAtTheEnd(l.dev, num);
        } else {
          FirstToken(l.dev, num);
          TokenAlike(l2, true, num);
        }
      } else {
        TokenAlike(l, false, num);
      }
    }
  }

  lemma {:induction false} ItemsReadAlike(d: Device, num: Worth)
    requires EndsOnce(d.text)
    ensures ItemsAlike(ParseItems(d), R.ParseItems(Tokens(d, num)), num)
    decreases Rest(d), 1
  {
    hide Tokens, ParseValue, R.ParseValue;
    ReadsAlike(d, num);
    if d.pos >= |d.text| { PastTheEnd(d); }
    var v := ParseValue(d);
    if !v.fault && v.value.Some? {
      ItemsReadAlike(v.dev, num);
    }
  }

  // ----- the texts of a token sequence -----

  /** A token as it is written. */
  datatype Lexeme =
    | LWord(name: string)
    | LSign(sign: char)
    | LTwice(sign: char)
    | LNumber(prefix: string, digits: string)
    | LString(pieces: seq<Piece>)
    | LUnit
    | LOpen
    | LClose
    | LQuote
    | LColon

  function Written(x: Lexeme): string {
    match x
    case LWord(name) => name
    case LSign(c) => [c]
    case LTwice(c) => [c, c]
    case LNumber(prefix, digits) => prefix + digits
    case LString(ps) => "\"" + StringText(ps) + "\""
    case LUnit => "()"
    case LOpen => "("
    case LClose => ")"
    case LQuote => "'"
    case LColon => ":"
  }

  /** The empty list and the empty string are NIL, and a colon is a quote. */
  function Meant(x: Lexeme, num: Worth): R.Token {
    match x
    case LWord(name) =>
      if StrCaseCmp(name, "NIL") == 0 then R.NIL
      else if StrCaseCmp(name, "T") == 0 then R.TRUE
      else R.ATOM(Fold(name))
    case LSign(c) => R.ATOM([c])
    case LTwice(c) => R.ATOM([c, c])
    case LNumber(prefix, digits) => R.NUMBER(num(prefix + digits))
    case LString(ps) => if ps == [] then R.NIL else R.STRING(StringMeans(ps))
    case LUnit => R.NIL
    case LOpen => R.LBRACE
    case LClose => R.RBRACE
    case LQuote => R.QUOTE
    case LColon => R.QUOTE
  }

  predicate IsSign(c: char) { c == '+' || c == '-' }

  predicate Plain(x: Lexeme) {
    match x
    case LWord(name) =>
      name != "" && (StartsWord(name[0]) || (|name| > 1 && IsSign(name[0]) && StartsWord(name[1])))
      && forall i :: 0 <= i < |name| ==> !EndsAtom(name[i]) && name[i] != NUL
    case LSign(c) => IsSign(c)
    case LTwice(c) => IsSign(c)
    case LNumber(prefix, digits) =>
      (prefix == "" || (|prefix| == 1 && IsSign(prefix[0])))
      && digits != "" && IsDigit(digits[0]) && forall i :: 0 <= i < |digits| ==> InNumber(digits[i])
    case LString(ps) => ArePieces(ps)
    case _ => true
  }

  /** Spaces, newlines and comments. */
  predicate Gap(s: string)
    decreases |s|
  {
    s == "" || ((s[0] == ' ' || s[0] == '\n') && Gap(s[1..])) || (s[0] == ';' && Remark(s[1..]))
  }

  /** The rest of a comment, and a gap after it. */
  predicate Remark(s: string)
    decreases |s|
  {
    s != "" && s[0] != NUL && if s[0] == '\n' then Gap(s[1..]) else Remark(s[1..])
  }

  /** There is a space in the gap, comments aside. */
  predicate HasSpace(s: string)
    decreases |s|
  {
    s != "" && (s[0] == ' ' || (s[0] == '\n' && HasSpace(s[1..])) || (s[0] == ';' && SpaceAfterRemark(s[1..])))
  }

  predicate SpaceAfterRemark(s: string)
    decreases |s|
  {
    s != "" && if s[0] == '\n' then HasSpace(s[1..]) else SpaceAfterRemark(s[1..])
  }

  /** What may follow a token; a sign is an atom of its own if the gap has a space or a closing bracket follows. */
  predicate MayPrecede(x: Lexeme, gap: string, rest: string) {
    var after := gap + rest;
    match x
    case LWord(_) => after == "" || EndsAtom(after[0])
    case LSign(_) => HasSpace(gap) || (rest != "" && rest[0] == ')')
    case LNumber(_, _) => after == "" || !InNumber(after[0])
    case LOpen => after == "" || after[0] != ')'
    case _ => true
  }

  /** The tokens one after the other, with a gap after each. */
  function Spelled(xs: seq<Lexeme>, gaps: seq<string>): string
    requires |gaps| == |xs|
  {
    if xs == [] then "" else Written(xs[0]) + (gaps[0] + Spelled(xs[1..], gaps[1..]))
  }

  predicate Proper(xs: seq<Lexeme>, gaps: seq<string>)
    requires |gaps| == |xs|
  {
    xs == []
    || (Plain(xs[0]) && Gap(gaps[0]) && MayPrecede(xs[0], gaps[0], Spelled(xs[1..], gaps[1..]))
        && Proper(xs[1..], gaps[1..]))
  }

  function AllMeant(xs: seq<Lexeme>, num: Worth): seq<R.Token> {
    if xs == [] then [] else [Meant(xs[0], num)] + AllMeant(xs[1..], num)
  }

  lemma {:induction false} CopiesNumber(d: Device, digits: string, after: string)
    requires Ahead(d, digits + after) && d.pos + |digits + after| == |d.text|
    requires forall i :: 0 <= i < |digits| ==> InNumber(digits[i])
    requires digits != "" && (after == "" || !InNumber(after[0]))
    ensures CopyNumber(d).chars == digits && CopyNumber(d).dev == Past(d, |digits|)
    decreases |digits|
  {
    var all := digits + after;
    AheadOne(d, all);
    assert all[1..] == digits[1..] + after;
    if |digits| > 1 {
      CopiesNumber(Getc(d), digits[1..], after);
      AheadOne(Getc(d), digits[1..] + after);
      assert [digits[0]] + digits[1..] == digits;
    } else {
      assert digits == [digits[0]] && digits[1..] + after == after;
      if after != "" { AheadOne(Getc(d), after); }
    }
  }

  /** What the lexer finds at a token of the text: the token; a sign takes `k` characters of the gap with it. */
  predicate Finds(d: Device, x: Lexeme, gap: string, l: Lexed, num: Worth, k: nat) {
    TokenOf(l, num) == Meant(x, num) && l.tok != EOF && l.dev.text == d.text
    && l.dev.pos == d.pos + |Written(x)| + k && k <= |gap| && Gap(gap[k..])
  }

  /** A sign waits for what follows. */
  lemma SignWaits(d: Device)
    requires IsSign(Peek(d))
    ensures Lex(d, "") == Lex(Getc(d), [Peek(d)])
  {
  }

  /** A word that starts with a sign is read again from the sign on. */
  lemma SignedWord(d: Device)
    requires IsSign(Peek(d)) && StartsWord(Peek(Getc(d)))
    ensures Lex(d, "") == LexWord(d)
  {
    SignWaits(d);
  }

  lemma FindsWord(d: Device, name: string, gap: string, rest: string, num: Worth)
    requires Ahead(d, name + (gap + rest)) && d.pos + |name + (gap + rest)| == |d.text| && Gap(gap)
    requires Plain(LWord(name)) && MayPrecede(LWord(name), gap, rest)
    ensures Finds(d, LWord(name), gap, Lex(d, ""), num, 0)
  {
    hide Lex, StrCaseCmp, Fold, Gap;
    var after := gap + rest;
    AheadSplits(d, name, after);
    if after != "" { AheadOne(Past(d, |name|), after); }
    if StartsWord(name[0]) {
      LexesWord(d, name);
    } else {
      AheadOne(d, name);
      AheadOne(Getc(d), name[1..]);
      SignedWord(d);
      CopiesWord(d, name);
    }
  }

  lemma FindsSign(d: Device, c: char, gap: string, rest: string, num: Worth) returns (k: nat)
    requires Ahead(d, [c] + (gap + rest)) && d.pos + |[c] + (gap + rest)| == |d.text| && IsSign(c) && Gap(gap)
    requires MayPrecede(LSign(c), gap, rest)
    ensures Finds(d, LSign(c), gap, Lex(d, ""), num, k)
  {
    hide Lex;
    AheadSplits(d, [c], gap + rest);
    SignWaits(d);
    k := WaitsOver(Getc(d), [c], gap, rest);
  }

  lemma FindsTwice(d: Device, c: char, gap: string, rest: string, num: Worth)
    requires Ahead(d, [c, c] + (gap + rest)) && IsSign(c) && Gap(gap)
    ensures Finds(d, LTwice(c), gap, Lex(d, ""), num, 0)
  {
    AheadSplits(d, [c, c], gap + rest);
    AheadOne(d, [c, c]);
    AheadOne(Getc(d), [c]);
    SignWaits(d);
  }

  lemma FindsDigits(d: Device, op: string, digits: string, after: string)
    requires |op| <= 1 && Ahead(d, digits + after) && d.pos + |digits + after| == |d.text|
    requires Plain(LNumber("", digits)) && (after == "" || !InNumber(after[0]))
    ensures Lex(d, op) == Lexed(NUMBER, Past(d, |digits|).(buffer := op + digits))
  {
    CopiesNumber(d, digits, after);
    AheadOne(d, digits + after);
  }

  lemma FindsNumber(d: Device, prefix: string, digits: string, gap: string, rest: string, num: Worth)
    requires Ahead(d, prefix + digits + (gap + rest)) && d.pos + |prefix + digits + (gap + rest)| == |d.text|
    requires Plain(LNumber(prefix, digits)) && MayPrecede(LNumber(prefix, digits), gap, rest) && Gap(gap)
    ensures Finds(d, LNumber(prefix, digits), gap, Lex(d, ""), num, 0)
  {
    hide Lex, Gap, Ahead;
    var after := gap + rest;
    assert prefix + digits + after == prefix + (digits + after);
    AheadSplits(d, prefix, digits + after);
    FindsDigits(Past(d, |prefix|), prefix, digits, after);
    if prefix != "" {
      assert Past(d, |prefix|) == Getc(d) && prefix == [Peek(d)];
      SignWaits(d);
    }
  }

  lemma LexesClose(d: Device)
    requires Peek(d) == ')'
    ensures Lex(d, "") == Lexed(RBRACE, Getc(d))
  {
  }

  lemma FindsMark(d: Device, x: Lexeme, gap: string, rest: string, num: Worth)
    requires Ahead(d, Written(x) + (gap + rest)) && d.pos + |Written(x) + (gap + rest)| == |d.text|
    requires x in {LOpen, LClose, LQuote, LColon} && MayPrecede(x, gap, rest) && Gap(gap)
    ensures Finds(d, x, gap, Lex(d, ""), num, 0)
  {
    hide Lex, Gap;
    var after := gap + rest;
    AheadSplits(d, Written(x), after);
    if after != "" { AheadOne(Past(d, 1), after); }
    assert Past(d, 1) == Getc(d);
    if x == LOpen {
      LexesBrace(d);
    } else if x == LClose {
      LexesClose(d);
    } else {
      LexesQuote(d);
    }
  }

  /** Two brackets or two quotes with nothing between them are NIL. */
  lemma LexesUnit(d: Device)
    requires Ahead(d, "()") || Ahead(d, "\"\"")
    ensures Lex(d, "") == Lexed(NIL, Past(d, 2))
  {
    AheadOne(d, if Ahead(d, "()") then "()" else "\"\"");
    AheadOne(Getc(d), if Ahead(d, "()") then ")" else "\"");
  }

  lemma FindsString(d: Device, ps: seq<Piece>, gap: string, rest: string, num: Worth)
    requires Ahead(d, Written(LString(ps)) + (gap + rest)) && ArePieces(ps) && Gap(gap)
    ensures Finds(d, LString(ps), gap, Lex(d, ""), num, 0)
  {
    hide Lex, StringMeans, Gap;
    AheadSplits(d, Written(LString(ps)), gap + rest);
    if ps == [] {
      assert Written(LString(ps)) == "\"\"";
      LexesUnit(d);
    } else {
      hide StringText;
      LexesString(d, ps);
    }
  }

  lemma FindsLexeme(d: Device, x: Lexeme, gap: string, rest: string, num: Worth) returns (k: nat)
    requires Ahead(d, Written(x) + (gap + rest)) && d.pos + |Written(x) + (gap + rest)| == |d.text|
    requires Plain(x) && Gap(gap) && MayPrecede(x, gap, rest)
    ensures Finds(d, x, gap, Lex(d, ""), num, k)
  {
    hide Lex, Fold, StrCaseCmp, Gap, HasSpace;
    k := 0;
    match x
    case LWord(name) => FindsWord(d, name, gap, rest, num);
    case LSign(c) => k := FindsSign(d, c, gap, rest, num);
    case LTwice(c) => FindsTwice(d, c, gap, rest, num);
    case LNumber(prefix, digits) => FindsNumber(d, prefix, digits, gap, rest, num);
    case LString(ps) => FindsString(d, ps, gap, rest, num);
    case LUnit =>
      AheadSplits(d, "()", gap + rest);
      LexesUnit(d);
    case LOpen => FindsMark(d, x, gap, rest, num);
    case LClose => FindsMark(d, x, gap, rest, num);
    case LQuote => FindsMark(d, x, gap, rest, num);
    case LColon => FindsMark(d, x, gap, rest, num);
  }

  // ----- over gaps -----

  /** A comment up to its newline, from behind the semicolon on. */
  lemma {:induction false} OverRemark(d: Device, s: string, after: string) returns (k: nat)
    requires Remark(s) && Ahead(d, s + after) && d.pos + |s + after| == |d.text|
    ensures 0 < k <= |s| && Gap(s[k..]) && (SpaceAfterRemark(s) <==> HasSpace(s[k..]))
    ensures CommentEnds(d) && SkipComment(d).pos == d.pos + k && Ahead(SkipComment(d), s[k..] + after)
    decreases |s|
  {
    AheadOne(d, s + after);
    assert (s + after)[1..] == s[1..] + after;
    if s[0] == '\n' {
      k := 1;
    } else {
      AheadOne(Getc(d), s[1..] + after);
      k := OverRemark(Getc(d), s[1..], after);
      assert s[1..][k..] == s[k + 1..];
      k := k + 1;
    }
  }

  lemma SameLex(d: Device, next: Device, op: string)
    requires |op| <= 1
    requires (Peek(d) == '\n' && next == Getc(d).(count := 0)) || (Peek(d) == ' ' && op == "" && next == Getc(d))
      || (Peek(d) == ';' && CommentEnds(Getc(d)) && next == SkipComment(Getc(d)))
    ensures Lex(d, op) == Lex(next, op)
  {
  }

  /** One space, one newline or one comment of a gap; with a sign waiting only the latter are skipped. */
  lemma OverOne(d: Device, op: string, gap: string, after: string) returns (e: Device, k: nat)
    requires |op| <= 1 && gap != "" && Gap(gap) && (op != "" ==> gap[0] != ' ')
    requires Ahead(d, gap + after) && d.pos + |gap + after| == |d.text|
    ensures 0 < k <= |gap| && Gap(gap[k..]) && (gap[0] != ' ' ==> (HasSpace(gap) <==> HasSpace(gap[k..])))
    ensures Lex(d, op) == Lex(e, op) && e.text == d.text && e.buffer == d.buffer && e.pos == d.pos + k
    ensures Ahead(e, gap[k..] + after)
    ensures e == if gap[0] == '\n' then Getc(d).(count := 0) else if gap[0] ==
      ';' then SkipComment(Getc(d)) else Getc(d)
    ensures Peek(d) == gap[0] && (gap[0] == ';' ==> CommentEnds(Getc(d)))
  {
    hide Lex;
    AheadOne(d, gap + after);
    assert (gap + after)[1..] == gap[1..] + after;
    if gap[0] == ';' {
      k := OverRemark(Getc(d), gap[1..], after);
      e := SkipComment(Getc(d));
      assert gap[1..][k..] == gap[k + 1..];
      k := k + 1;
    } else {
      k := 1;
      e := if gap[0] == '\n' then Getc(d).(count := 0) else Getc(d);
      SameAhead(Getc(d), e, gap[1..] + after);
    }
    SameLex(d, e, op);
  }

  lemma {:induction false} SkipsGap(d: Device, gap: string, after: string) returns (e: Device)
    requires Gap(gap) && Ahead(d, gap + after) && d.pos + |gap + after| == |d.text|
    ensures Lex(d, "") == Lex(e, "") && e.text == d.text && e.pos == d.pos + |gap| && Ahead(e, after)
    decreases |gap|
  {
    hide Lex, Gap, HasSpace, Ahead;
    if gap == "" {
      assert gap + after == after;
      e := d;
    } else {
      var k;
      e, k := OverOne(d, "", gap, after);
      e := SkipsGap(e, gap[k..], after);
    }
  }

  lemma SignEnds(d: Device, op: string)
    requires |op| == 1 && (Peek(d) == ' ' || Peek(d) == ')')
    ensures var l := Lex(d, op);
      l.tok == ATOM && l.dev.buffer == op && l.dev.text == d.text
      && l.dev.pos == if Peek(d) == ')' then d.pos else d.pos + 1
  {
  }

  lemma DropTwice(s: string, j: nat, k: nat)
    requires j + k <= |s|
    ensures s[j..][k..] == s[j + k..]
  {
  }

  lemma AtGapStart(gap: string)
    requires Gap(gap)
    ensures gap == "" ==> !HasSpace(gap) && Gap(gap[0..])
    ensures gap != "" && gap[0] == ' ' ==> Gap(gap[1..])
  {
  }

  /** A waiting sign up to the space or bracket that ends it. */
  lemma {:induction false} WaitsOver(d: Device, op: string, gap: string, rest: string) returns (k: nat)
    requires |op| == 1 && Gap(gap) && (HasSpace(gap) || (rest != "" && rest[0] == ')'))
    requires Ahead(d, gap + rest) && d.pos + |gap + rest| == |d.text|
    ensures var l := Lex(d, op);
      l.tok == ATOM && l.dev.buffer == op && l.dev.text == d.text && l.dev.pos == d.pos + k
    ensures k <= |gap| && Gap(gap[k..])
    decreases |gap|
  {
    hide *;
    AtGapStart(gap);
    AheadOne(d, gap + rest);
    if gap == "" {
      assert gap + rest == rest;
      SignEnds(d, op);
      k := 0;
    } else if gap[0] == ' ' {
      SignEnds(d, op);
      k := 1;
    } else {
      var e, j := OverOne(d, op, gap, rest);
      k := WaitsOver(e, op, gap[j..], rest);
      DropTwice(gap, j, k);
      k := j + k;
    }
  }

  lemma SameTokens(d: Device, e: Device, num: Worth)
    requires Lex(d, "") == Lex(e, "")
    ensures Tokens(d, num) == Tokens(e, num)
  {
    hide Lex;
  }

  /** A text that spells tokens, with any spaces, newlines and comments between them, lexes to these and no others. */
  lemma {:induction false} LexesBack(d: Device, xs: seq<Lexeme>, gaps: seq<string>, num: Worth)
    requires |gaps| == |xs| && Proper(xs, gaps)
    requires Ahead(d, Spelled(xs, gaps)) && d.pos + |Spelled(xs, gaps)| == |d.text|
    ensures Tokens(d, num) == AllMeant(xs, num)
    decreases |xs|
  {
    hide Lex, Plain, MayPrecede, Ahead, Written, Meant, Gap;
    if xs != [] {
      var rest := Spelled(xs[1..], gaps[1..]);
      var k := FindsLexeme(d, xs[0], gaps[0], rest, num);
      FirstToken(d, num);
      var l := Lex(d, "");
      AheadSplits(d, Written(xs[0]), gaps[0] + rest);
      var e := ToNext(d, xs[0], gaps[0], rest, l, num, k);
      LexesBack(e, xs[1..], gaps[1..], num);
    } else {
      assert Lex(d, "").tok == EOF by { NothingLeft(d); }
    }
  }

  lemma NothingLeft(d: Device)
    requires d.pos == |d.text|
    ensures Lex(d, "").tok == EOF
  {
  }

  /** From behind a token over the gap to the next one. */
  lemma ToNext(d: Device, x: Lexeme, gap: string, rest: string, l: Lexed, num: Worth, k: nat) returns (e: Device)
    requires Finds(d, x, gap, l, num, k)
    requires Ahead(Past(d, |Written(x)|), gap + rest) && d.pos + |Written(x)| + |gap + rest| == |d.text|
    ensures Tokens(Taken(l), num) == Tokens(e, num) && e.text == d.text
    ensures Ahead(e, rest) && e.pos + |rest| == |e.text|
  {
    hide Lex, Meant, Written, Gap;
    var from := Taken(l);
    assert gap + rest == gap[..k] + (gap[k..] + rest);
    AheadSplits(Past(d, |Written(x)|), gap[..k], gap[k..] + rest);
    SameAhead(Past(Past(d, |Written(x)|), k), from, gap[k..] + rest);
    e := SkipsGap(from, gap[k..], rest);
    SameTokens(from, e, num);
  }

  /** A first line that starts with `#`, as scripts have it, or nothing. */
  predicate Hashbang(s: string) {
    s == "" || (s[0] == '#' && Line(s[1..]))
  }

  /** Up to its newline, and nothing after it. */
  predicate Line(s: string)
    decreases |s|
  {
    s != "" && s[0] != NUL && if s[0] == '\n' then |s| == 1 else Line(s[1..])
  }

  lemma {:induction false} OverLine(d: Device, s: string, after: string)
    requires Line(s) && Ahead(d, s + after)
    ensures LineEnds(d) && SkipLine(d).pos == d.pos + |s| && Ahead(SkipLine(d), after)
    decreases |s|
  {
    AheadOne(d, s + after);
    assert (s + after)[1..] == s[1..] + after;
    if s[0] == '\n' {
      assert s[1..] + after == after;
    } else {
      OverLine(Getc(d), s[1..], after);
    }
  }

  /** A line that starts with `#` is read over, wherever it is. */
  lemma HashLineIsSkipped(d: Device)
    requires Peek(d) == '#' && d.count == 0 && LineEnds(Getc(d))
    ensures Lex(d, "") == Lex(SkipLine(Getc(d)).(count := 0), "")
  {
  }

  /** The same for the text of a whole program, which may start with a line for the shell and a gap. */
  lemma TextLexesBack(first: string, lead: string, xs: seq<Lexeme>, gaps: seq<string>, num: Worth)
    requires |gaps| == |xs| && Hashbang(first) && Gap(lead) && Proper(xs, gaps)
    ensures Tokens(Device(first + (lead + Spelled(xs, gaps)), 0, "", 0), num) == AllMeant(xs, num)
  {
    hide Lex, Proper, Spelled, Tokens, Line, Gap;
    var rest := lead + Spelled(xs, gaps);
    var text := first + rest;
    var d := Device(text, 0, "", 0);
    assert d.text[0..|text|] == text;
    AheadSplits(d, first, rest);
    var e := d;
    if first != "" {
      AheadOne(d, text);
      assert text[1..] == first[1..] + rest;
      OverLine(Getc(d), first[1..], rest);
      HashLineIsSkipped(d);
      e := SkipLine(Getc(d)).(count := 0);
      SameAhead(SkipLine(Getc(d)), e, rest);
    }
    var f := SkipsGap(e, lead, Spelled(xs, gaps));
    SameTokens(d, f, num);
    LexesBack(f, xs, gaps, num);
  }

  // ----- what becomes of a sign -----

  /** No character of a token, and no space or newline. */
  predicate Ignored(c: char) {
    c != NUL && c as int != 255 && c != ' ' && c != '\n' && !IsDigit(c) && !IsAlpha(c) && !IsPunct(c)
  }

  /** Over newlines, comments, lines for the shell and ignored characters, which is what a sign waits over. */
  function AfterWait(d: Device): (r: Device)
    ensures r.text == d.text && r.buffer == d.buffer && d.pos <= r.pos
    decreases |d.text| - d.pos
  {
    var c := Peek(d);
    var d1 := Getc(d);
    if c == '#' && d1.count == 1 then AfterWait(if LineEnds(d1) then SkipLine(d1).(count := 0) else SkipLine(d1))
    else if c == '\n' then AfterWait(d1.(count := 0))
    else if c == ';' && CommentEnds(d1) then AfterWait(SkipComment(d1))
    else if Ignored(c) then AfterWait(d1)
    else d
  }

  lemma {:induction false} SignIsKept(d: Device, op: string)
    requires |op| == 1
    ensures Lex(d, op) == Lex(AfterWait(d), op)
    decreases |d.text| - d.pos
  {
    hide Lex, SkipLine, LineEnds, SkipComment, CommentEnds;
    var c, d1 := Peek(d), Getc(d);
    if c == '#' && d1.count == 1 {
      var d2 := if LineEnds(d1) then SkipLine(d1).(count := 0) else SkipLine(d1);
      SignIsKept(d2, op);
      SignOverLine(d, op);
    } else if c == '\n' {
      SignIsKept(d1.(count := 0), op);
      SameLex(d, d1.(count := 0), op);
    } else if c == ';' && CommentEnds(d1) {
      SignIsKept(SkipComment(d1), op);
      SameLex(d, SkipComment(d1), op);
    } else if Ignored(c) {
      SignIsKept(d1, op);
      IgnoredIsSkipped(d, op);
    }
  }

  lemma SignOverLine(d: Device, op: string)
    requires |op| == 1 && Peek(d) == '#' && Getc(d).count == 1
    ensures var d1 := Getc(d);
      Lex(d, op) == Lex(if LineEnds(d1) then SkipLine(d1).(count := 0) else SkipLine(d1), op)
  {
  }

  /** Characters of no token are read over. */
  lemma IgnoredIsSkipped(d: Device, op: string)
    requires |op| <= 1 && Ignored(Peek(d))
    ensures Lex(d, op) == Lex(Getc(d), op)
  {
  }

  lemma {:induction false} LineEndsInNewline(d: Device)
    requires LineEnds(d)
    ensures SkipLine(d).pos <= |d.text| && d.text[SkipLine(d).pos - 1] == '\n'
    decreases |d.text| - d.pos
  {
    if Peek(d) != '\n' { LineEndsInNewline(Getc(d)); }
  }

  lemma {:induction false} RemarkEndsInNewline(d: Device)
    requires CommentEnds(d)
    ensures SkipComment(d).pos <= |d.text| && d.text[SkipComment(d).pos - 1] == '\n'
    decreases |d.text| - d.pos
  {
    if Peek(d) != '\n' { RemarkEndsInNewline(Getc(d)); }
  }

  lemma {:induction false} ShellLineToTheEnd(d: Device)
    requires !LineEnds(d)
    ensures Peek(Ungetc(SkipLine(d))) == NUL
    decreases |d.text| - d.pos
  {
    if Peek(d) != NUL && Peek(d) != '\n' { ShellLineToTheEnd(Getc(d)); }
  }

  /** The wait ends at once, or behind a newline, an ignored character or, in a line for the shell, the end. */
  lemma {:induction false} WaitEndsBehind(d: Device)
    ensures var w := AfterWait(d);
      w == d || (w.pos > 0 && var q := Peek(Ungetc(w)); q == '\n' || q == NUL || Ignored(q))
    decreases |d.text| - d.pos
  {
    var c, d1 := Peek(d), Getc(d);
    if c == '#' && d1.count == 1 {
      var d2 := if LineEnds(d1) then SkipLine(d1).(count := 0) else SkipLine(d1);
      if LineEnds(d1) { LineEndsInNewline(d1); } else { ShellLineToTheEnd(d1); }
      WaitEndsBehind(d2);
    } else if c == '\n' {
      WaitEndsBehind(d1.(count := 0));
    } else if c == ';' && CommentEnds(d1) {
      RemarkEndsInNewline(d1);
      WaitEndsBehind(SkipComment(d1));
    } else if Ignored(c) {
      WaitEndsBehind(d1);
    }
  }

  predicate InWord(c: char) {
    IsAlpha(c) || (IsPunct(c) && c !in {'+', '-', '"', '(', ')', '\'', ':', ';'})
  }

  /** What a waiting sign becomes where the wait ends. */
  lemma AtStop(w: Device, op: string)
    requires |op| == 1 && AfterWait(w) == w
    ensures var x, l := Peek(w), Lex(w, op);
      if x == ' ' || x == ')' then l.tok == ATOM && l.dev.buffer == op
      else if IsSign(x) then l == Lexed(ATOM, Getc(w).(buffer := op + op))
      else if InWord(x) then l == LexWord(Ungetc(w))
      else if IsDigit(x) then l.tok == NUMBER && exists digits :: l.dev.buffer == op + digits
      else l.tok != ATOM && l.tok != NUMBER && (l.tok == EOF <==> x == NUL || x as int == 255 || x == ';')
  {
    hide LexWord, CopyNumber, CopyString;
    StopsHere(w);
    if IsDigit(Peek(w)) {
      NumberIsThere(w);
      assert Lex(w, op).dev.buffer == op + CopyNumber(w).chars;
    }
  }

  lemma NumberIsThere(w: Device)
    requires IsDigit(Peek(w))
    ensures CopyNumber(w).chars != ""
  {
  }

  lemma StopsHere(w: Device)
    requires AfterWait(w) == w
    ensures var x := Peek(w);
      x != '\n' && !Ignored(x) && (x == '#' ==> Getc(w).count != 1) && (x == ';' ==> !CommentEnds(Getc(w)))
  {
  }

  lemma {:induction false} WaitedOnce(d: Device)
    ensures AfterWait(AfterWait(d)) == AfterWait(d)
    decreases |d.text| - d.pos
  {
    var c, d1 := Peek(d), Getc(d);
    if c == '#' && d1.count == 1 {
      WaitedOnce(if LineEnds(d1) then SkipLine(d1).(count := 0) else SkipLine(d1));
    } else if c == '\n' {
      WaitedOnce(d1.(count := 0));
    } else if c == ';' && CommentEnds(d1) {
      WaitedOnce(SkipComment(d1));
    } else if Ignored(c) {
      WaitedOnce(d1);
    }
  }

  /** The word of a sign whose wait ended at a word: the sign and the word, or what was in the buffer before. */
  lemma WordOfSign(d: Device)
    requires IsSign(Peek(d)) && InWord(Peek(AfterWait(Getc(d))))
    ensures var w := AfterWait(Getc(d)); var u := Ungetc(w);
      var word := CopyAtom(u).chars;
      if Peek(u) == '\n' || Peek(u) == NUL then word == "" else word != [Peek(d)] && word != ""
  {
    var w := AfterWait(Getc(d));
    var u := Ungetc(w);
    WaitEndsBehind(Getc(d));
    assert Peek(Getc(u)) == Peek(w);
    if w == Getc(d) {
      assert u == d;
      LongWord(d);
    }
  }

  lemma LongWord(d: Device)
    requires Peek(d) != NUL && !EndsAtom(Peek(d)) && Peek(Getc(d)) != NUL && !EndsAtom(Peek(Getc(d)))
    ensures |CopyAtom(d).chars| > 1
  {
    var w := CopyAtom(Getc(d));
    assert w.chars != "";
  }

  lemma SignIsNoKeyword(word: string)
    requires |word| == 1 && IsSign(word[0])
    ensures StrCaseCmp(word, "NIL") != 0 && StrCaseCmp(word, "T") != 0
  {
    EqualIffSameFold(word, "NIL");
    EqualIffSameFold(word, "T");
    assert Fold(word)[0] == word[0];
  }

  /** A word that follows behind a newline is not read again from the sign on: what was in the buffer counts. */
  predicate Stale(w: Device) {
    InWord(Peek(w)) && (Peek(Ungetc(w)) == '\n' || Peek(Ungetc(w)) == NUL)
  }

  /**
   * Whatever follows: a sign comes out as the atom of its name exactly if, where its wait ends, there is a space or a
   * closing bracket; or if a word starts there behind a newline and the sign was in the buffer already.
   */
  lemma SignAlone(d: Device)
    requires IsSign(Peek(d))
    ensures var l, w := Lex(d, ""), AfterWait(Getc(d));
      l.tok == ATOM && l.dev.buffer == [Peek(d)] <==>
      Peek(w) == ' ' || Peek(w) == ')' || (Stale(w) && d.buffer == [Peek(d)])
  {
    hide Lex, AfterWait, CopyAtom, StrCaseCmp;
    var w, op := AfterWait(Getc(d)), [Peek(d)];
    SignWaits(d);
    SignIsKept(Getc(d), op);
    WaitedOnce(Getc(d));
    AtStop(w, op);
    if InWord(Peek(w)) {
      WordOfSign(d);
      SignIsNoKeyword(op);
    }
  }

  /** It is the sign of a number exactly if the wait ends at a digit, and is lost exactly if it ends with the text. */
  lemma SignElsewhere(d: Device)
    requires IsSign(Peek(d))
    ensures var l, w := Lex(d, ""), AfterWait(Getc(d));
      (l.tok == NUMBER <==> IsDigit(Peek(w)))
      && (l.tok == EOF <==> Peek(w) == NUL || Peek(w) as int == 255 || Peek(w) == ';')
      && (IsSign(Peek(w)) ==> l == Lexed(ATOM, Getc(w).(buffer := [Peek(d), Peek(d)])))
  {
    hide Lex, AfterWait, CopyAtom, StrCaseCmp;
    var w, op := AfterWait(Getc(d)), [Peek(d)];
    SignWaits(d);
    SignIsKept(Getc(d), op);
    WaitedOnce(Getc(d));
    AtStop(w, op);
  }

  /** A gap without a space is waited over as a whole. */
  lemma {:induction false} WaitsOverAll(d: Device, gap: string, rest: string) returns (e: Device)
    requires Gap(gap) && !HasSpace(gap) && Ahead(d, gap + rest) && d.pos + |gap + rest| == |d.text|
    ensures AfterWait(d) == AfterWait(e) && e.text == d.text && e.pos == d.pos + |gap| && Ahead(e, rest)
    decreases |gap|
  {
    hide Lex, Ahead;
    if gap == "" {
      assert gap + rest == rest;
      e := d;
    } else {
      AheadOne(d, gap + rest);
      var k;
      e, k := OverOne(d, "+", gap, rest);
      assert AfterWait(d) == AfterWait(e);
      e := WaitsOverAll(e, gap[k..], rest);
    }
  }

  /** For any gap and what may follow it: MayPrecede says exactly when a sign before them is an atom. */
  lemma SignNeeds(d: Device, c: char, gap: string, rest: string)
    requires IsSign(c) && d.buffer != [c] && Gap(gap)
    requires rest != "" ==> !Ignored(rest[0]) && rest[0] !in {' ', '\n', ';', '#'}
    requires Ahead(d, [c] + (gap + rest)) && d.pos + |[c] + (gap + rest)| == |d.text|
    ensures var l := Lex(d, ""); l.tok == ATOM && l.dev.buffer == [c] <==> MayPrecede(LSign(c), gap, rest)
  {
    hide Lex;
    AheadSplits(d, [c], gap + rest);
    if HasSpace(gap) {
      SignWaits(d);
      var _ := WaitsOver(Getc(d), [c], gap, rest);
    } else {
      SignAlone(d);
      var e := WaitsOverAll(Getc(d), gap, rest);
      if rest != "" { AheadOne(e, rest); }
      assert AfterWait(e) == e;
    }
  }

  lemma LineIsSkipped(d: Device, op: string)
    requires |op| <= 1 && Peek(d) == '\n'
    ensures Lex(d, op) == Lex(Getc(d).(count := 0), op)
  {
  }

  /** A sign at the end of a line is the sign of the number below, and one at the end of the text is lost. */
  lemma SignsGoAstray(num: Worth)
    ensures Tokens(Device("+\n1", 0, "", 0), num) == [R.NUMBER(num("+1"))]
    ensures Tokens(Device("+", 0, "", 0), num) == []
    ensures Tokens(Device("+-", 0, "", 0), num) == [R.ATOM("++")]
  {
    OverTheLine(num);
    LostAtTheEnd(num);
    CountsDouble(num);
  }

  lemma OverTheLine(num: Worth)
    ensures Tokens(Device("+\n1", 0, "", 0), num) == [R.NUMBER(num("+1"))]
  {
    hide Lex;
    var d := Device("+\n1", 0, "", 0);
    var d2 := Getc(Getc(d)).(count := 0);
    SignWaits(d);
    LineIsSkipped(Getc(d), "+");
    assert d2.text[2..3] == "1" == "1" + "";
    FindsDigits(d2, "+", "1", "");
    assert "+" + "1" == "+1";
    FirstToken(d, num);
    PastTheEnd(Past(d2, 1).(buffer := ""));
  }

  lemma LostAtTheEnd(num: Worth)
    ensures Tokens(Device("+", 0, "", 0), num) == []
  {
    SignWaits(Device("+", 0, "", 0));
    assert Lex(Getc(Device("+", 0, "", 0)), "+").tok == EOF;
  }

  lemma CountsDouble(num: Worth)
    ensures Tokens(Device("+-", 0, "", 0), num) == [R.ATOM("++")]
  {
    var d := Device("+-", 0, "", 0);
    SignWaits(d);
    assert Lex(Getc(d), "+") == Lexed(ATOM, Getc(Getc(d)).(buffer := "++"));
    hide Lex;
    PastTheEnd(Getc(Getc(d)).(buffer := ""));
  }
}
