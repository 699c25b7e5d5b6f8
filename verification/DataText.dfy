/**
 * Data as text: the printer without colours, and the lexer and reader on a device whose source is a string. The device
 * keeps its position and the buffer in which the last word was collected.
 */
module DataText {
  import opened Options
  import opened KeyOrder

  datatype Token = EOF | NIL | ATOM | NUMBER | STRING | TRUE | LBRACE | RBRACE | QUOTE

  const NUL := '\0'

  /**
   * A text, how far it is read, the last word, and the characters read from the line so far. Reading past the end is
   * the end again.
   */
  datatype Device = Device(text: string, pos: nat, buffer: string, count: int)

  function Peek(d: Device): char {
    if d.pos < |d.text| then d.text[d.pos] else NUL
  }

  function Getc(d: Device): Device {
    d.(pos := d.pos + 1, count := d.count + 1)
  }

  function Ungetc(d: Device): Device {
    d.(pos := if d.pos == 0 then 0 else d.pos - 1, count := d.count - 1)
  }

  predicate AtEof(d: Device) {
    Peek(d) == NUL
  }

  predicate IsDigit(c: char) { '0' <= c <= '9' }

  predicate IsAlpha(c: char) { 'a' <= c <= 'z' || 'A' <= c <= 'Z' }

  predicate IsPunct(c: char) { ('!' <= c <= '~') && !IsDigit(c) && !IsAlpha(c) }

  predicate EndsAtom(c: char) { c == ' ' || c == '(' || c == ')' || c == '\n' }

  predicate InNumber(c: char) {
    IsDigit(c) || ToLower(c) in {'e', '+', '-', 'x', '.', 'a', 'b', 'c', 'd', 'f'}
  }

  /** The classes, character by character. */
  lemma Digits(c: char)
    ensures IsDigit(c) <==> c in "0123456789"
  {
    if IsDigit(c) { assert "0123456789"[c as int - '0' as int] == c; }
  }

  lemma SmallLetters(c: char)
    ensures IsAlpha(c) && !IsCapital(c) <==> c in "abcdefghi" || c in "jklmnopqr" || c in "stuvwxyz"
  {
  }

  lemma CapitalLetters(c: char)
    ensures IsAlpha(c) && IsCapital(c) <==> c in "ABCDEFGHI" || c in "JKLMNOPQR" || c in "STUVWXYZ"
  {
  }

  lemma Punctuation(c: char)
    ensures IsPunct(c) <==> c in "!\"#$%&'()*+,-./" || c in ":;<=>?@" || c in "[\\]^_`" || c in "{|}~"
    ensures EndsAtom(c) <==> c in " ()\n"
  {
  }

  lemma NumberCharacters(c: char)
    ensures InNumber(c) <==> c in "0123456789" || c in "+-." || c in "xXeE" || c in "abcdfABCDF"
  {
  }

  /** The buffer is overwritten from its start; when nothing is put in it, it keeps what it held. */
  function Filled(d: Device, word: string): Device {
    if word == "" then d else d.(buffer := word)
  }

  datatype Word = Word(chars: string, dev: Device)

  /** Lower-case characters up to a space, a parenthesis, a newline or the end. */
  function CopyAtom(d: Device): (r: Word)
    ensures r.dev.text == d.text && r.dev.buffer == d.buffer && d.pos <= r.dev.pos
    ensures Peek(d) != NUL && !EndsAtom(Peek(d)) ==> d.pos < r.dev.pos
    decreases |d.text| - d.pos
  {
    var c := Peek(d);
    if c == NUL then Word("", Getc(d))
    else if EndsAtom(c) then Word("", d)
    else if AtEof(Getc(d)) then Word([ToLower(c)], Getc(d))
    else
      var w := CopyAtom(Getc(d));
      Word([ToLower(c)] + w.chars, w.dev)
  }

  function CopyNumber(d: Device): (r: Word)
    ensures r.dev.text == d.text && r.dev.buffer == d.buffer && d.pos <= r.dev.pos
    decreases |d.text| - d.pos
  {
    var c := Peek(d);
    if c == NUL then Word("", Getc(d))
    else if !InNumber(c) then Word("", d)
    else if AtEof(Getc(d)) then Word([c], Getc(d))
    else
      var w := CopyNumber(Getc(d));
      Word([c] + w.chars, w.dev)
  }

  /** Up to the closing quote; a backslash makes a quote part of the string and otherwise stays. */
  function CopyString(d: Device): (r: Word)
    ensures r.dev.text == d.text && r.dev.buffer == d.buffer && d.pos <= r.dev.pos
    decreases |d.text| - d.pos
  {
    var c := Peek(d);
    if c == NUL || c == '"' then Word("", Getc(d))
    else
      var next := Peek(Getc(d));
      var piece := if c != '\\' then [c] else if next == '"' then [next] else if next == NUL then [c] else [c, next];
      var d2 := if c == '\\' then Getc(Getc(d)) else Getc(d);
      if AtEof(d2) then Word(piece, d2)
      else
        var w := CopyString(d2);
        Word(piece + w.chars, w.dev)
  }

  /** Skips a comment; None when the text ends in it. */
  function SkipComment(d: Device): (r: Device)
    ensures r.text == d.text && r.buffer == d.buffer && d.pos < r.pos
    ensures Peek(r) != NUL ==> r.pos <= |d.text|
    decreases |d.text| - d.pos
  {
    if Peek(d) == '\n' then Getc(d)
    else if AtEof(Getc(d)) then Getc(d)
    else SkipComment(Getc(d))
  }

  predicate CommentEnds(d: Device)
    ensures CommentEnds(d) ==> d.pos < |d.text|
    decreases |d.text| - d.pos
  {
    if Peek(d) == '\n' then true
    else if AtEof(Getc(d)) then false
    else CommentEnds(Getc(d))
  }

  /** Skips the rest of a line, the newline with it, or the text to its end. */
  function SkipLine(d: Device): (r: Device)
    ensures r.text == d.text && r.buffer == d.buffer && d.pos < r.pos
    decreases |d.text| - d.pos
  {
    if Peek(d) == NUL || Peek(d) == '\n' then Getc(d) else SkipLine(Getc(d))
  }

  predicate LineEnds(d: Device)
    ensures LineEnds(d) ==> d.pos < |d.text|
    decreases |d.text| - d.pos
  {
    Peek(d) != NUL && (Peek(d) == '\n' || LineEnds(Getc(d)))
  }

  datatype Lexed = Lexed(tok: Token, dev: Device)

  /** The buffer holds a word up to case. */
  predicate Holds(d: Device, word: string) {
    StrCaseCmp(d.buffer, word) == 0
  }

  function LexWord(d: Device): (r: Lexed)
    ensures r.dev.text == d.text && d.pos <= r.dev.pos && r.tok != EOF
    ensures Peek(d) != NUL && !EndsAtom(Peek(d)) ==> d.pos < r.dev.pos
  {
    var w := CopyAtom(d);
    var d2 := Filled(w.dev, w.chars);
    Lexed(if Holds(d2, "NIL") then NIL else if Holds(d2, "T") then TRUE else ATOM, d2)
  }

  /** The next token. A sign that has been read waits in `op` until it is known what it belongs to. */
  function Lex(d: Device, op: string): (r: Lexed)
    requires |op| <= 1
    ensures r.dev.text == d.text
    ensures op == "" ==> d.pos <= r.dev.pos && (r.tok != EOF ==> d.pos < r.dev.pos)
    ensures op != "" ==> d.pos <= r.dev.pos + 1
    ensures op != "" && 0 < d.pos <= |d.text| && d.text[d.pos - 1] != NUL && !EndsAtom(d.text[d.pos - 1]) ==>
      d.pos <= r.dev.pos
    decreases |d.text| - d.pos
  {
    var c := Peek(d);
    var d1 := Getc(d);
    if c == NUL || c as int == 255 then Lexed(EOF, d1)
    else if c == '#' && d1.count == 1 then
      var d2 := SkipLine(d1);
      Lex(if LineEnds(d1) then d2.(count := 0) else d2, op)
    else if c == '\n' then Lex(d1.(count := 0), op)
    else if c == '+' || c == '-' then
      if op != "" then Lexed(ATOM, d1.(buffer := op + op)) else Lex(d1, [c])
    else if IsDigit(c) then
      var w := CopyNumber(d);
      Lexed(NUMBER, Filled(w.dev, op + w.chars))
    else if c == ' ' || c == ')' then
      if op != "" then Lexed(ATOM, (if c == ')' then d else d1).(buffer := op))
      else if c == ')' then Lexed(RBRACE, d1)
      else Lex(d1, op)
    else if c == '"' then
      if Peek(d1) == '"' then Lexed(NIL, Getc(d1))
      else
        var w := CopyString(d1);
        Lexed(STRING, Filled(w.dev, w.chars))
    else if c == '(' then
      if Peek(d1) == ')' then Lexed(NIL, Getc(d1)) else Lexed(LBRACE, d1)
    else if c == '\'' || c == ':' then Lexed(QUOTE, d1)
    else if c == ';' then
      if CommentEnds(d1) then Lex(SkipComment(d1), op) else Lexed(EOF, SkipComment(d1))
    else if IsAlpha(c) || IsPunct(c) then LexWord(if op != "" then Ungetc(d) else d)
    else Lex(d1, op)
  }

  // ----- values -----

  /**
   * A number keeps its digits. A symbol that was quoted is printed with a colon; a list keeps the quote that the
   * reader gives to every list.
   */
  datatype Value =
    | Nil
    | True
    | Num(digits: string)
    | Str(s: string)
    | Sym(name: string, quoted: bool)
    | List(items: Items, quoted: bool)

  datatype Items = Empty | Item(head: Value, tail: Items)

  /** A value or none, where reading stopped, and whether a NULL was dereferenced. */
  datatype Parsed = Parsed(value: Option<Value>, dev: Device, fault: bool)

  datatype ParsedItems = ParsedItems(items: Items, dev: Device, fault: bool)

  function ParseToken(tok: Token, quoted: bool, d: Device): (r: Parsed)
    ensures r.dev.text == d.text && d.pos <= r.dev.pos
    decreases |d.text| - d.pos, 2
  {
    match tok
    case EOF => Parsed(None, d.(buffer := ""), false)
    case RBRACE => Parsed(None, d, false)
    case ATOM => Parsed(Some(Sym(d.buffer, quoted)), d.(buffer := ""), false)
    case NUMBER => Parsed(Some(Num(d.buffer)), d.(buffer := ""), false)
    case STRING => Parsed(Some(Str(d.buffer)), d.(buffer := ""), false)
    case LBRACE =>
      var l := ParseItems(d);
      Parsed(Some(List(l.items, true)), l.dev, l.fault)
    case NIL => Parsed(Some(Nil), d, false)
    case TRUE => Parsed(Some(True), d, false)
    case QUOTE => Parsed(None, d, true)
  }

  function ParseValue(d: Device): (r: Parsed)
    ensures r.dev.text == d.text && d.pos <= r.dev.pos && (r.value.Some? ==> d.pos < r.dev.pos)
    decreases |d.text| - d.pos, 0
  {
    var l := Lex(d, "");
    if l.tok == EOF then Parsed(None, l.dev.(buffer := ""), false)
    else if l.tok == QUOTE then
      var l2 := Lex(l.dev, "");
      if l2.tok == EOF then Parsed(None, l2.dev.(buffer := ""), false) else ParseToken(l2.tok, true, l2.dev)
    else ParseToken(l.tok, false, l.dev)
  }

  function ParseItems(d: Device): (r: ParsedItems)
    ensures r.dev.text == d.text && d.pos <= r.dev.pos
    decreases |d.text| - d.pos, 1
  {
    var v := ParseValue(d);
    if v.fault || v.value.None? then ParsedItems(Empty, v.dev, v.fault)
    else
      var l := ParseItems(v.dev);
      ParsedItems(Item(v.value.value, l.items), l.dev, l.fault)
  }

  /** The text of a value, without colours. */
  function Print(v: Value): string {
    match v
    case Nil => "NIL"
    case True => "T"
    case Num(n) => n
    case Str(s) => "\"" + s + "\""
    case Sym(name, quoted) => if quoted then ":" + name else name
    case List(items, quoted) =>
      if items == Empty then "NIL" else (if quoted then "'" else "") + "(" + PrintItems(items) + ")"
  }

  function PrintItems(items: Items): string {
    match items
    case Empty => ""
    case Item(v, rest) => Print(v) + (if rest == Empty then "" else " " + PrintItems(rest))
  }

  function Texts(items: Items): seq<string> {
    match items
    case Empty => []
    case Item(v, rest) => [Print(v)] + Texts(rest)
  }

  /** One space between two texts, and none at the ends. */
  function Joined(ts: seq<string>): string {
    if |ts| == 0 then ""
    else if |ts| == 1 then ts[0]
    else Joined(ts[..|ts| - 1]) + " " + ts[|ts| - 1]
  }

  lemma {:induction false} JoinedFront(t: string, ts: seq<string>)
    requires ts != []
    ensures Joined([t] + ts) == t + " " + Joined(ts)
    decreases |ts|
  {
    var k := |ts| - 1;
    assert ([t] + ts)[..k + 1] == [t] + ts[..k];
    if k > 0 {
      JoinedFront(t, ts[..k]);
    }
  }

  /** A list is printed in brackets, with the texts of its values in order and a space between two of them. */
  lemma {:induction false} PrintsJoined(items: Items)
    ensures PrintItems(items) == Joined(Texts(items))
    ensures items != Empty ==> Texts(items) != [] && Print(List(items, false)) == "(" + Joined(Texts(items)) + ")"
  {
    match items
    case Empty =>
    case Item(v, rest) =>
      PrintsJoined(rest);
      if rest == Empty {
        assert [Print(v)] + Texts(rest) == [Print(v)];
      } else {
        JoinedFront(Print(v), Texts(rest));
      }
  }

  // ----- what has been printed can be read -----

  /** A piece of a string as it is written: a character, a quote behind a backslash, or a backslash and a character. */
  datatype Piece = Bare(c: char) | EscapedQuote | Pair(c: char)

  predicate IsPiece(p: Piece) {
    match p
    case Bare(c) => c != '"' && c != '\\' && c != NUL
    case EscapedQuote => true
    case Pair(c) => c != '"' && c != NUL
  }

  function PieceText(p: Piece): string {
    match p
    case Bare(c) => [c]
    case EscapedQuote => ['\\', '"']
    case Pair(c) => ['\\', c]
  }

  /** What a piece stands for: the backslash goes before a quote alone. */
  function PieceMeans(p: Piece): string {
    match p
    case Bare(c) => [c]
    case EscapedQuote => ['"']
    case Pair(c) => ['\\', c]
  }

  function StringText(ps: seq<Piece>): string {
    if ps == [] then "" else PieceText(ps[0]) + StringText(ps[1..])
  }

  function StringMeans(ps: seq<Piece>): string {
    if ps == [] then "" else PieceMeans(ps[0]) + StringMeans(ps[1..])
  }

  predicate ArePieces(ps: seq<Piece>) {
    forall i :: 0 <= i < |ps| ==> IsPiece(ps[i])
  }

  /** There is no quote, and no backslash but before another character. */
  predicate Unescaped(s: string) {
    s == []
    || (s[0] != '"' && s[0] != '\\' && s[0] != NUL && Unescaped(s[1..]))
    || (s[0] == '\\' && |s| > 1 && s[1] != '"' && s[1] != NUL && Unescaped(s[2..]))
  }

  predicate PlainString(s: string) {
    s != "" && Unescaped(s)
  }

  predicate PlainName(name: string) {
    name != "" && IsAlpha(name[0]) && StrCaseCmp(name, "NIL") != 0 && StrCaseCmp(name, "T") != 0
    && forall i :: 0 <= i < |name| ==> !EndsAtom(name[i]) && name[i] != NUL
  }

  /** NIL, T, plain strings and names, and lists of these that are not empty and are quoted. */
  predicate Printable(v: Value) {
    match v
    case Nil => true
    case True => true
    case Num(_) => false
    case Str(s) => PlainString(s)
    case Sym(name, _) => PlainName(name)
    case List(items, quoted) => quoted && items != Empty && AllPrintable(items)
  }

  predicate AllPrintable(items: Items) {
    match items
    case Empty => true
    case Item(v, rest) => Printable(v) && AllPrintable(rest)
  }

  /** The same value with its names in lower case, which name the same symbols. */
  function Lowered(v: Value): Value {
    match v
    case Sym(name, quoted) => Sym(Fold(name), quoted)
    case List(items, quoted) => List(LoweredAll(items), quoted)
    case _ => v
  }

  function LoweredAll(items: Items): Items {
    match items
    case Empty => Empty
    case Item(v, rest) => Item(Lowered(v), LoweredAll(rest))
  }

  /** `s` is what comes next in the text. */
  predicate Ahead(d: Device, s: string) {
    d.pos + |s| <= |d.text| && d.text[d.pos..d.pos + |s|] == s
  }

  function Past(d: Device, n: nat): Device {
    d.(pos := d.pos + n, count := d.count + n)
  }

  /** Where a word comes to its end by itself. */
  predicate AtBreak(d: Device) {
    d.pos == |d.text| || (d.pos < |d.text| && EndsAtom(d.text[d.pos]))
  }

  lemma AheadSplits(d: Device, a: string, b: string)
    requires Ahead(d, a + b)
    ensures Ahead(d, a) && Ahead(Past(d, |a|), b)
    ensures a != "" ==> Peek(d) == a[0]
    ensures Past(Past(d, |a|), |b|) == Past(d, |a + b|)
  {
    var s := d.text[d.pos..d.pos + |a + b|];
    assert d.text[d.pos..d.pos + |a|] == s[..|a|] == (a + b)[..|a|] == a;
    assert d.text[d.pos + |a|..d.pos + |a| + |b|] == s[|a|..] == (a + b)[|a|..] == b;
    assert a != "" ==> d.text[d.pos] == s[0];
  }

  lemma AheadOne(d: Device, s: string)
    requires Ahead(d, s) && s != ""
    ensures Peek(d) == s[0] && Ahead(Getc(d), s[1..])
  {
    assert [s[0]] + s[1..] == s;
    AheadSplits(d, [s[0]], s[1..]);
  }

  lemma SameAhead(d: Device, e: Device, s: string)
    requires Ahead(d, s) && e.text == d.text && e.pos == d.pos
    ensures Ahead(e, s) && Peek(e) == Peek(d)
  {
  }

  lemma {:induction false} CopiesAtom(d: Device, name: string)
    requires name != "" && Ahead(d, name) && AtBreak(Past(d, |name|))
    requires forall i :: 0 <= i < |name| ==> !EndsAtom(name[i]) && name[i] != NUL
    ensures CopyAtom(d) == Word(Fold(name), Past(d, |name|))
    decreases |name|
  {
    AheadOne(d, name);
    FoldOne(name);
    if |name| > 1 {
      AheadOne(Getc(d), name[1..]);
      CopiesAtom(Getc(d), name[1..]);
    } else {
      assert Fold(name[1..]) == "";
      assert Getc(d) == Past(d, |name|);
      assert CopyAtom(Getc(d)).chars == "";
    }
  }

  lemma FoldOne(name: string)
    requires name != ""
    ensures Fold(name) == [ToLower(name[0])] + Fold(name[1..])
  {
  }

  /** The pieces of a string come out as what they stand for. */
  lemma {:induction false} CopiesString(d: Device, ps: seq<Piece>)
    requires ArePieces(ps) && Ahead(d, StringText(ps) + "\"")
    ensures CopyString(d) == Word(StringMeans(ps), Past(d, |StringText(ps)| + 1))
    decreases |ps|
  {
    if ps == [] {
      AheadOne(d, "\"");
    } else {
      var t, rest := PieceText(ps[0]), StringText(ps[1..]) + "\"";
      assert StringText(ps) + "\"" == t + rest;
      AheadSplits(d, t, rest);
      AheadOne(d, t);
      if |t| > 1 { AheadOne(Getc(d), t[1..]); }
      var e := Past(d, |t|);
      CopiesString(e, ps[1..]);
      StartsPiece(ps[1..]);
      AheadOne(e, rest);
      OnePiece(d, ps[0]);
    }
  }

  lemma StartsPiece(ps: seq<Piece>)
    requires ArePieces(ps)
    ensures (StringText(ps) + "\"")[0] != NUL
    ensures ps != [] ==> StringText(ps) != "" && StringText(ps)[0] != '"'
  {
    if ps != [] {
      assert IsPiece(ps[0]);
    }
  }

  lemma OnePiece(d: Device, p: Piece)
    requires IsPiece(p) && Peek(d) == PieceText(p)[0] && (|PieceText(p)| > 1 ==> Peek(Getc(d)) == PieceText(p)[1])
    requires !AtEof(Past(d, |PieceText(p)|))
    ensures var w := CopyString(Past(d, |PieceText(p)|)); CopyString(d) == Word(PieceMeans(p) + w.chars, w.dev)
  {
    assert Getc(Getc(d)) == Past(d, 2) && Getc(d) == Past(d, 1);
  }

  /** A string without a quote is written as it is. */
  lemma {:induction false} PiecesOf(s: string) returns (ps: seq<Piece>)
    requires Unescaped(s)
    ensures ArePieces(ps) && StringText(ps) == s && StringMeans(ps) == s && (s != "" ==> ps != [])
    decreases |s|
  {
    if s == "" {
      ps := [];
    } else if s[0] == '\\' {
      var rest := PiecesOf(s[2..]);
      ps := [Pair(s[1])] + rest;
      assert ps[1..] == rest && s == ['\\', s[1]] + s[2..];
    } else {
      var rest := PiecesOf(s[1..]);
      ps := [Bare(s[0])] + rest;
      assert ps[1..] == rest && s == [s[0]] + s[1..];
    }
  }

  lemma FoldedTwice(name: string)
    ensures Fold(Fold(name)) == Fold(name)
  {
  }

  /** Not the start of a number, a string, a bracket, a quote or a comment. */
  predicate StartsWord(c: char) {
    IsAlpha(c) || (IsPunct(c) && c !in {'+', '-', '"', '(', ')', '\'', ':', ';', '#'})
  }

  /** A word that is no keyword is an atom, and is left in the buffer in lower case. */
  lemma CopiesWord(d: Device, name: string)
    requires name != "" && Ahead(d, name) && AtBreak(Past(d, |name|))
    requires forall i :: 0 <= i < |name| ==> !EndsAtom(name[i]) && name[i] != NUL
    ensures LexWord(d) == Lexed(
      if StrCaseCmp(name, "NIL") == 0 then NIL else if StrCaseCmp(name, "T") == 0 then TRUE else ATOM,
      Past(d, |name|).(buffer := Fold(name)))
  {
    CopiesAtom(d, name);
    FoldedTwice(name);
    EqualIffSameFold(name, "NIL");
    EqualIffSameFold(Fold(name), "NIL");
    EqualIffSameFold(name, "T");
    EqualIffSameFold(Fold(name), "T");
  }

  /** A word may start with `#` where that is not the first character of a line. */
  lemma LexesWord(d: Device, name: string)
    requires name != "" && Ahead(d, name) && AtBreak(Past(d, |name|))
    requires StartsWord(name[0]) || (name[0] == '#' && d.count != 0)
    requires forall i :: 0 <= i < |name| ==> !EndsAtom(name[i]) && name[i] != NUL
    ensures Lex(d, "") == Lexed(
      if StrCaseCmp(name, "NIL") == 0 then NIL else if StrCaseCmp(name, "T") == 0 then TRUE else ATOM,
      Past(d, |name|).(buffer := Fold(name)))
  {
    AheadOne(d, name);
    CopiesWord(d, name);
    assert Lex(d, "") == LexWord(d);
  }

  lemma LexesString(d: Device, ps: seq<Piece>)
    requires ps != [] && ArePieces(ps) && Ahead(d, "\"" + StringText(ps) + "\"")
    ensures Lex(d, "") == Lexed(STRING, Past(d, |StringText(ps)| + 2).(buffer := StringMeans(ps)))
  {
    hide CopyString, StringText, StringMeans;
    var s := StringText(ps);
    var all := "\"" + s + "\"";
    AheadOne(d, all);
    assert all[1..] == s + "\"";
    AheadOne(Getc(d), s + "\"");
    StartsPiece(ps);
    CopiesString(Getc(d), ps);
    MeansSomething(ps);
  }

  lemma MeansSomething(ps: seq<Piece>)
    ensures ps != [] ==> StringMeans(ps) != ""
  {
  }

  /** What the reader must come to on the text of `v`. */
  predicate ReadBack(d: Device, v: Value, r: Parsed) {
    r.value == Some(Lowered(v)) && !r.fault && r.dev.text == d.text && r.dev.pos == d.pos + |Print(v)|
  }

  /** Reading what was printed gives the value back and takes exactly its text. */
  lemma {:induction false} ReadsWhatIsPrinted(d: Device, v: Value)
    requires Printable(v) && Ahead(d, Print(v)) && AtBreak(Past(d, |Print(v)|))
    ensures ReadBack(d, v, ParseValue(d))
    decreases v, 1
  {
    hide ParseValue, Fold, StrCaseCmp, Ahead, Unescaped;
    match v
    case Nil => ReadsNil(d);
    case True => ReadsTrue(d);
    case Str(s) => ReadsString(d, s);
    case Sym(name, quoted) => ReadsName(d, name, quoted);
    case List(items, _) => ReadsList(d, items);
  }

  lemma ReadsNil(d: Device)
    requires Ahead(d, "NIL") && AtBreak(Past(d, 3))
    ensures ReadBack(d, Nil, ParseValue(d))
  {
    hide Lex, ParseItems;
    LexesWord(d, "NIL");
    NilIsNil();
  }

  lemma ReadsTrue(d: Device)
    requires Ahead(d, "T") && AtBreak(Past(d, 1))
    ensures ReadBack(d, True, ParseValue(d))
  {
    hide Lex, ParseItems;
    LexesWord(d, "T");
    TIsNotNil();
  }

  lemma ReadsString(d: Device, s: string)
    requires PlainString(s) && Ahead(d, "\"" + s + "\"")
    ensures ReadBack(d, Str(s), ParseValue(d))
  {
    hide Lex, ParseItems, StringText, StringMeans, Unescaped;
    var ps := PiecesOf(s);
    LexesString(d, ps);
  }

  lemma ReadsName(d: Device, name: string, quoted: bool)
    requires PlainName(name)
    requires var t := if quoted then ":" + name else name; Ahead(d, t) && AtBreak(Past(d, |t|))
    ensures ReadBack(d, Sym(name, quoted), ParseValue(d))
  {
    hide Lex, ParseItems, StrCaseCmp, Fold;
    if quoted {
      AheadSplits(d, ":", name);
      LexesQuote(d);
      LexesWord(Getc(d), name);
    } else {
      LexesWord(d, name);
    }
  }

  lemma NilIsNil()
    ensures StrCaseCmp("NIL", "NIL") == 0
  {
    EqualIffSameFold("NIL", "NIL");
  }

  lemma TIsNotNil()
    ensures StrCaseCmp("T", "NIL") != 0 && StrCaseCmp("T", "T") == 0
  {
    EqualIffSameFold("T", "T");
  }

  lemma LexesQuote(d: Device)
    requires Peek(d) == ':' || Peek(d) == '\''
    ensures Lex(d, "") == Lexed(QUOTE, Getc(d))
  {
  }

  /** The text of a printable value starts with none of the characters that end something. */
  lemma StartsPlainly(v: Value)
    requires Printable(v)
    ensures Print(v) != "" && Print(v)[0] != ')' && Print(v)[0] != ' '
  {
  }

  lemma ListText(items: Items)
    requires items != Empty
    ensures Print(List(items, true)) == "'" + ("(" + (PrintItems(items) + ")"))
  {
    hide PrintItems;
  }

  lemma {:induction false} ReadsList(d: Device, items: Items)
    requires items != Empty && AllPrintable(items) && Ahead(d, Print(List(items, true)))
    ensures ReadBack(d, List(items, true), ParseValue(d))
    decreases items, 2
  {
    hide Lex, ParseItems, PrintItems, Print, Printable, Ahead, Fold, StrCaseCmp;
    var inner := PrintItems(items) + ")";
    ListText(items);
    AheadSplits(d, "'", "(" + inner);
    LexesQuote(d);
    AheadSplits(Getc(d), "(", inner);
    StartsWithItem(items);
    AheadOne(Getc(Getc(d)), inner);
    LexesBrace(Getc(d));
    ReadsItems(Getc(Getc(d)), items);
  }

  lemma StartsWithItem(items: Items)
    requires items != Empty && AllPrintable(items)
    ensures (PrintItems(items) + ")")[0] != ')'
  {
    StartsPlainly(items.head);
    ItemThenRest(items);
    assert (Print(items.head) + AfterItem(items.tail))[0] == Print(items.head)[0];
  }

  lemma LexesBrace(d: Device)
    requires Peek(d) == '(' && Peek(Getc(d)) != ')'
    ensures Lex(d, "") == Lexed(LBRACE, Getc(d))
  {
  }

  predicate ItemsReadBack(d: Device, items: Items, r: ParsedItems) {
    r.items == LoweredAll(items) && !r.fault && r.dev.text == d.text && r.dev.pos == d.pos + |PrintItems(items)| + 1
  }

  lemma {:induction false} ReadsItems(d: Device, items: Items)
    requires items != Empty && AllPrintable(items) && Ahead(d, PrintItems(items) + ")")
    ensures ItemsReadBack(d, items, ParseItems(d))
    decreases items, 1
  {
    hide Lex, ParseValue, ParseToken, Print, PrintItems, Printable, Lowered, Ahead, Fold, StrCaseCmp;
    var v, rest := items.head, items.tail;
    var more := AfterItem(rest);
    ItemThenRest(items);
    AheadSplits(d, Print(v), more);
    AheadOne(Past(d, |Print(v)|), more);
    ReadsWhatIsPrinted(d, v);
    var r := ParseValue(d).dev;
    SameAhead(Past(d, |Print(v)|), r, more);
    assert LoweredAll(items) == Item(Lowered(v), LoweredAll(rest));
    if rest == Empty {
      ReadsEnd(r);
      assert LoweredAll(rest) == Empty && |more| == 1;
    } else {
      AheadSplits(r, " ", PrintItems(rest) + ")");
      ReadsItems(Getc(r), rest);
      SkipsSpace(r);
    }
  }

  /** What follows an item of a list: the closing brace, or a space and more items. */
  function AfterItem(rest: Items): (r: string)
    ensures r != "" && (r[0] == ' ' || r[0] == ')')
  {
    if rest == Empty then ")" else " " + (PrintItems(rest) + ")")
  }

  lemma ItemThenRest(items: Items)
    requires items != Empty
    ensures PrintItems(items) + ")" == Print(items.head) + AfterItem(items.tail)
    ensures |PrintItems(items)| + 1 == |Print(items.head)| + |AfterItem(items.tail)|
  {
    hide Print;
  }

  lemma ReadsEnd(d: Device)
    requires Peek(d) == ')'
    ensures ParseItems(d) == ParsedItems(Empty, Getc(d), false)
  {
    assert Lex(d, "") == Lexed(RBRACE, Getc(d));
    assert ParseToken(RBRACE, false, Getc(d)) == Parsed(None, Getc(d), false);
    assert ParseValue(d) == Parsed(None, Getc(d), false);
  }

  lemma SkipsSpace(d: Device)
    requires Peek(d) == ' '
    ensures ParseValue(d) == ParseValue(Getc(d)) && ParseItems(d) == ParseItems(Getc(d))
  {
    assert Lex(d, "") == Lex(Getc(d), "");
  }

  /** The text of a value, read from its start, gives the value back and is used up. */
  lemma RoundTrip(v: Value, buffer: string, count: int)
    requires Printable(v)
    ensures var r := ParseValue(Device(Print(v), 0, buffer, count));
      r.value == Some(Lowered(v)) && !r.fault && r.dev.pos == |Print(v)|
  {
    hide ParseValue, Print, Printable, Lowered;
    var d := Device(Print(v), 0, buffer, count);
    assert d.text[0..|Print(v)|] == Print(v);
    ReadsWhatIsPrinted(d, v);
  }
}
