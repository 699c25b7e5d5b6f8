/**
 * The lexer and the reader as they run: loops that move the position of a device and fill its buffer. Each method is
 * proved to come to what the functions of DataText say.
 */
module TextLoops {
  import opened Options
  import opened KeyOrder
  import DataText
  import Lexing
  import Reader

  class Source {
    const text: string
    var pos: nat
    var buffer: string
    var count: int

    constructor (text: string)
      ensures View() == DataText.Device(text, 0, "", 0)
    {
      this.text, pos, buffer, count := text, 0, "", 0;
    }

    ghost function View(): DataText.Device
      reads this
    {
      DataText.Device(text, pos, buffer, count)
    }

    method Getc() returns (c: char)
      modifies this`pos, this`count
      ensures c == DataText.Peek(old(View())) && View() == DataText.Getc(old(View()))
    {
      c := if pos < |text| then text[pos] else DataText.NUL;
      pos, count := pos + 1, count + 1;
    }

    method Ungetc()
      requires pos > 0
      modifies this`pos, this`count
      ensures View() == DataText.Ungetc(old(View()))
    {
      pos, count := pos - 1, count - 1;
    }

    predicate Eof()
      reads this
      ensures Eof() <==> DataText.AtEof(View())
    {
      pos >= |text| || text[pos] == DataText.NUL
    }

    /** Puts characters at the start of the buffer; without any it stays as it is. */
    method PutBuffer(word: string)
      modifies this`buffer
      ensures View() == DataText.Filled(old(View()), word)
    {
      if word != "" {
        buffer := word;
      }
    }

    method CopyAtom()
      modifies this
      ensures var w := DataText.CopyAtom(old(View())); View() == DataText.Filled(w.dev, w.chars)
    {
      hide DataText.CopyAtom;
      ghost var all := DataText.CopyAtom(View());
      var word := "";
      while true
        invariant buffer == old(buffer) && all.dev == DataText.CopyAtom(View()).dev
        invariant all.chars == word + DataText.CopyAtom(View()).chars
        decreases |text| - pos
      {
        AtomStep(View(), word);
        var c := Getc();
        if c == DataText.NUL {
          break;
        }
        if DataText.EndsAtom(c) {
          Ungetc();
          break;
        }
        word := word + [ToLower(c)];
        if Eof() {
          break;
        }
      }
      PutBuffer(word);
    }

    static lemma AtomStep(d: DataText.Device, word: string)
      ensures var c := DataText.Peek(d);
        var d1 := DataText.Getc(d);
        var w := DataText.CopyAtom(d1);
        if c == DataText.NUL then DataText.CopyAtom(d) == DataText.Word("", d1) && word + "" == word
        else if DataText.EndsAtom(c) then DataText.CopyAtom(d) == DataText.Word("", d) && word + "" == word
        else if DataText.AtEof(d1) then DataText.CopyAtom(d) == DataText.Word([ToLower(c)], d1)
        else
          DataText.CopyAtom(d) == DataText.Word([ToLower(c)] + w.chars, w.dev)
          && word + ([ToLower(c)] + w.chars) == (word + [ToLower(c)]) + w.chars
    {
    }

    method CopyNumber(op: string)
      modifies this
      ensures var w := DataText.CopyNumber(old(View())); View() == DataText.Filled(w.dev, op + w.chars)
    {
      hide DataText.CopyNumber;
      ghost var all := DataText.CopyNumber(View());
      var word := "";
      while true
        invariant buffer == old(buffer) && all.dev == DataText.CopyNumber(View()).dev
        invariant all.chars == word + DataText.CopyNumber(View()).chars
        decreases |text| - pos
      {
        NumberStep(View(), word);
        var c := Getc();
        if c == DataText.NUL {
          break;
        }
        if !DataText.InNumber(c) {
          Ungetc();
          break;
        }
        word := word + [c];
        if Eof() {
          break;
        }
      }
      PutBuffer(op + word);
    }

    static lemma NumberStep(d: DataText.Device, word: string)
      ensures var c := DataText.Peek(d);
        var d1 := DataText.Getc(d);
        var w := DataText.CopyNumber(d1);
        if c == DataText.NUL then DataText.CopyNumber(d) == DataText.Word("", d1) && word + "" == word
        else if !DataText.InNumber(c) then DataText.CopyNumber(d) == DataText.Word("", d) && word + "" == word
        else if DataText.AtEof(d1) then DataText.CopyNumber(d) == DataText.Word([c], d1)
        else
          DataText.CopyNumber(d) == DataText.Word([c] + w.chars, w.dev)
          && word + ([c] + w.chars) == (word + [c]) + w.chars
    {
    }

    method CopyString()
      modifies this
      ensures var w := DataText.CopyString(old(View())); View() == DataText.Filled(w.dev, w.chars)
    {
      hide DataText.CopyString;
      ghost var all := DataText.CopyString(View());
      var word := "";
      while true
        invariant buffer == old(buffer) && all.dev == DataText.CopyString(View()).dev
        invariant all.chars == word + DataText.CopyString(View()).chars
        decreases |text| - pos
      {
        StringStep(View(), word);
        var c := Getc();
        if c == DataText.NUL || c == '"' {
          break;
        }
        if c == '\\' {
          c := Getc();
          word := word + if c == '"' then "\"" else if c == DataText.NUL then "\\" else ['\\', c];
        } else {
          word := word + [c];
        }
        if Eof() {
          break;
        }
      }
      PutBuffer(word);
    }

    static function Piece(d: DataText.Device): string {
      var c, next := DataText.Peek(d), DataText.Peek(DataText.Getc(d));
      if c != '\\' then [c] else if next == '"' then [next] else if next == DataText.NUL then [c] else [c, next]
    }

    static lemma StringStep(d: DataText.Device, word: string)
      ensures var c := DataText.Peek(d);
        var d1 := DataText.Getc(d);
        var d2 := if c == '\\' then DataText.Getc(d1) else d1;
        var w := DataText.CopyString(d2);
        if c == DataText.NUL || c == '"' then DataText.CopyString(d) == DataText.Word("", d1) && word + "" == word
        else if DataText.AtEof(d2) then DataText.CopyString(d) == DataText.Word(Piece(d), d2)
        else
          DataText.CopyString(d) == DataText.Word(Piece(d) + w.chars, w.dev)
          && word + (Piece(d) + w.chars) == (word + Piece(d)) + w.chars
    {
    }

    /** Reads the rest of a comment; `ended` is false when the text ends in it. */
    method SkipComment() returns (ended: bool)
      modifies this`pos, this`count
      ensures View() == DataText.SkipComment(old(View())) && ended == DataText.CommentEnds(old(View()))
    {
      while true
        invariant DataText.SkipComment(View()) == DataText.SkipComment(old(View()))
        invariant DataText.CommentEnds(View()) == DataText.CommentEnds(old(View()))
        decreases |text| - pos
      {
        var c := Getc();
        if c == '\n' {
          return true;
        }
        if Eof() {
          return false;
        }
      }
    }

    /** Reads up to the end of the line; the character that ended it is a newline, or NUL at the end of the text. */
    method SkipLine() returns (c: char)
      modifies this`pos, this`count
      ensures View() == DataText.SkipLine(old(View()))
      ensures c == if DataText.LineEnds(old(View())) then '\n' else DataText.NUL
    {
      c := Getc();
      while c != DataText.NUL && c != '\n'
        invariant pos > 0 && c == DataText.Peek(DataText.Ungetc(View()))
        invariant DataText.SkipLine(DataText.Ungetc(View())) == DataText.SkipLine(old(View()))
        invariant DataText.LineEnds(DataText.Ungetc(View())) == DataText.LineEnds(old(View()))
        decreases |text| - pos
      {
        c := Getc();
      }
    }

    /** A word from the waiting sign on, or from the character just read. */
    method LexWord(op: string) returns (tok: DataText.Token)
      requires pos > (if op != "" then 1 else 0)
      modifies this
      ensures var d := DataText.Ungetc(old(View()));
        var l := DataText.LexWord(if op != "" then DataText.Ungetc(d) else d);
        tok == l.tok && View() == l.dev
    {
      if op != "" {
        Ungetc();
      }
      Ungetc();
      CopyAtom();
      if StrCaseCmp(buffer, "NIL") == 0 {
        tok := DataText.NIL;
      } else if StrCaseCmp(buffer, "T") == 0 {
        tok := DataText.TRUE;
      } else {
        tok := DataText.ATOM;
      }
    }

    method Lex() returns (tok: DataText.Token)
      modifies this
      ensures var l := DataText.Lex(old(View()), ""); tok == l.tok && View() == l.dev
    {
      hide DataText.Lex, DataText.LexWord, DataText.CopyNumber, DataText.CopyString, DataText.Filled;
      hide DataText.SkipLine, DataText.LineEnds, DataText.SkipComment, DataText.CommentEnds;
      var op := "";
      ghost var all := DataText.Lex(View(), "");
      while true
        invariant |op| <= 1 && (op != "" ==> pos > 0) && all == DataText.Lex(View(), op)
        decreases |text| - pos
      {
        Step(View(), op);
        ghost var d := View();
        var c := Getc();
        if c == DataText.NUL {
          return DataText.EOF;
        }
        if count == 1 && c == '#' {
          c := SkipLine();
        }
        if c as int == 255 {
          return DataText.EOF;
        } else if c == '\n' {
          count := 0;
        } else if c == '+' || c == '-' {
          if op != "" {
            buffer := op + op;
            return DataText.ATOM;
          }
          op := [c];
        } else if DataText.IsDigit(c) {
          Ungetc();
          CopyNumber(op);
          return DataText.NUMBER;
        } else if c == ' ' || c == ')' {
          if op != "" {
            buffer := op;
            if c == ')' {
              Ungetc();
            }
            return DataText.ATOM;
          }
          if c == ')' {
            return DataText.RBRACE;
          }
        } else if c == '"' {
          c := Getc();
          if c == '"' {
            return DataText.NIL;
          }
          Ungetc();
          CopyString();
          return DataText.STRING;
        } else if c == '(' {
          c := Getc();
          if c == ')' {
            return DataText.NIL;
          }
          Ungetc();
          return DataText.LBRACE;
        } else if c == '\'' || c == ':' {
          return DataText.QUOTE;
        } else if c == ';' {
          var ended := SkipComment();
          if !ended {
            return DataText.EOF;
          }
        } else if DataText.IsAlpha(c) || DataText.IsPunct(c) {
          tok := LexWord(op);
          return;
        }
      }
    }

    /** One turn of the lexer's loop. */
    static lemma Step(d: DataText.Device, op: string)
      requires |op| <= 1
      ensures var c := DataText.Peek(d);
        var d1 := DataText.Getc(d);
        DataText.Lex(d, op) ==
        if c == DataText.NUL || c as int == 255 then DataText.Lexed(DataText.EOF, d1)
        else if c == '#' && d1.count == 1 then
          var d2 := DataText.SkipLine(d1);
          DataText.Lex(if DataText.LineEnds(d1) then d2.(count := 0) else d2, op)
        else if c == '\n' then DataText.Lex(d1.(count := 0), op)
        else if c == '+' || c == '-' then
          if op != "" then DataText.Lexed(DataText.ATOM, d1.(buffer := op + op)) else DataText.Lex(d1, [c])
        else if DataText.IsDigit(c) then
          var w := DataText.CopyNumber(d);
          DataText.Lexed(DataText.NUMBER, DataText.Filled(w.dev, op + w.chars))
        else if c == ' ' || c == ')' then
          if op != "" then DataText.Lexed(DataText.ATOM, (if c == ')' then d else d1).(buffer := op))
          else if c == ')' then DataText.Lexed(DataText.RBRACE, d1)
          else DataText.Lex(d1, op)
        else if c == '"' then
          if DataText.Peek(d1) == '"' then DataText.Lexed(DataText.NIL, DataText.Getc(d1))
          else
            var w := DataText.CopyString(d1);
            DataText.Lexed(DataText.STRING, DataText.Filled(w.dev, w.chars))
        else if c == '(' then
          DataText.Lexed(if DataText.Peek(d1) == ')' then DataText.NIL else DataText.LBRACE,
                         if DataText.Peek(d1) == ')' then DataText.Getc(d1) else d1)
        else if c == '\'' || c == ':' then DataText.Lexed(DataText.QUOTE, d1)
        else if c == ';' then
          if DataText.CommentEnds(d1) then DataText.Lex(DataText.SkipComment(d1), op)
          else DataText.Lexed(DataText.EOF, DataText.SkipComment(d1))
        else if DataText.IsAlpha(c) || DataText.IsPunct(c) then
          DataText.LexWord(if op != "" then DataText.Ungetc(d) else d)
        else DataText.Lex(d1, op)
    {
      hide DataText.LexWord, DataText.CopyNumber, DataText.CopyString;
    }

    /** The tokens up to the end of the text, each with its word. */
    method Tokens(num: Lexing.Worth) returns (toks: seq<Reader.Token>)
      modifies this
      ensures toks == Lexing.Tokens(old(View()), num)
    {
      hide DataText.Lex;
      toks := [];
      while true
        invariant Lexing.Tokens(old(View()), num) == toks + Lexing.Tokens(View(), num)
        decreases Lexing.Rest(View())
      {
        ghost var d := View();
        if pos >= |text| { Lexing.PastTheEnd(d); }
        var tok := Lex();
        if tok == DataText.EOF {
          return;
        }
        var t := Lexing.WithWord(tok, buffer, num);
        Longer(toks, t, d, num);
        toks := toks + [t];
        if tok in {DataText.ATOM, DataText.NUMBER, DataText.STRING} {
          buffer := "";
        }
      }
    }

    static lemma Longer(toks: seq<Reader.Token>, t: Reader.Token, d: DataText.Device, num: Lexing.Worth)
      requires DataText.Lex(d, "").tok != DataText.EOF && t == Lexing.TokenOf(DataText.Lex(d, ""), num)
      ensures toks + Lexing.Tokens(d, num) == (toks + [t]) + Lexing.Tokens(Lexing.Taken(DataText.Lex(d, "")), num)
    {
      hide DataText.Lex;
      Lexing.FirstToken(d, num);
    }

    // ----- the reader -----

    /** The word in the buffer, which is then cleared. */
    method TakeBuffer() returns (word: string)
      modifies this`buffer
      ensures word == old(buffer) && buffer == ""
    {
      word := buffer;
      buffer := "";
    }

    method ParseToken(tok: DataText.Token, quoted: bool) returns (value: Option<DataText.Value>, bad: bool)
      modifies this
      ensures DataText.Parsed(value, View(), bad) == DataText.ParseToken(tok, quoted, old(View()))
      decreases |text| - pos, 2
    {
      value, bad := None, false;
      match tok
      case EOF => buffer := "";
      case RBRACE =>
      case ATOM =>
        var word := TakeBuffer();
        value := Some(DataText.Sym(word, quoted));
      case NUMBER =>
        var word := TakeBuffer();
        value := Some(DataText.Num(word));
      case STRING =>
        var word := TakeBuffer();
        value := Some(DataText.Str(word));
      case LBRACE =>
        var items;
        items, bad := ParseList();
        value := Some(DataText.List(items, true));
      case NIL => value := Some(DataText.Nil);
      case TRUE => value := Some(DataText.True);
      case QUOTE => bad := true;
    }

    method ParseValue() returns (value: Option<DataText.Value>, bad: bool)
      modifies this
      ensures DataText.Parsed(value, View(), bad) == DataText.ParseValue(old(View()))
      decreases |text| - pos, 0
    {
      var tok := Lex();
      var quoted := tok == DataText.QUOTE;
      if quoted {
        tok := Lex();
      }
      if tok == DataText.EOF {
        buffer := "";
        return None, false;
      }
      value, bad := ParseToken(tok, quoted);
    }

    /** Appends values to the list until there is none. */
    method ParseList() returns (items: DataText.Items, bad: bool)
      modifies this
      ensures DataText.ParsedItems(items, View(), bad) == DataText.ParseItems(old(View()))
      decreases |text| - pos, 1
    {
      var all: seq<DataText.Value> := [];
      ghost var whole := DataText.ParseItems(View());
      while true
        invariant old(pos) <= pos
        invariant var r := DataText.ParseItems(View());
          whole == DataText.ParsedItems(Listed(all, r.items), r.dev, r.fault)
        decreases |text| - pos
      {
        var value;
        value, bad := ParseValue();
        if bad || value.None? {
          break;
        }
        ListedLast(all, value.value, DataText.ParseItems(View()).items);
        all := all + [value.value];
      }
      items := Listed(all, DataText.Empty);
    }
  }

  /** The values as a list with more items after them. */
  function Listed(xs: seq<DataText.Value>, more: DataText.Items): DataText.Items {
    if xs == [] then more else DataText.Item(xs[0], Listed(xs[1..], more))
  }

  lemma {:induction false} ListedLast(xs: seq<DataText.Value>, x: DataText.Value, more: DataText.Items)
    ensures Listed(xs, DataText.Item(x, more)) == Listed(xs + [x], more)
  {
    if xs != [] {
      ListedLast(xs[1..], x, more);
      assert (xs + [x])[1..] == xs[1..] + [x];
    }
  }

  // ----- the printer: what it has written so far goes before what it writes next -----

  method PrintValue(v: DataText.Value, written: string) returns (out: string)
    ensures out == written + DataText.Print(v)
    decreases v, 1
  {
    match v
    case Nil => out := written + "NIL";
    case True => out := written + "T";
    case Num(n) => out := written + n;
    case Str(s) => out := written + ("\"" + s + "\"");
    case Sym(name, quoted) => out := written + if quoted then ":" + name else name;
    case List(items, quoted) => out := PrintList(items, quoted, written);
  }

  method PrintList(items: DataText.Items, quoted: bool, written: string) returns (out: string)
    ensures out == written + DataText.Print(DataText.List(items, quoted))
    decreases items, 2
  {
    if items == DataText.Empty {
      return written + "NIL";
    }
    hide DataText.Print, DataText.PrintItems;
    out := written + (if quoted then "'" else "") + "(";
    ghost var start := out;
    var rest := items;
    while rest != DataText.Empty
      invariant start + DataText.PrintItems(items) == out + DataText.PrintItems(rest)
      invariant rest == items || rest < items
      decreases rest
    {
      PrintedItem(out, rest);
      out := PrintValue(rest.head, out);
      if rest.tail != DataText.Empty {
        out := out + " ";
      }
      rest := rest.tail;
    }
    PrintedList(written, items, quoted, out);
    out := out + ")";
  }

  lemma PrintedItem(out: string, rest: DataText.Items)
    requires rest != DataText.Empty
    ensures var next := out + DataText.Print(rest.head);
      out + DataText.PrintItems(rest) ==
        (if rest.tail == DataText.Empty then next else next + " ") + DataText.PrintItems(rest.tail)
  {
    hide DataText.Print;
  }

  lemma PrintedList(written: string, items: DataText.Items, quoted: bool, out: string)
    requires items != DataText.Empty
    requires written + (if quoted then "'" else "") + "(" + DataText.PrintItems(items) ==
      out + DataText.PrintItems(DataText.Empty)
    ensures out + ")" == written + DataText.Print(DataText.List(items, quoted))
  {
    assert DataText.PrintItems(DataText.Empty) == "";
    var sign, inner := if quoted then "'" else "", DataText.PrintItems(items);
    assert DataText.Print(DataText.List(items, quoted)) == sign + "(" + inner + ")";
    assert written + (sign + "(" + inner + ")") == written + sign + "(" + inner + ")";
  }
}
