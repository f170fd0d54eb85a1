/** Removing comments from JSON with comments: a character automaton, and what it does to the text's tokens. */
module JsonComments {

  datatype Mode = Code | InString(quote: char, escaped: bool)

  datatype Token = Literal(text: string) | Plain(c: char) | LineComment | BlockComment

  predicate IsQuote(c: char) {
    c == '"' || c == '\''
  }

  predicate OpensLine(s: string) {
    |s| >= 2 && s[0] == '/' && s[1] == '/'
  }

  predicate OpensBlock(s: string) {
    |s| >= 2 && s[0] == '/' && s[1] == '*'
  }

  predicate ClosesBlock(s: string) {
    |s| >= 2 && s[0] == '*' && s[1] == '/'
  }

  /** What follows the end of the current line. */
  function AfterLine(s: string): (rest: string)
    ensures |rest| <= |s| && (s != "" ==> |rest| < |s|)
  {
    if s == "" then "" else if s[0] == '\n' then s[1..] else AfterLine(s[1..])
  }

  /** What follows the end of the current block comment. */
  function AfterBlock(s: string): (rest: string)
    ensures |rest| <= |s|
  {
    if s == "" then "" else if ClosesBlock(s) then s[2..] else AfterBlock(s[1..])
  }

  function NextMode(m: Mode, c: char): Mode
    requires m.InString?
  {
    if m.escaped then m.(escaped := false)
    else if c == '\\' then m.(escaped := true)
    else if c == m.quote then Code
    else m
  }

  /** What the automaton emits for `s` from a mode on. */
  function Strip(s: string, m: Mode): string
    decreases |s|
  {
    if s == "" then ""
    else if m.InString? then [s[0]] + Strip(s[1..], NextMode(m, s[0]))
    else if IsQuote(s[0]) then [s[0]] + Strip(s[1..], InString(s[0], false))
    else if OpensLine(s) then "\n" + Strip(AfterLine(s), Code)
    else if OpensBlock(s) then Strip(AfterBlock(s[2..]), Code)
    else [s[0]] + Strip(s[1..], Code)
  }

  /** The inner loop over a line comment. */
  method SkipLine(raw: string, start: nat) returns (i: nat)
    requires start <= |raw|
    ensures start <= i <= |raw| && raw[i..] == AfterLine(raw[start..])
    ensures start < |raw| ==> start < i
  {
    i := start;
    while i < |raw| && raw[i] != '\n'
      invariant start <= i <= |raw|
      invariant AfterLine(raw[i..]) == AfterLine(raw[start..])
    {
      assert raw[i..][1..] == raw[i + 1..];
      i := i + 1;
    }
    if i < |raw| {
      assert raw[i..][1..] == raw[i + 1..];
      i := i + 1;
    }
  }

  /** The inner loop over a block comment; an unterminated one reaches the end. */
  method SkipBlock(raw: string, start: nat) returns (i: nat)
    requires start <= |raw|
    ensures start <= i <= |raw| && raw[i..] == AfterBlock(raw[start..])
  {
    i := start;
    while i < |raw| && !(raw[i] == '*' && i + 1 < |raw| && raw[i + 1] == '/')
      invariant start <= i <= |raw|
      invariant AfterBlock(raw[i..]) == AfterBlock(raw[start..])
    {
      assert raw[i..][1..] == raw[i + 1..];
      i := i + 1;
    }
    if i < |raw| {
      assert ClosesBlock(raw[i..]) && raw[i..][2..] == raw[i + 2..];
      i := i + 2;
    }
  }

  /** What has been emitted, and what is still to come, make up the whole result. */
  ghost predicate Progress(raw: string, out: string, i: nat, mode: Mode)
    requires i <= |raw|
  {
    out + Strip(raw[i..], mode) == Strip(raw, Code)
  }

  lemma Emitted(raw: string, out: string, i: nat, mode: Mode, j: nat, text: string, next: Mode)
    requires i <= |raw| && j <= |raw| && Progress(raw, out, i, mode)
    requires Strip(raw[i..], mode) == text + Strip(raw[j..], next)
    ensures Progress(raw, out + text, j, next)
  {
    assert out + (text + Strip(raw[j..], next)) == (out + text) + Strip(raw[j..], next);
  }

  method StripJsonComments(raw: string) returns (out: string)
    ensures out == Strip(raw, Code)
  {
    hide Progress;
    out := "";
    var mode := Code;
    var i := 0;
    assert Progress(raw, out, i, mode) by { StartsInCode(raw); }
    while i < |raw|
      invariant 0 <= i <= |raw|
      invariant Progress(raw, out, i, mode)
    {
      var ch := raw[i];
      ghost var rest := raw[i..];
      assert rest[0] == ch && rest[1..] == raw[i + 1..];
      if mode.InString? {
        var next := mode;
        if mode.escaped {
          next := mode.(escaped := false);
        } else if ch == '\\' {
          next := mode.(escaped := true);
        } else if ch == mode.quote {
          next := Code;
        }
        Emitted(raw, out, i, mode, i + 1, [ch], next);
        out, mode, i := out + [ch], next, i + 1;
      } else if ch == '"' || ch == '\'' {
        Emitted(raw, out, i, mode, i + 1, [ch], InString(ch, false));
        out, mode, i := out + [ch], InString(ch, false), i + 1;
      } else if ch == '/' && i + 1 < |raw| && raw[i + 1] == '/' {
        assert OpensLine(rest);
        var j := SkipLine(raw, i);
        Emitted(raw, out, i, mode, j, "\n", Code);
        out, i := out + "\n", j;
      } else if ch == '/' && i + 1 < |raw| && raw[i + 1] == '*' {
        assert OpensBlock(rest) && rest[2..] == raw[i + 2..];
        var j := SkipBlock(raw, i + 2);
        Emitted(raw, out, i, mode, j, "", Code);
        assert out + "" == out;
        i := j;
      } else {
        Emitted(raw, out, i, mode, i + 1, [ch], Code);
        out, i := out + [ch], i + 1;
      }
    }
    Finished(raw, out, mode);
  }

  lemma StartsInCode(raw: string)
    ensures Progress(raw, "", 0, Code)
  {
    assert raw[0..] == raw;
  }

  lemma Finished(raw: string, out: string, mode: Mode)
    requires Progress(raw, out, |raw|, mode)
    ensures out == Strip(raw, Code)
  {
  }

  // ---------- Tokens ----------

  /** How far a string literal reaches once its opening quote has been read. */
  function LiteralEnd(s: string, m: Mode): (n: nat)
    requires m.InString?
    ensures n <= |s|
  {
    if s == "" then 0
    else
      var next := NextMode(m, s[0]);
      if next.Code? then 1 else 1 + LiteralEnd(s[1..], next)
  }

  function Lex(s: string): seq<Token>
    decreases |s|
  {
    if s == "" then []
    else if IsQuote(s[0]) then
      var n := 1 + LiteralEnd(s[1..], InString(s[0], false));
      [Literal(s[..n])] + Lex(s[n..])
    else if OpensLine(s) then [LineComment] + Lex(AfterLine(s))
    else if OpensBlock(s) then [BlockComment] + Lex(AfterBlock(s[2..]))
    else [Plain(s[0])] + Lex(s[1..])
  }

  /** A line comment becomes its line break, a block comment nothing. */
  function Uncommented(tokens: seq<Token>): seq<Token> {
    if tokens == [] then []
    else
      match tokens[0]
      case LineComment => [Plain('\n')] + Uncommented(tokens[1..])
      case BlockComment => Uncommented(tokens[1..])
      case _ => [tokens[0]] + Uncommented(tokens[1..])
  }

  function Render(tokens: seq<Token>): string {
    if tokens == [] then ""
    else
      (match tokens[0]
       case Literal(text) => text
       case Plain(c) => [c]
       case _ => "") + Render(tokens[1..])
  }

  lemma {:induction false} StripInsideLiteral(s: string, m: Mode)
    requires m.InString?
    ensures Strip(s, m) == s[..LiteralEnd(s, m)] + Strip(s[LiteralEnd(s, m)..], Code)
    decreases |s|
  {
    if s != "" {
      var next := NextMode(m, s[0]);
      if next.InString? {
        var n := LiteralEnd(s[1..], next);
        StripInsideLiteral(s[1..], next);
        assert s[..n + 1] == [s[0]] + s[1..][..n];
        assert s[n + 1..] == s[1..][n..];
      }
    }
  }

  lemma UncommentedCons(t: Token, rest: seq<Token>)
    ensures Uncommented([t] + rest) ==
      match t
      case LineComment => [Plain('\n')] + Uncommented(rest)
      case BlockComment => Uncommented(rest)
      case _ => [t] + Uncommented(rest)
  {
    assert ([t] + rest)[1..] == rest;
  }

  lemma RenderCons(t: Token, rest: seq<Token>)
    ensures Render([t] + rest) ==
      (match t
       case Literal(text) => text
       case Plain(c) => [c]
       case _ => "") + Render(rest)
  {
    assert ([t] + rest)[1..] == rest;
  }

  /** Stripping is: read the tokens, drop the comments, write the rest back. */
  lemma {:induction false} StripIsUncommenting(s: string)
    ensures Strip(s, Code) == Render(Uncommented(Lex(s)))
    decreases |s|, 1
  {
    hide Render, Uncommented, LiteralEnd;
    if s == "" {
      NothingToRender();
    } else if IsQuote(s[0]) {
      LiteralCase(s);
    } else if OpensLine(s) {
      StripIsUncommenting(AfterLine(s));
      UncommentedCons(LineComment, Lex(AfterLine(s)));
      RenderCons(Plain('\n'), Uncommented(Lex(AfterLine(s))));
    } else if OpensBlock(s) {
      StripIsUncommenting(AfterBlock(s[2..]));
      UncommentedCons(BlockComment, Lex(AfterBlock(s[2..])));
    } else {
      StripIsUncommenting(s[1..]);
      UncommentedCons(Plain(s[0]), Lex(s[1..]));
      RenderCons(Plain(s[0]), Uncommented(Lex(s[1..])));
    }
  }

  lemma NothingToRender()
    ensures Render(Uncommented([])) == ""
  {
  }

  /** The length of the literal a text starts with, quotes included. */
  function LiteralLength(s: string): (n: nat)
    requires s != "" && IsQuote(s[0])
    ensures 1 <= n <= |s|
  {
    1 + LiteralEnd(s[1..], InString(s[0], false))
  }

  lemma StripLiteral(s: string)
    requires s != "" && IsQuote(s[0])
    ensures Strip(s, Code) == s[..LiteralLength(s)] + Strip(s[LiteralLength(s)..], Code)
    ensures Lex(s) == [Literal(s[..LiteralLength(s)])] + Lex(s[LiteralLength(s)..])
  {
    LexLiteral(s);
    hide Lex, LiteralEnd;
    var n := LiteralEnd(s[1..], InString(s[0], false));
    StripInsideLiteral(s[1..], InString(s[0], false));
    TakeAndDrop(s, n, Strip(s[n + 1..], Code));
  }

  lemma TakeAndDrop(s: string, n: nat, tail: string)
    requires n < |s|
    ensures s[1..][n..] == s[n + 1..]
    ensures [s[0]] + (s[1..][..n] + tail) == s[..n + 1] + tail
  {
    assert s[..n + 1] == [s[0]] + s[1..][..n];
  }

  lemma LexLiteral(s: string)
    requires s != "" && IsQuote(s[0])
    ensures Lex(s) == [Literal(s[..LiteralLength(s)])] + Lex(s[LiteralLength(s)..])
  {
  }

  lemma {:induction false} LiteralCase(s: string)
    requires s != "" && IsQuote(s[0])
    ensures Strip(s, Code) == Render(Uncommented(Lex(s)))
    decreases |s|, 0
  {
    hide Render, Uncommented, LiteralLength, Strip, Lex;
    var n := LiteralLength(s);
    StripLiteral(s);
    StripIsUncommenting(s[n..]);
    UncommentedCons(Literal(s[..n]), Lex(s[n..]));
    RenderCons(Literal(s[..n]), Uncommented(Lex(s[n..])));
  }

  // ---------- What is left ----------

  predicate WholeLiteral(text: string) {
    text != "" && IsQuote(text[0]) && LiteralLength(text) == |text|
  }

  /** A literal whose closing quote has been read. */
  predicate Closed(text: string)
    requires WholeLiteral(text)
  {
    Closes(text[1..], InString(text[0], false))
  }

  predicate Closes(s: string, m: Mode)
    requires m.InString?
  {
    s != "" && (NextMode(m, s[0]).Code? || Closes(s[1..], NextMode(m, s[0])))
  }

  /** Tokens that reading their own text gives back: nothing in it opens a comment outside a literal. */
  predicate Fine(tokens: seq<Token>) {
    tokens == [] || (FineToken(tokens[0], tokens[1..]) && Fine(tokens[1..]))
  }

  predicate FineToken(t: Token, rest: seq<Token>) {
    match t
    case Literal(text) => WholeLiteral(text) && (rest == [] || Closed(text))
    case Plain(c) => !IsQuote(c) && (c == '/' && rest != [] ==> rest[0] != Plain('/') && rest[0] != Plain('*'))
    case _ => false
  }

  lemma {:induction false} LiteralEndStops(s: string, m: Mode)
    requires m.InString?
    ensures LiteralEnd(s[..LiteralEnd(s, m)], m) == LiteralEnd(s, m)
    ensures LiteralEnd(s, m) < |s| ==> Closes(s[..LiteralEnd(s, m)], m)
  {
    if s != "" {
      var next := NextMode(m, s[0]);
      if next.InString? {
        LiteralEndStops(s[1..], next);
        assert s[..LiteralEnd(s, m)][1..] == s[1..][..LiteralEnd(s[1..], next)];
      }
    }
  }

  lemma {:induction false} LiteralEndOfClosed(text: string, rest: string, m: Mode)
    requires m.InString? && Closes(text, m) && LiteralEnd(text, m) == |text|
    ensures LiteralEnd(text + rest, m) == |text|
  {
    var next := NextMode(m, text[0]);
    assert (text + rest)[1..] == text[1..] + rest;
    if next.InString? {
      LiteralEndOfClosed(text[1..], rest, next);
    }
  }

  /** Reading the text of fine tokens gives the tokens back. */
  lemma {:induction false} LexOfRendered(tokens: seq<Token>)
    requires Fine(tokens)
    ensures Lex(Render(tokens)) == tokens
  {
    if tokens != [] {
      var rest := tokens[1..];
      LexOfRendered(rest);
      match tokens[0]
      case Literal(text) => LexOfLiteral(text, rest);
      case Plain(c) => LexOfPlain(c, rest);
      assert tokens == [tokens[0]] + rest;
    }
  }

  lemma LexOfLiteral(text: string, rest: seq<Token>)
    requires FineToken(Literal(text), rest) && Lex(Render(rest)) == rest
    ensures Lex(text + Render(rest)) == [Literal(text)] + rest
  {
    hide Lex;
    var all := text + Render(rest);
    assert LiteralLength(all) == |text| by {
      assert all[1..] == text[1..] + Render(rest);
      if rest == [] {
        assert all == text;
      } else {
        LiteralEndOfClosed(text[1..], Render(rest), InString(text[0], false));
      }
    }
    StripLiteral(all);
    assert all[..|text|] == text && all[|text|..] == Render(rest);
  }

  lemma LexOfPlain(c: char, rest: seq<Token>)
    requires FineToken(Plain(c), rest) && Fine(rest) && Lex(Render(rest)) == rest
    ensures Lex([c] + Render(rest)) == [Plain(c)] + rest
  {
    var all := [c] + Render(rest);
    assert all[1..] == Render(rest);
    if rest != [] {
      assert Render(rest) != "" && (rest[0].Plain? ==> Render(rest)[0] == rest[0].c)
        && (rest[0].Literal? ==> IsQuote(Render(rest)[0]));
    }
    assert !OpensLine(all) && !OpensBlock(all);
  }

  lemma {:induction false} UncommentedIsFine(s: string)
    ensures Fine(Uncommented(Lex(s)))
    ensures s != "" && !OpensLine(s) && !OpensBlock(s) ==>
      Uncommented(Lex(s)) != [] && Uncommented(Lex(s))[0] == Lex(s)[0]
    decreases |s|
  {
    if s == "" {
    } else if IsQuote(s[0]) {
      var n := LiteralLength(s);
      StripLiteral(s);
      UncommentedIsFine(s[n..]);
      UncommentedCons(Literal(s[..n]), Lex(s[n..]));
      LiteralIsWhole(s);
      LexEmpty(s[n..]);
    } else if OpensLine(s) {
      UncommentedIsFine(AfterLine(s));
      UncommentedCons(LineComment, Lex(AfterLine(s)));
    } else if OpensBlock(s) {
      UncommentedIsFine(AfterBlock(s[2..]));
      UncommentedCons(BlockComment, Lex(AfterBlock(s[2..])));
    } else {
      UncommentedIsFine(s[1..]);
      UncommentedCons(Plain(s[0]), Lex(s[1..]));
    }
  }

  lemma LiteralIsWhole(s: string)
    requires s != "" && IsQuote(s[0])
    ensures WholeLiteral(s[..LiteralLength(s)])
    ensures LiteralLength(s) < |s| ==> Closed(s[..LiteralLength(s)])
  {
    var n := LiteralLength(s);
    LiteralEndStops(s[1..], InString(s[0], false));
    assert s[..n][1..] == s[1..][..n - 1];
  }

  lemma LexEmpty(s: string)
    ensures s == "" ==> Uncommented(Lex(s)) == []
  {
  }

  /**
   The tokens of the stripped text are those of the text without its comments: every literal verbatim, every
   other character in place, a line break for a line comment, and nothing that opens a comment again.
   */
  lemma TokensOfStripped(s: string)
    ensures Lex(Strip(s, Code)) == Uncommented(Lex(s))
    ensures LineComment !in Lex(Strip(s, Code)) && BlockComment !in Lex(Strip(s, Code))
  {
    hide Lex, Render, Strip, Uncommented;
    StripIsUncommenting(s);
    UncommentedIsFine(s);
    LexOfRendered(Uncommented(Lex(s)));
    FineHasNoComments(Uncommented(Lex(s)));
  }

  lemma {:induction false} FineHasNoComments(tokens: seq<Token>)
    requires Fine(tokens)
    ensures LineComment !in tokens && BlockComment !in tokens && Uncommented(tokens) == tokens
  {
    if tokens != [] {
      FineHasNoComments(tokens[1..]);
      assert tokens == [tokens[0]] + tokens[1..];
    }
  }

  /** Stripping again changes nothing. */
  lemma StrippingTwice(s: string)
    ensures Strip(Strip(s, Code), Code) == Strip(s, Code)
  {
    hide Lex, Render, Strip, Uncommented;
    TokensOfStripped(s);
    UncommentedIsFine(s);
    FineHasNoComments(Uncommented(Lex(s)));
    StripIsUncommenting(s);
    StripIsUncommenting(Strip(s, Code));
  }

  lemma {:induction false} RenderOfLex(s: string)
    requires LineComment !in Lex(s) && BlockComment !in Lex(s)
    ensures Uncommented(Lex(s)) == Lex(s) && Render(Lex(s)) == s
    decreases |s|
  {
    assert s != "" ==> Lex(s)[0] in Lex(s);
    if s == "" {
    } else if IsQuote(s[0]) {
      var n := LiteralLength(s);
      StripLiteral(s);
      RenderOfLex(s[n..]);
      UncommentedCons(Literal(s[..n]), Lex(s[n..]));
      RenderCons(Literal(s[..n]), Lex(s[n..]));
      assert s == s[..n] + s[n..];
    } else if !OpensLine(s) && !OpensBlock(s) {
      RenderOfLex(s[1..]);
      UncommentedCons(Plain(s[0]), Lex(s[1..]));
      RenderCons(Plain(s[0]), Lex(s[1..]));
      assert s == [s[0]] + s[1..];
    }
  }

  /** Stripping is the identity on exactly the texts without comments. */
  lemma IdentityExactly(s: string)
    ensures Strip(s, Code) == s <==> LineComment !in Lex(s) && BlockComment !in Lex(s)
  {
    hide Lex, Render, Strip, Uncommented;
    TokensOfStripped(s);
    StripIsUncommenting(s);
    if LineComment !in Lex(s) && BlockComment !in Lex(s) {
      RenderOfLex(s);
    }
  }
}
