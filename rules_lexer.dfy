/** The tokenizer for GitLab `rules: if:` expressions: a two-state character
    scanner that splits an expression into brace tokens and text tokens,
    keeping quoted strings and /regex/ literals (spaces included) whole. */
module RulesLexer {
  import opened Wrappers

  // ---------------------------------------------------------------------
  // Characters

  /** WHITESPACE: space, tab, carriage return and newline. */
  predicate IsWs(c: char) {
    c == ' ' || c == '\t' || c == '\r' || c == '\n'
  }

  predicate IsBrace(c: char) {
    c == '(' || c == ')'
  }

  /** A text token starting with one of these runs to the same character. */
  predicate IsQuote(c: char) {
    c == '\'' || c == '"' || c == '/'
  }

  // ---------------------------------------------------------------------
  // Tokens

  datatype Token = Token(value: string, pos: int, complete: bool, quoted: bool)

  /** Token.text: a quoted token without its delimiters (Python's value[1:-1]). */
  function TokenText(t: Token): (s: string)
    ensures t.quoted && |t.value| >= 2 ==> t.value == [t.value[0]] + s + [t.value[|t.value| - 1]]
    ensures !t.quoted ==> s == t.value
  {
    if !t.quoted then t.value
    else if |t.value| >= 2 then t.value[1..|t.value| - 1]
    else ""
  }

  /** Token.first: the first character, or ValueError on an empty value. */
  function First(t: Token): (r: Result<char, string>)
    ensures r.Ok? <==> |t.value| > 0
    ensures r.Ok? ==> r.value == t.value[0]
  {
    if |t.value| > 0 then Ok(t.value[0]) else Err("ValueError")
  }

  // ---------------------------------------------------------------------
  // The scanner as functions of the text and a position

  datatype Mode = Start | Text

  /** Where skip_whitespace stops. */
  function SkipWs(text: string, p: nat): (q: nat)
    requires p <= |text|
    ensures p <= q <= |text|
    ensures q < |text| ==> !IsWs(text[q])
    ensures forall k :: p <= k < q ==> IsWs(text[k])
    decreases |text| - p
  {
    if p < |text| && IsWs(text[p]) then SkipWs(text, p + 1) else p
  }

  /** Where an unquoted token whose first character precedes p ends: the next
      whitespace or `)`, or the end of the text. */
  function UnquotedEnd(text: string, p: nat): (e: nat)
    requires p <= |text|
    ensures p <= e <= |text|
    ensures e < |text| ==> text[e] == ')' || IsWs(text[e])
    ensures forall k :: p <= k < e ==> text[k] != ')' && !IsWs(text[k])
    decreases |text| - p
  {
    if p == |text| || text[p] == ')' || IsWs(text[p]) then p else UnquotedEnd(text, p + 1)
  }

  /** The index of the next q at or after p, if any. */
  function QuoteEnd(text: string, q: char, p: nat): (e: Option<nat>)
    requires p <= |text|
    ensures e.Some? ==> p <= e.value < |text| && text[e.value] == q
    ensures e.Some? ==> forall k :: p <= k < e.value ==> text[k] != q
    ensures e.None? ==> forall k :: p <= k < |text| ==> text[k] != q
    decreases |text| - p
  {
    if p == |text| then None else if text[p] == q then Some(p) else QuoteEnd(text, q, p + 1)
  }

  /** The outcome of one ParserState.parse call: the token returned, if any,
      and the parser's position and state afterwards. */
  datatype Step = Step(token: Option<Token>, pos: nat, mode: Mode)

  /** ParserStateStart.parse: a brace becomes a one-character token whose pos
      is the index after it; any other character switches to the text state
      without being consumed. */
  function StartStep(text: string, pos: nat): (s: Step)
    requires pos <= |text|
    ensures s.pos <= |text|
    ensures pos < |text| ==> s.pos > pos || (s.pos == pos && s.mode.Text?)
  {
    var p := SkipWs(text, pos);
    if p == |text| then Step(None, p, Start)
    else if IsBrace(text[p]) then Step(Some(Token([text[p]], p + 1, true, false)), p + 1, Start)
    else Step(None, p, Text)
  }

  /** The token the text state reads when its first character is at p, and
      the index after it. A quoted token runs to the next identical character
      and is incomplete when there is none; an unquoted one stops before
      whitespace or `)`. */
  function ScanToken(text: string, p: nat): (r: (Token, nat))
    requires p < |text|
    ensures p < r.1 <= |text| && r.0.pos == p && r.0.value == text[p..r.1]
    ensures r.0.quoted <==> r.0.complete && IsQuote(text[p])
  {
    if IsQuote(text[p]) then
      match QuoteEnd(text, text[p], p + 1)
      case Some(e) => (Token(text[p..e + 1], p, true, true), e + 1)
      case None => (Token(text[p..], p, false, false), |text|)
    else
      var e := UnquotedEnd(text, p + 1);
      (Token(text[p..e], p, true, false), e)
  }

  /** ParserStateText.parse: one text token starting at the first character
      after whitespace. A quoted token runs to the next identical character;
      when there is none the token is left incomplete. */
  function TextStep(text: string, pos: nat): (s: Step)
    requires pos <= |text|
    ensures s.pos <= |text|
    ensures pos < |text| ==> s.pos > pos
  {
    var p := SkipWs(text, pos);
    if p == |text| then Step(None, p, Text)
    else
      var (t, e) := ScanToken(text, p);
      if t.complete then Step(Some(t), SkipWs(text, e), Start) else Step(Some(t), e, Text)
  }

  /** `self.state.parse()`: the step of whichever state the parser is in. */
  function Next(text: string, pos: nat, mode: Mode): (s: Step)
    requires pos <= |text|
    ensures s.pos <= |text|
    ensures pos < |text| ==> s.pos > pos || (s.pos == pos && mode.Start? && s.mode.Text?)
  {
    if mode.Start? then StartStep(text, pos) else TextStep(text, pos)
  }

  /** The tokens Parser.parse appends, and whether it returns (true) or raises
      SyntaxError on an incomplete token (false). */
  datatype Lexed = Lexed(tokens: seq<Token>, ok: bool)

  function Lex(text: string, pos: nat, mode: Mode): (r: Lexed)
    requires pos <= |text|
    decreases |text| - pos, if mode.Start? then 1 else 0
  {
    if pos == |text| then Lexed([], true)
    else
      var st := Next(text, pos, mode);
      match st.token
      case None => Lex(text, st.pos, st.mode)
      case Some(t) =>
        if !t.complete then Lexed([], false)
        else
          var rest := Lex(text, st.pos, st.mode);
          Lexed([t] + rest.tokens, rest.ok)
  }

  /** One step of Lex, spelled out for the parse loop. */
  lemma LexUnfold(text: string, pos: nat, mode: Mode)
    requires pos < |text|
    ensures var st := Next(text, pos, mode);
      Lex(text, pos, mode) ==
        if st.token.None? then Lex(text, st.pos, st.mode)
        else if !st.token.value.complete then Lexed([], false)
        else Lexed([st.token.value] + Lex(text, st.pos, st.mode).tokens, Lex(text, st.pos, st.mode).ok)
  {
  }

  function Tokenize(text: string): Lexed {
    Lex(text, 0, Start)
  }

  // ---------------------------------------------------------------------
  // What the tokens look like

  /** A brace token: one brace character, pos one past it in the text. */
  predicate BraceToken(text: string, t: Token) {
    |t.value| == 1 && IsBrace(t.value[0]) && 1 <= t.pos <= |text| && text[t.pos - 1] == t.value[0] &&
    !t.quoted
  }

  /** A text token: a non-empty slice of the text starting at pos with no
      leading whitespace or brace. Unquoted ones hold no whitespace and no `)`;
      quoted ones begin and end with the same quote character. */
  predicate TextToken(text: string, t: Token) {
    0 <= t.pos && t.pos + |t.value| <= |text| && text[t.pos..t.pos + |t.value|] == t.value &&
    |t.value| > 0 && !IsWs(t.value[0]) && !IsBrace(t.value[0]) &&
    (if t.quoted then
       |t.value| >= 2 && IsQuote(t.value[0]) && t.value[|t.value| - 1] == t.value[0]
     else
       !IsQuote(t.value[0]) && forall k :: 0 <= k < |t.value| ==> !IsWs(t.value[k]) && t.value[k] != ')')
  }

  /** The text state is only ever entered at a character that starts a text token. */
  predicate TextAt(text: string, pos: nat, mode: Mode) {
    pos <= |text| && (mode.Text? && pos < |text| ==> !IsWs(text[pos]) && !IsBrace(text[pos]))
  }

  /** Every token the lexer emits is complete and is a brace token or a text token. */
  lemma {:induction false} LexTokens(text: string, pos: nat, mode: Mode)
    requires TextAt(text, pos, mode)
    ensures forall t :: t in Lex(text, pos, mode).tokens ==>
              t.complete && (BraceToken(text, t) || TextToken(text, t))
    decreases |text| - pos, if mode.Start? then 1 else 0
  {
    if pos < |text| {
      var st := Next(text, pos, mode);
      if mode.Start? {
        StartStepShape(text, pos);
      } else {
        TextStepShape(text, pos);
      }
      LexTokens(text, st.pos, st.mode);
    }
  }

  lemma StartStepShape(text: string, pos: nat)
    requires pos < |text|
    ensures var st := StartStep(text, pos);
      TextAt(text, st.pos, st.mode) && (st.token.Some? ==> BraceToken(text, st.token.value))
  {
  }

  lemma TextStepShape(text: string, pos: nat)
    requires pos < |text| && TextAt(text, pos, Text)
    ensures var st := TextStep(text, pos);
      TextAt(text, st.pos, st.mode) &&
      (st.token.Some? && st.token.value.complete ==> TextToken(text, st.token.value))
  {
    assert SkipWs(text, pos) == pos;
    if IsQuote(text[pos]) {
      match QuoteEnd(text, text[pos], pos + 1)
      case Some(e) =>
        var v := text[pos..e + 1];
        assert v[0] == text[pos] && v[|v| - 1] == text[e];
      case None =>
    } else {
      var e := UnquotedEnd(text, pos + 1);
      var v := text[pos..e];
      assert forall k :: 0 <= k < |v| ==> v[k] == text[pos + k];
    }
  }

  /** parse raises SyntaxError only when some quote character has no partner
      after it. */
  lemma {:induction false} LexFailure(text: string, pos: nat, mode: Mode)
    requires pos <= |text|
    requires !Lex(text, pos, mode).ok
    ensures exists p :: pos <= p < |text| && IsQuote(text[p]) &&
              forall k :: p < k < |text| ==> text[k] != text[p]
    decreases |text| - pos, if mode.Start? then 1 else 0
  {
    var st := Next(text, pos, mode);
    if st.token.Some? && !st.token.value.complete {
      var p := SkipWs(text, pos);
      assert IsQuote(text[p]) && QuoteEnd(text, text[p], p + 1).None?;
    } else {
      LexFailure(text, st.pos, st.mode);
    }
  }

  /** Conversely, a text made only of unquoted words, braces and whitespace
      always lexes. */
  lemma {:induction false} LexNoQuotes(text: string, pos: nat, mode: Mode)
    requires pos <= |text|
    requires forall k :: pos <= k < |text| ==> !IsQuote(text[k])
    ensures Lex(text, pos, mode).ok
    decreases |text| - pos, if mode.Start? then 1 else 0
  {
    if pos < |text| {
      var st := Next(text, pos, mode);
      LexNoQuotes(text, st.pos, st.mode);
    }
  }

  /** `($A)`: braces on their own, with pos one past the brace. */
  lemma ParenExample()
    ensures Tokenize("($A)") ==
      Lexed([Token("(", 1, true, false), Token("$A", 1, true, false), Token(")", 4, true, false)], true)
  {
    var s := "($A)";
    assert StartStep(s, 0) == Step(Some(Token("(", 1, true, false)), 1, Start);
    assert StartStep(s, 1) == Step(None, 1, Text);
    assert UnquotedEnd(s, 2) == 3;
    assert s[1..3] == "$A";
    assert TextStep(s, 1) == Step(Some(Token("$A", 1, true, false)), 3, Start);
    assert StartStep(s, 3) == Step(Some(Token(")", 4, true, false)), 4, Start);
  }

  /** A regex literal keeps its space and its slashes. */
  lemma RegexExample()
    ensures Tokenize("$A =~ /a b/") ==
      Lexed([Token("$A", 0, true, false), Token("=~", 3, true, false), Token("/a b/", 6, true, true)], true)
  {
    var s := "$A =~ /a b/";
    assert StartStep(s, 0) == Step(None, 0, Text);
    assert UnquotedEnd(s, 1) == 2;
    assert SkipWs(s, 2) == 3;
    assert s[0..2] == "$A";
    assert TextStep(s, 0) == Step(Some(Token("$A", 0, true, false)), 3, Start);
    assert StartStep(s, 3) == Step(None, 3, Text);
    assert UnquotedEnd(s, 4) == 5;
    assert SkipWs(s, 5) == 6;
    assert s[3..5] == "=~";
    assert TextStep(s, 3) == Step(Some(Token("=~", 3, true, false)), 6, Start);
    assert StartStep(s, 6) == Step(None, 6, Text);
    assert QuoteEnd(s, '/', 7) == Some(10);
    assert s[6..11] == "/a b/";
    assert TextStep(s, 6) == Step(Some(Token("/a b/", 6, true, true)), 11, Start);
  }

  /** An unterminated string is a syntax error. */
  lemma UnterminatedExample()
    ensures !Tokenize("$A == \"x").ok
  {
    var s := "$A == \"x";
    assert TextStep(s, 0).pos == 3;
    assert TextStep(s, 3).pos == 6;
    assert QuoteEnd(s, '"', 7) == None;
    assert TextStep(s, 6).token == Some(Token(s[6..], 6, false, false));
  }

  // ---------------------------------------------------------------------
  // The Parser object

  class Parser {
    var tokens: seq<Token>
    var mode: Mode
    var text: string
    var pos: nat

    constructor ()
      ensures tokens == [] && mode == Start && text == "" && pos == 0
    {
      tokens := [];
      mode := Start;
      text := "";
      pos := 0;
    }

    predicate Eof()
      reads this
    {
      pos >= |text|
    }

    /** The next character as a one-character string, "" at the end. */
    function Peek(): (c: string)
      reads this
      ensures |c| <= 1 && (c == "" <==> Eof())
      ensures c != "" ==> c[0] == text[pos]
    {
      if pos < |text| then [text[pos]] else ""
    }

    method Advance()
      modifies this
      ensures pos == if old(pos) < |text| then old(pos) + 1 else old(pos)
      ensures text == old(text) && tokens == old(tokens) && mode == old(mode)
    {
      if pos < |text| {
        pos := pos + 1;
      }
    }

    method Read() returns (c: string)
      modifies this
      ensures c == old(Peek())
      ensures pos == if old(pos) < |text| then old(pos) + 1 else old(pos)
      ensures text == old(text) && tokens == old(tokens) && mode == old(mode)
    {
      c := Peek();
      Advance();
    }

    method SkipWhitespace()
      requires pos <= |text|
      modifies this
      ensures text == old(text) && tokens == old(tokens) && mode == old(mode)
      ensures pos == SkipWs(text, old(pos))
    {
      while pos < |text| && IsWs(text[pos])
        invariant old(pos) <= pos <= |text| && text == old(text)
        invariant SkipWs(text, old(pos)) == SkipWs(text, pos)
        invariant tokens == old(tokens) && mode == old(mode)
        decreases |text| - pos
      {
        Advance();
      }
    }

    /** ParserStateStart.parse. */
    method StartParse() returns (tok: Option<Token>)
      requires pos <= |text| && mode == Start
      modifies this
      ensures text == old(text) && tokens == old(tokens)
      ensures Step(tok, pos, mode) == StartStep(text, old(pos))
    {
      tok := None;
      SkipWhitespace();
      var c := Peek();
      if c != "" {
        if IsBrace(c[0]) {
          var value := Read();
          tok := Some(Token(value, pos, true, false));
        } else {
          mode := Text;
        }
      }
    }

    /** The token loop of ParserStateText.parse, entered after the first
        character (at start) has been read; the token's fields are locals. */
    method ReadToken(start: nat) returns (value: string, complete: bool, quoted: bool)
      requires start < pos == start + 1 <= |text|
      modifies this
      ensures text == old(text) && tokens == old(tokens) && mode == old(mode)
      ensures (Token(value, start, complete, quoted), pos) == ScanToken(text, start)
    {
      value := [text[start]];
      complete := false;
      quoted := false;
      var quote: Option<char> := None;
      if IsQuote(value[0]) {
        quote := Some(value[0]);
      }
      while pos < |text| && !complete
        invariant start < pos <= |text| && text == old(text) && tokens == old(tokens) && mode == old(mode)
        invariant value == text[start..pos]
        invariant quote == if IsQuote(text[start]) then Some(text[start]) else None
        invariant quoted == (quote.Some? && complete)
        invariant quote.Some? && !complete ==>
                    QuoteEnd(text, text[start], start + 1) == QuoteEnd(text, text[start], pos)
        invariant quote.Some? && complete ==> QuoteEnd(text, text[start], start + 1) == Some(pos - 1)
        invariant quote.None? && !complete ==> UnquotedEnd(text, start + 1) == UnquotedEnd(text, pos)
        invariant quote.None? && complete ==> UnquotedEnd(text, start + 1) == pos
        decreases |text| - pos, if complete then 0 else 1
      {
        var c := Peek();
        ghost var p0 := pos;
        assert text[start..p0 + 1] == text[start..p0] + [text[p0]];
        if quote.Some? {
          var ch := Read();
          value := value + ch;
          if c == [quote.value] {
            complete := true;
            quoted := true;
          }
        } else if c == ")" {
          complete := true;
        } else if IsWs(c[0]) {
          complete := true;
        } else {
          var ch := Read();
          value := value + ch;
        }
      }
      if quote.None? && !complete {
        complete := true;
      }
    }

    /** ParserStateText.parse. */
    method TextParse() returns (tok: Option<Token>)
      requires pos <= |text| && mode == Text
      modifies this
      ensures text == old(text) && tokens == old(tokens)
      ensures Step(tok, pos, mode) == TextStep(text, old(pos))
    {
      tok := None;
      SkipWhitespace();
      var c := Peek();
      if c != "" {
        var start := pos;
        var first := Read();
        var value, complete, quoted := ReadToken(start);
        if complete {
          SkipWhitespace();
          mode := Start;
        }
        tok := Some(Token(value, start, complete, quoted));
      }
    }

    /** `self.state.parse()`. */
    method StateParse() returns (tok: Option<Token>)
      requires pos <= |text|
      modifies this
      ensures text == old(text) && tokens == old(tokens)
      ensures Step(tok, pos, mode) == Next(text, old(pos), old(mode))
    {
      if mode.Start? {
        tok := StartParse();
      } else {
        tok := TextParse();
      }
    }

    /** Parser.parse: the tokens are appended to those of earlier calls, which
        are never cleared; an incomplete token raises SyntaxError after the
        tokens before it have been appended. */
    method Parse(t: string) returns (r: Result<seq<Token>, string>)
      modifies this
      ensures text == t
      ensures tokens == old(tokens) + Tokenize(t).tokens
      ensures r == if Tokenize(t).ok then Ok(tokens) else Err("SyntaxError")
    {
      mode := Start;
      pos := 0;
      text := t;
      ghost var all := Tokenize(t);
      ghost var init := tokens;
      while pos < |text|
        invariant pos <= |text| && text == t
        invariant init + all.tokens == tokens + Lex(t, pos, mode).tokens
        invariant all.ok == Lex(t, pos, mode).ok
        decreases |text| - pos, if mode.Start? then 1 else 0
      {
        ghost var before := Lex(t, pos, mode);
        ghost var st := Next(t, pos, mode);
        LexUnfold(t, pos, mode);
        var tok := StateParse();
        assert tok == st.token && pos == st.pos && mode == st.mode;
        if tok.Some? {
          if !tok.value.complete {
            return Err("SyntaxError");
          }
          ghost var rest := Lex(t, pos, mode).tokens;
          assert before.tokens == [tok.value] + rest;
          assert tokens + before.tokens == (tokens + [tok.value]) + rest;
          tokens := tokens + [tok.value];
        }
      }
      r := Ok(tokens);
    }
  }
}
