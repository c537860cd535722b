/** The slash command tokenizer (src/commands/parser.ts:31-103), on UTF-16 code units. */
module SlashLexer {
  import opened Messages
  import opened Utf16

  const MAX_SLASH_INPUT_CHARS: nat := 64 * 1024
  const MAX_SLASH_TOKENS: nat := 128
  const MAX_SLASH_TOKEN_CHARS: nat := 32 * 1024

  const SLASH: Unit := 47
  const ESCAPE: Unit := 92
  const SINGLE: Unit := 39
  const DOUBLE: Unit := 34
  const SPACE: Unit := 32

  datatype Code = InputTooLarge | InvalidControl | TokenTooLarge | TooManyTokens | DanglingEscape | UnterminatedQuote

  datatype Lexed = Chat(content: Units) | Command(tokens: seq<Units>) | Refused(code: Code)

  /** The class \s of a regular expression. */
  predicate IsSpace(u: Unit) {
    || 9 <= u <= 13 || u == 32 || u == 0xA0 || u == 0x1680 || 0x2000 <= u <= 0x200A
    || u == 0x2028 || u == 0x2029 || u == 0x202F || u == 0x205F || u == 0x3000 || u == 0xFEFF
  }

  predicate UnsafeControl(u: Unit) {
    u <= 8 || u == 0xB || u == 0xC || 0xE <= u <= 0x1F || u == 0x7F
  }

  predicate IsQuote(u: Unit) {
    u == SINGLE || u == DOUBLE
  }

  predicate Printable(input: Units) {
    forall i :: 0 <= i < |input| ==> !UnsafeControl(input[i])
  }

  // ---- The loop's state, and what one character does to it ----

  datatype State =
    | Lexing(tokens: seq<Units>, token: Units, started: bool, quote: Option<Unit>, escaping: bool)
    | Stopped(code: Code)

  const START: State := Lexing([], [], false, None, false)

  /** finishToken */
  function Finish(s: State): State {
    match s
    case Lexing(tokens, token, started, quote, escaping) =>
      if !started then s
      else if |token| > MAX_SLASH_TOKEN_CHARS then Stopped(TokenTooLarge)
      else if |tokens| + 1 > MAX_SLASH_TOKENS then Stopped(TooManyTokens)
      else Lexing(tokens + [token], [], false, quote, escaping)
    case Stopped(_) => s
  }

  function Next(s: State, c: Unit): State {
    match s
    case Stopped(_) => s
    case Lexing(tokens, token, started, quote, escaping) =>
      if escaping then Lexing(tokens, token + [c], true, quote, false)
      else if c == ESCAPE then Lexing(tokens, token, true, quote, true)
      else if quote.Some? then
        if c == quote.value then Lexing(tokens, token, started, None, false)
        else Lexing(tokens, token + [c], started, quote, false)
      else if IsQuote(c) then Lexing(tokens, token, true, Some(c), false)
      else if IsSpace(c) then Finish(s)
      else Lexing(tokens, token + [c], true, None, false)
  }

  function Run(s: State, text: Units): State {
    if text == [] then s else Next(Run(s, text[..|text| - 1]), text[|text| - 1])
  }

  function Ended(s: State): Lexed {
    match s
    case Stopped(code) => Refused(code)
    case Lexing(_, _, _, quote, escaping) =>
      if escaping then Refused(DanglingEscape)
      else if quote.Some? then Refused(UnterminatedQuote)
      else
        match Finish(s)
        case Stopped(code) => Refused(code)
        case Lexing(tokens, _, _, _, _) => Command(tokens)
  }

  function Lex(input: Units): Lexed {
    if input == [] || input[0] != SLASH then Chat(input)
    else if |input| > MAX_SLASH_INPUT_CHARS then Refused(InputTooLarge)
    else if !Printable(input) then Refused(InvalidControl)
    else Ended(Run(START, input[1..]))
  }

  lemma {:induction false} RunOne(s: State, text: Units, c: Unit)
    ensures Run(s, text + [c]) == Next(Run(s, text), c)
  {
    assert (text + [c])[..|text|] == text;
  }

  lemma {:induction false} RunConcat(s: State, a: Units, b: Units)
    ensures Run(s, a + b) == Run(Run(s, a), b)
  {
    if b == [] {
      assert a + b == a;
    } else {
      var init, last := b[..|b| - 1], b[|b| - 1];
      RunConcat(s, a, init);
      assert a + b == (a + init) + [last];
      RunOne(s, a + init, last);
    }
  }

  lemma {:induction false} StoppedStays(s: State, text: Units)
    requires s.Stopped?
    ensures Run(s, text) == s
  {
    if text != [] { StoppedStays(s, text[..|text| - 1]); }
  }

  /** tokenizeSlashInput */
  method TokenizeSlashInput(input: Units) returns (r: Lexed)
    ensures r == Lex(input)
  {
    if |input| == 0 || input[0] != SLASH { return Chat(input); }
    if |input| > MAX_SLASH_INPUT_CHARS { return Refused(InputTooLarge); }
    for i := 0 to |input|
      invariant Printable(input[..i])
    {
      if UnsafeControl(input[i]) { return Refused(InvalidControl); }
    }
    assert input[..|input|] == input;
    var tokens: seq<Units>, token: Units, started, quote: Option<Unit>, escaping := [], [], false, None, false;
    for i := 1 to |input|
      invariant Run(START, input[1..i]) == Lexing(tokens, token, started, quote, escaping)
    {
      var c := input[i];
      assert input[1..i + 1] == input[1..i] + [c];
      RunOne(START, input[1..i], c);
      if escaping {
        token, started, escaping := token + [c], true, false;
      } else if c == ESCAPE {
        escaping, started := true, true;
      } else if quote.Some? {
        if c == quote.value { quote := None; } else { token := token + [c]; }
      } else if IsQuote(c) {
        quote, started := Some(c), true;
      } else if IsSpace(c) {
        if started {
          if |token| > MAX_SLASH_TOKEN_CHARS { Refuses(input, i + 1, TokenTooLarge); return Refused(TokenTooLarge); }
          tokens := tokens + [token];
          if |tokens| > MAX_SLASH_TOKENS { Refuses(input, i + 1, TooManyTokens); return Refused(TooManyTokens); }
          token, started := [], false;
        }
      } else {
        token, started := token + [c], true;
      }
    }
    assert input[1..|input|] == input[1..];
    if escaping { return Refused(DanglingEscape); }
    if quote.Some? { return Refused(UnterminatedQuote); }
    if started {
      if |token| > MAX_SLASH_TOKEN_CHARS { return Refused(TokenTooLarge); }
      tokens := tokens + [token];
      if |tokens| > MAX_SLASH_TOKENS { return Refused(TooManyTokens); }
    }
    r := Command(tokens);
  }

  lemma {:induction false} Refuses(input: Units, i: nat, code: Code)
    requires 1 <= i <= |input| && input[0] == SLASH && |input| <= MAX_SLASH_INPUT_CHARS && Printable(input)
    requires Run(START, input[1..i]) == Stopped(code)
    ensures Lex(input) == Refused(code)
  {
    assert input[1..] == input[1..i] + input[i..];
    RunConcat(START, input[1..i], input[i..]);
    StoppedStays(Stopped(code), input[i..]);
  }

  // ---- The spellings of a line of tokens ----

  /** What stands between two quotes, in order. */
  datatype Inner = NoInner | AsIs(init: Inner, unit: Unit) | After(init: Inner, unit: Unit)

  /** A word's parts, in order: a character as it is, one after a backslash, or a quoted stretch. */
  datatype Parts =
    | NoParts
    | Plain(init: Parts, unit: Unit)
    | Escaped(init: Parts, unit: Unit)
    | Quoted(init: Parts, mark: Unit, inner: Inner)

  /** Words, each after the white space in front of it. */
  datatype Words = NoWords | Word(init: Words, gap: Units, parts: Parts)

  /** A slash, words, and white space after them. */
  datatype Line = Line(words: Words, tail: Units)

  function InnerText(inner: Inner): Units {
    match inner
    case NoInner => []
    case AsIs(init, unit) => InnerText(init) + [unit]
    case After(init, unit) => InnerText(init) + [ESCAPE, unit]
  }

  function InnerValue(inner: Inner): Units {
    match inner
    case NoInner => []
    case AsIs(init, unit) => InnerValue(init) + [unit]
    case After(init, unit) => InnerValue(init) + [unit]
  }

  predicate InnerOk(mark: Unit, inner: Inner) {
    match inner
    case NoInner => true
    case AsIs(init, unit) => unit != mark && unit != ESCAPE && InnerOk(mark, init)
    case After(init, _) => InnerOk(mark, init)
  }

  function PartsText(parts: Parts): Units {
    match parts
    case NoParts => []
    case Plain(init, unit) => PartsText(init) + [unit]
    case Escaped(init, unit) => PartsText(init) + [ESCAPE, unit]
    case Quoted(init, mark, inner) => PartsText(init) + [mark] + InnerText(inner) + [mark]
  }

  function PartsValue(parts: Parts): Units {
    match parts
    case NoParts => []
    case Plain(init, unit) => PartsValue(init) + [unit]
    case Escaped(init, unit) => PartsValue(init) + [unit]
    case Quoted(init, _, inner) => PartsValue(init) + InnerValue(inner)
  }

  predicate PartsOk(parts: Parts) {
    match parts
    case NoParts => true
    case Plain(init, unit) => unit != ESCAPE && !IsQuote(unit) && !IsSpace(unit) && PartsOk(init)
    case Escaped(init, _) => PartsOk(init)
    case Quoted(init, mark, inner) => IsQuote(mark) && InnerOk(mark, inner) && PartsOk(init)
  }

  predicate Spaces(gap: Units) {
    forall i :: 0 <= i < |gap| ==> IsSpace(gap[i])
  }

  function WordsText(words: Words): Units {
    match words
    case NoWords => []
    case Word(init, gap, parts) => WordsText(init) + gap + PartsText(parts)
  }

  function Values(words: Words): seq<Units> {
    match words
    case NoWords => []
    case Word(init, _, parts) => Values(init) + [PartsValue(parts)]
  }

  /** No word is nothing at all, and white space keeps words apart. */
  predicate WordsOk(words: Words) {
    match words
    case NoWords => true
    case Word(init, gap, parts) =>
      WordsOk(init) && Spaces(gap) && (init.Word? ==> gap != []) && parts != NoParts && PartsOk(parts)
  }

  predicate LineOk(line: Line) {
    WordsOk(line.words) && Spaces(line.tail)
  }

  function LineText(line: Line): Units {
    [SLASH] + WordsText(line.words) + line.tail
  }

  /** The limits on tokens. */
  predicate Fits(tokens: seq<Units>) {
    |tokens| <= MAX_SLASH_TOKENS && forall i :: 0 <= i < |tokens| ==> |tokens[i]| <= MAX_SLASH_TOKEN_CHARS
  }

  // ---- Every spelling reads back ----

  lemma {:induction false} RunInner(tokens: seq<Units>, token: Units, mark: Unit, inner: Inner)
    requires InnerOk(mark, inner)
    ensures Run(Lexing(tokens, token, true, Some(mark), false), InnerText(inner))
         == Lexing(tokens, token + InnerValue(inner), true, Some(mark), false)
  {
    var s := Lexing(tokens, token, true, Some(mark), false);
    match inner
    case NoInner => assert token + [] == token;
    case AsIs(init, unit) =>
      RunInner(tokens, token, mark, init);
      RunOne(s, InnerText(init), unit);
      TokenGrows(token, InnerValue(init), unit);
    case After(init, unit) =>
      RunInner(tokens, token, mark, init);
      RunEscaped(s, InnerText(init), unit);
      TokenGrows(token, InnerValue(init), unit);
  }

  lemma {:induction false} TokenGrows(token: Units, value: Units, unit: Unit)
    ensures token + value + [unit] == token + (value + [unit])
  {
  }

  lemma {:induction false} RunEscaped(s: State, text: Units, unit: Unit)
    ensures Run(s, text + [ESCAPE, unit]) == Next(Next(Run(s, text), ESCAPE), unit)
  {
    var escaped := text + [ESCAPE];
    OneByOne(text, ESCAPE, unit);
    RunOne(s, text, ESCAPE);
    RunOne(s, escaped, unit);
  }

  lemma {:induction false} OneByOne(text: Units, a: Unit, b: Unit)
    ensures text + [a, b] == text + [a] + [b]
  {
  }

  lemma {:induction false} RunParts(tokens: seq<Units>, parts: Parts)
    requires PartsOk(parts)
    ensures Run(Lexing(tokens, [], false, None, false), PartsText(parts))
         == Lexing(tokens, PartsValue(parts), parts != NoParts, None, false)
  {
    var s := Lexing(tokens, [], false, None, false);
    match parts
    case NoParts =>
    case Plain(init, unit) =>
      RunParts(tokens, init);
      RunOne(s, PartsText(init), unit);
    case Escaped(init, unit) =>
      RunParts(tokens, init);
      RunOne(s, PartsText(init), ESCAPE);
      RunOne(s, PartsText(init) + [ESCAPE], unit);
      assert PartsText(parts) == PartsText(init) + [ESCAPE] + [unit];
    case Quoted(init, mark, inner) =>
      RunParts(tokens, init);
      RunOne(s, PartsText(init), mark);
      RunConcat(s, PartsText(init) + [mark], InnerText(inner));
      RunInner(tokens, PartsValue(init), mark, inner);
      RunOne(s, PartsText(init) + [mark] + InnerText(inner), mark);
  }

  /** White space outside quotes finishes the token, once. */
  lemma {:induction false} RunGap(s: State, gap: Units)
    requires Spaces(gap) && s.Lexing? && s.quote.None? && !s.escaping
    ensures Run(s, gap) == if gap == [] then s else Finish(s)
  {
    if gap != [] {
      RunGap(s, gap[..|gap| - 1]);
    }
  }

  /** The state after a line's words: the last of them is still to be finished. */
  function AfterWords(words: Words): State {
    match words
    case NoWords => START
    case Word(init, _, parts) => Lexing(Values(init), PartsValue(parts), true, None, false)
  }

  lemma {:induction false} FinishedWords(words: Words)
    requires AfterWords(words).Lexing? && (words.Word? ==> Fits(Values(words.init)))
    ensures Fits(Values(words)) ==> Finish(AfterWords(words)) == Lexing(Values(words), [], false, None, false)
    ensures !Fits(Values(words)) ==> Finish(AfterWords(words)).Stopped?
  {
    match words
    case NoWords =>
    case Word(init, _, parts) =>
      var before, all := Values(init), Values(words);
      assert all[|before|] == PartsValue(parts);
      assert forall i :: 0 <= i < |before| ==> all[i] == before[i];
  }

  lemma {:induction false} RunWords(words: Words)
    requires WordsOk(words)
    ensures words.Word? && !Fits(Values(words.init)) ==> Run(START, WordsText(words)).Stopped?
    ensures (words.Word? ==> Fits(Values(words.init))) ==> Run(START, WordsText(words)) == AfterWords(words)
  {
    match words
    case NoWords =>
    case Word(init, gap, parts) =>
      RunWords(init);
      RunConcat(START, WordsText(init), gap);
      RunConcat(START, WordsText(init) + gap, PartsText(parts));
      var before := Run(START, WordsText(init));
      if before.Stopped? {
        StoppedStays(before, gap);
        StoppedStays(before, PartsText(parts));
        FewerFit(init);
      } else {
        FinishedWords(init);
        RunGap(before, gap);
        var after := Run(before, gap);
        if after.Stopped? { StoppedStays(after, PartsText(parts)); } else { RunParts(Values(init), parts); }
      }
  }

  lemma {:induction false} FewerFit(words: Words)
    requires words.Word? && !Fits(Values(words.init))
    ensures !Fits(Values(words))
  {
    assert forall i :: 0 <= i < |Values(words.init)| ==> Values(words)[i] == Values(words.init)[i];
  }

  /** Every spelling of a token list within the limits reads back as that list, and beyond them is refused. */
  lemma {:induction false} SpellingsReadBack(line: Line)
    requires LineOk(line) && |LineText(line)| <= MAX_SLASH_INPUT_CHARS && Printable(LineText(line))
    ensures Fits(Values(line.words)) ==> Lex(LineText(line)) == Command(Values(line.words))
    ensures !Fits(Values(line.words)) ==> Lex(LineText(line)).Refused?
  {
    var words, tail := line.words, line.tail;
    assert LineText(line)[1..] == WordsText(words) + tail;
    RunConcat(START, WordsText(words), tail);
    RunWords(words);
    var s := Run(START, WordsText(words));
    if s.Stopped? {
      StoppedStays(s, tail);
      FewerFit(words);
    } else {
      FinishedWords(words);
      RunGap(s, tail);
    }
  }

  // ---- Nothing else reads as a command ----

  datatype Opened = Opened(mark: Unit, inner: Inner)

  /** How a text cut off anywhere reads. */
  datatype Parse = Parse(words: Words, gap: Units, parts: Parts, open: Option<Opened>, escaping: bool)

  predicate Begun(p: Parse) {
    p.parts != NoParts || p.open.Some? || p.escaping
  }

  function OpenText(open: Option<Opened>): Units {
    match open
    case None => []
    case Some(o) => [o.mark] + InnerText(o.inner)
  }

  function OpenValue(open: Option<Opened>): Units {
    match open
    case None => []
    case Some(o) => InnerValue(o.inner)
  }

  function EscapeText(escaping: bool): Units {
    if escaping then [ESCAPE] else []
  }

  function ParseText(p: Parse): Units {
    WordsText(p.words) + p.gap + PartsText(p.parts) + OpenText(p.open) + EscapeText(p.escaping)
  }

  predicate ParseOk(p: Parse) {
    && WordsOk(p.words) && Spaces(p.gap) && (p.words.Word? ==> p.gap != []) && PartsOk(p.parts)
    && (p.open.Some? ==> IsQuote(p.open.value.mark) && InnerOk(p.open.value.mark, p.open.value.inner))
  }

  function StateOf(p: Parse): State {
    Lexing(Values(p.words), PartsValue(p.parts) + OpenValue(p.open), Begun(p),
           if p.open.Some? then Some(p.open.value.mark) else None, p.escaping)
  }

  function ParseNext(p: Parse, c: Unit): Parse {
    match p.open
    case Some(o) =>
      if p.escaping then p.(open := Some(Opened(o.mark, After(o.inner, c))), escaping := false)
      else if c == ESCAPE then p.(escaping := true)
      else if c == o.mark then p.(parts := Quoted(p.parts, o.mark, o.inner), open := None)
      else p.(open := Some(Opened(o.mark, AsIs(o.inner, c))))
    case None =>
      if p.escaping then p.(parts := Escaped(p.parts, c), escaping := false)
      else if c == ESCAPE then p.(escaping := true)
      else if IsQuote(c) then p.(open := Some(Opened(c, NoInner)))
      else if !IsSpace(c) then p.(parts := Plain(p.parts, c))
      else if p.parts == NoParts then p.(gap := p.gap + [c])
      else Parse(Word(p.words, p.gap, p.parts), [c], NoParts, None, false)
  }

  lemma {:induction false} ParseNextOk(p: Parse, c: Unit)
    requires ParseOk(p)
    ensures ParseOk(ParseNext(p, c))
  {
  }

  lemma {:induction false} Joined(a: Units, b: Units, c: Units)
    ensures a + (b + c) == a + b + c && a + [] == a
  {
  }

  lemma {:induction false} QuotedNext(p: Parse, c: Unit)
    requires p.open.Some?
    ensures ParseText(ParseNext(p, c)) == ParseText(p) + [c]
  {
    var o, q := p.open.value, ParseNext(p, c);
    var b, w, t := WordsText(p.words) + p.gap, PartsText(p.parts), OpenText(p.open);
    if p.escaping {
      assert OpenText(q.open) == t + [ESCAPE] + [c] by { Joined([o.mark], InnerText(o.inner), [ESCAPE, c]); }
      Joined(b + w, t + [ESCAPE], [c]);
      Joined(b + w, t, [ESCAPE]);
      Joined(b + w + OpenText(q.open), [], []);
    } else if c == ESCAPE {
      Joined(b + w + t, [], []);
    } else if c == o.mark {
      assert PartsText(q.parts) == w + t + [c] by { Joined(w, [c], InnerText(o.inner)); }
      Joined(b, w + t, [c]);
      Joined(b, w, t);
      Joined(b + PartsText(q.parts), [], []);
      Joined(b + w + t, [], []);
    } else {
      assert OpenText(q.open) == t + [c] by { Joined([o.mark], InnerText(o.inner), [c]); }
      Joined(b + w, t, [c]);
      Joined(b + w + t, [], []);
      Joined(b + w + OpenText(q.open), [], []);
    }
  }

  lemma {:induction false} UnquotedNext(p: Parse, c: Unit)
    requires p.open.None?
    ensures ParseText(ParseNext(p, c)) == ParseText(p) + [c]
  {
    var b, w, q := WordsText(p.words) + p.gap, PartsText(p.parts), ParseNext(p, c);
    Joined(b + w, [], []);
    if p.escaping {
      assert PartsText(q.parts) == w + [ESCAPE] + [c];
      Joined(b, w + [ESCAPE], [c]);
      Joined(b, w, [ESCAPE]);
      Joined(b + PartsText(q.parts), [], []);
    } else if c == ESCAPE {
    } else if IsQuote(c) {
      assert OpenText(q.open) == [c];
      Joined(b + w + [c], [], []);
    } else if !IsSpace(c) {
      Joined(b, w, [c]);
      Joined(b + PartsText(q.parts), [], []);
    } else if p.parts == NoParts {
      Joined(WordsText(p.words), p.gap, [c]);
      Joined(b, [], []);
      Joined(b + [c], [], []);
    } else {
      Joined(b + w + [c], [], []);
    }
  }

  lemma {:induction false} ParseNextState(p: Parse, c: Unit)
    requires Next(StateOf(p), c).Lexing?
    ensures StateOf(ParseNext(p, c)) == Next(StateOf(p), c)
  {
    var v, q := PartsValue(p.parts), ParseNext(p, c);
    match p.open
    case Some(o) =>
      assert v + (InnerValue(o.inner) + [c]) == v + InnerValue(o.inner) + [c];
      assert v + InnerValue(o.inner) + [] == v + InnerValue(o.inner);
    case None =>
      assert v + [] == v;
      assert v + [c] + [] == v + [c];
      if IsSpace(c) && !p.escaping && p.parts != NoParts { assert Values(q.words) == Values(p.words) + [v]; }
  }

  /** A text that the lexer does not stop on has a reading, and the lexer's state is that reading's. */
  lemma {:induction false} Reading(text: Units) returns (p: Parse)
    requires Run(START, text).Lexing?
    ensures ParseOk(p) && ParseText(p) == text && StateOf(p) == Run(START, text)
  {
    if text == [] {
      p := Parse(NoWords, [], NoParts, None, false);
    } else {
      var init, last := text[..|text| - 1], text[|text| - 1];
      var before := Reading(init);
      ParseNextOk(before, last);
      if before.open.Some? { QuotedNext(before, last); } else { UnquotedNext(before, last); }
      ParseNextState(before, last);
      p := ParseNext(before, last);
      assert text == init + [last];
    }
  }

  /** A reading with nothing left open, as a line. */
  function LineOf(p: Parse): Line {
    if p.parts == NoParts then Line(p.words, p.gap) else Line(Word(p.words, p.gap, p.parts), [])
  }

  lemma {:induction false} LineOfText(p: Parse)
    requires p.open.None? && !p.escaping
    ensures LineText(LineOf(p)) == [SLASH] + ParseText(p)
  {
    var b, w := WordsText(p.words), PartsText(p.parts);
    Joined(b + p.gap + w, [], []);
    if p.parts == NoParts {
      Joined([SLASH], b, p.gap);
      Joined(b + p.gap, [], []);
    } else {
      Joined([SLASH], b + p.gap + w, []);
      Joined([SLASH] + (b + p.gap + w), [], []);
    }
  }

  lemma {:induction false} LineOfValues(p: Parse)
    requires p.open.None? && !p.escaping && Finish(StateOf(p)).Lexing?
    ensures Values(LineOf(p).words) == Finish(StateOf(p)).tokens
  {
    Joined(PartsValue(p.parts), [], []);
  }

  lemma {:induction false} CommandIsSpelled(input: Units) returns (line: Line)
    requires Lex(input).Command?
    ensures LineOk(line) && LineText(line) == input && Values(line.words) == Lex(input).tokens
    ensures |input| <= MAX_SLASH_INPUT_CHARS && Printable(input)
  {
    var p := Reading(input[1..]);
    line := LineOf(p);
    LineOfText(p);
    LineOfValues(p);
    assert [SLASH] + input[1..] == input;
  }

  ghost predicate Spells(line: Line, input: Units, tokens: seq<Units>) {
    LineOk(line) && LineText(line) == input && Values(line.words) == tokens
  }

  /** The inputs that are a command of given tokens, exactly: the spellings of those tokens within every limit. */
  lemma {:induction false} LexedExactly(input: Units, tokens: seq<Units>)
    ensures Lex(input) == Command(tokens) <==>
            && |input| <= MAX_SLASH_INPUT_CHARS && Printable(input) && Fits(tokens)
            && exists line :: Spells(line, input, tokens)
  {
    if Lex(input) == Command(tokens) {
      var line := CommandIsSpelled(input);
      SpellingsReadBack(line);
      assert Spells(line, input, tokens);
    } else if |input| <= MAX_SLASH_INPUT_CHARS && Printable(input) && Fits(tokens) {
      forall line | Spells(line, input, tokens) ensures false { SpellingsReadBack(line); }
    }
  }

  // ---- Every list of tokens has a spelling ----

  /** The first `n` characters, each that is the quote or a backslash after a backslash. */
  function Guarded(mark: Unit, token: Units, n: nat): Inner
    requires n <= |token|
  {
    if n == 0 then NoInner
    else if token[n - 1] == mark || token[n - 1] == ESCAPE then After(Guarded(mark, token, n - 1), token[n - 1])
    else AsIs(Guarded(mark, token, n - 1), token[n - 1])
  }

  function QuotedWord(mark: Unit, token: Units): Parts {
    Quoted(NoParts, mark, Guarded(mark, token, |token|))
  }

  /** The first `n` tokens, each in quotes, after one space each but the first. */
  function QuotedWords(mark: Unit, tokens: seq<Units>, n: nat): Words
    requires n <= |tokens|
  {
    if n == 0 then NoWords
    else Word(QuotedWords(mark, tokens, n - 1), if n == 1 then [] else [SPACE], QuotedWord(mark, tokens[n - 1]))
  }

  function QuotedLine(mark: Unit, tokens: seq<Units>): Line {
    Line(QuotedWords(mark, tokens, |tokens|), [])
  }

  lemma {:induction false} GuardedOk(mark: Unit, token: Units, n: nat)
    requires IsQuote(mark) && n <= |token|
    ensures InnerOk(mark, Guarded(mark, token, n)) && InnerValue(Guarded(mark, token, n)) == token[..n]
  {
    if n > 0 {
      GuardedOk(mark, token, n - 1);
      assert token[..n] == token[..n - 1] + [token[n - 1]];
    }
  }

  lemma {:induction false} QuotedWordOk(mark: Unit, token: Units)
    requires IsQuote(mark)
    ensures PartsOk(QuotedWord(mark, token)) && PartsValue(QuotedWord(mark, token)) == token
  {
    GuardedOk(mark, token, |token|);
    assert [] + token[..|token|] == token;
  }

  lemma {:induction false} QuotedWordsOk(mark: Unit, tokens: seq<Units>, n: nat)
    requires IsQuote(mark) && n <= |tokens|
    ensures WordsOk(QuotedWords(mark, tokens, n)) && Values(QuotedWords(mark, tokens, n)) == tokens[..n]
  {
    if n > 0 {
      var word := QuotedWord(mark, tokens[n - 1]);
      QuotedWordsOk(mark, tokens, n - 1);
      assert word != NoParts && PartsOk(word) && PartsValue(word) == tokens[n - 1] by {
        QuotedWordOk(mark, tokens[n - 1]);
      }
      WordsGrow(QuotedWords(mark, tokens, n), tokens[..n - 1], tokens[n - 1]);
      assert tokens[..n] == tokens[..n - 1] + [tokens[n - 1]];
    }
  }

  lemma {:induction false} WordsGrow(words: Words, values: seq<Units>, value: Units)
    requires words.Word? && WordsOk(words.init) && Spaces(words.gap) && (words.init.Word? ==> words.gap != [])
    requires words.parts != NoParts && PartsOk(words.parts)
    requires Values(words.init) == values && PartsValue(words.parts) == value
    ensures WordsOk(words) && Values(words) == values + [value]
  {
  }

  /**
   * Quoting each of any tokens, in either quote, escaping what needs it, and joining them with
   * spaces after a slash reads back as exactly those tokens.
   */
  lemma {:induction false} QuotedRoundTrip(mark: Unit, tokens: seq<Units>)
    requires IsQuote(mark) && Fits(tokens)
    requires |LineText(QuotedLine(mark, tokens))| <= MAX_SLASH_INPUT_CHARS
             && Printable(LineText(QuotedLine(mark, tokens)))
    ensures Lex(LineText(QuotedLine(mark, tokens))) == Command(tokens)
  {
    QuotedWordsOk(mark, tokens, |tokens|);
    assert tokens[..|tokens|] == tokens;
    SpellingsReadBack(QuotedLine(mark, tokens));
  }
}
