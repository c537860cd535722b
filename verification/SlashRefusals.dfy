/** Why the slash lexer refuses a line, told by what can be read of it (src/commands/parser.ts:31-103). */
module SlashRefusals {
  import opened Utf16
  import opened Messages
  import opened SlashLexer

  /** `p` spells the line: whole words, then the one it stands in, if any. */
  predicate Reads(p: Parse, line: Units) {
    ParseOk(p) && [SLASH] + ParseText(p) == line && Fits(Values(p.words))
  }

  // ---- What has been read decides the state ----

  lemma {:induction false} RunBeforeWord(p: Parse)
    requires ParseOk(p) && Fits(Values(p.words))
    ensures Run(START, WordsText(p.words) + p.gap) == Lexing(Values(p.words), [], false, None, false)
  {
    if p.words.Word? {
      InitFits(p.words);
      FinishedWords(p.words);
    }
    RunWords(p.words);
    RunConcat(START, WordsText(p.words), p.gap);
    RunGap(AfterWords(p.words), p.gap);
  }

  lemma {:induction false} InitFits(words: Words)
    requires words.Word? && Fits(Values(words))
    ensures Fits(Values(words.init))
  {
    assert forall i :: 0 <= i < |Values(words.init)| ==> Values(words)[i] == Values(words.init)[i];
  }

  /** The state inside the word, without the escape. */
  lemma {:induction false} RunOpen(tokens: seq<Units>, parts: Parts, open: Option<Opened>)
    requires PartsOk(parts) && (open.Some? ==> IsQuote(open.value.mark) && InnerOk(open.value.mark, open.value.inner))
    ensures Run(Lexing(tokens, [], false, None, false), PartsText(parts) + OpenText(open))
         == Lexing(tokens, PartsValue(parts) + OpenValue(open), parts != NoParts || open.Some?,
                   if open.Some? then Some(open.value.mark) else None, false)
  {
    var s := Lexing(tokens, [], false, None, false);
    RunParts(tokens, parts);
    match open
    case None =>
      assert PartsText(parts) + [] == PartsText(parts) && PartsValue(parts) + [] == PartsValue(parts);
    case Some(o) =>
      RunConcat(s, PartsText(parts), [o.mark] + InnerText(o.inner));
      RunConcat(Run(s, PartsText(parts)), [o.mark], InnerText(o.inner));
      RunOne(Run(s, PartsText(parts)), [], o.mark);
      assert [] + [o.mark] == [o.mark];
      RunInner(tokens, PartsValue(parts), o.mark, o.inner);
  }

  lemma {:induction false} InThree(a: Units, b: Units, c: Units, d: Units, e: Units)
    ensures a + b + c + d + e == (a + b) + (c + d) + e
  {
  }

  lemma {:induction false} RunThrough(before: Units, word: Units, from: State, s: State)
    requires Run(START, before) == from && Run(from, word) == s
    ensures Run(START, before + word) == s
  {
    RunConcat(START, before, word);
  }

  lemma {:induction false} RunEscape(text: Units, s: State, escaping: bool)
    requires Run(START, text) == s && s.Lexing? && !s.escaping
    ensures Run(START, text + EscapeText(escaping))
         == if escaping then Lexing(s.tokens, s.token, true, s.quote, true) else s
  {
    if escaping { RunOne(START, text, ESCAPE); } else { assert text + [] == text; }
  }

  lemma {:induction false} RunParse(p: Parse)
    requires ParseOk(p) && Fits(Values(p.words))
    ensures Run(START, ParseText(p)) == StateOf(p)
  {
    var before, word := WordsText(p.words) + p.gap, PartsText(p.parts) + OpenText(p.open);
    var from := Lexing(Values(p.words), [], false, None, false);
    var s := Lexing(Values(p.words), PartsValue(p.parts) + OpenValue(p.open), p.parts != NoParts || p.open.Some?,
                    if p.open.Some? then Some(p.open.value.mark) else None, false);
    RunBeforeWord(p);
    RunOpen(Values(p.words), p.parts, p.open);
    RunThrough(before, word, from, s);
    RunEscape(before + word, s, p.escaping);
    InThree(WordsText(p.words), p.gap, PartsText(p.parts), OpenText(p.open), EscapeText(p.escaping));
  }

  lemma {:induction false} RunRead(p: Parse, line: Units)
    requires Reads(p, line)
    ensures Run(START, line[1..]) == StateOf(p)
  {
    assert line[1..] == ParseText(p);
    RunParse(p);
  }

  lemma {:induction false} TokensFit(text: Units)
    requires Run(START, text).Lexing?
    ensures Fits(Run(START, text).tokens)
  {
    if text != [] { TokensFit(text[..|text| - 1]); }
  }

  lemma {:induction false} ReadingOf(line: Units) returns (p: Parse)
    requires line != [] && line[0] == SLASH && Run(START, line[1..]).Lexing?
    ensures Reads(p, line) && StateOf(p) == Run(START, line[1..])
  {
    p := Reading(line[1..]);
    TokensFit(line[1..]);
    assert [SLASH] + line[1..] == line;
  }

  // ---- Where the lexer stops ----

  lemma {:induction false} FirstStop(text: Units) returns (n: nat)
    requires Run(START, text).Stopped?
    ensures n < |text| && Run(START, text[..n]).Lexing? && Next(Run(START, text[..n]), text[n]) == Run(START, text)
  {
    var init := text[..|text| - 1];
    if Run(START, init).Stopped? {
      n := FirstStop(init);
      assert init[..n] == text[..n];
    } else {
      n := |text| - 1;
    }
  }

  /** A word of the line ends at `n`, outside quotes, and all before it is within the limits. */
  predicate WordEnds(input: Units, n: nat, p: Parse) {
    && 0 < n <= |input| && Reads(p, input[..n]) && p.parts != NoParts && p.open.None? && !p.escaping
    && (n < |input| ==> IsSpace(input[n]))
  }

  predicate TooLongAt(input: Units, n: nat, p: Parse) {
    WordEnds(input, n, p) && |PartsValue(p.parts)| > MAX_SLASH_TOKEN_CHARS
  }

  predicate TooManyAt(input: Units, n: nat, p: Parse) {
    WordEnds(input, n, p) && |PartsValue(p.parts)| <= MAX_SLASH_TOKEN_CHARS && |Values(p.words)| == MAX_SLASH_TOKENS
  }

  predicate Dangling(input: Units, p: Parse) {
    Reads(p, input) && p.escaping
  }

  predicate Unterminated(input: Units, p: Parse) {
    Reads(p, input) && !p.escaping && p.open.Some?
  }

  /** A line that reaches the lexer's loop. */
  predicate Lexable(input: Units) {
    input != [] && input[0] == SLASH && |input| <= MAX_SLASH_INPUT_CHARS && Printable(input)
  }

  lemma {:induction false} WordEndsStop(input: Units, n: nat, p: Parse)
    requires Lexable(input) && WordEnds(input, n, p)
    ensures TooLongAt(input, n, p) ==> Lex(input) == Refused(TokenTooLarge)
    ensures TooManyAt(input, n, p) ==> Lex(input) == Refused(TooManyTokens)
  {
    RunRead(p, input[..n]);
    assert PartsValue(p.parts) + [] == PartsValue(p.parts);
    assert input[..n][1..] == input[1..n];
    var stop := Finish(StateOf(p));
    if n == |input| {
      assert input[..n] == input;
    } else if stop.Stopped? {
      assert input[1..n + 1] == input[1..n] + [input[n]];
      RunOne(START, input[1..n], input[n]);
      Refuses(input, n + 1, stop.code);
    }
  }

  lemma {:induction false} OpenEndStops(input: Units, p: Parse)
    requires Lexable(input)
    ensures Dangling(input, p) ==> Lex(input) == Refused(DanglingEscape)
    ensures Unterminated(input, p) ==> Lex(input) == Refused(UnterminatedQuote)
  {
    if Reads(p, input) { RunRead(p, input); }
  }

  /** What a reading of the part of the input before `n` says of the refusal. */
  predicate Explains(input: Units, n: nat, p: Parse, code: Code) {
    match code
    case DanglingEscape => Dangling(input, p)
    case UnterminatedQuote => Unterminated(input, p)
    case TokenTooLarge => TooLongAt(input, n, p)
    case TooManyTokens => TooManyAt(input, n, p)
    case _ => false
  }

  lemma {:induction false} FinishStops(p: Parse)
    requires Finish(StateOf(p)).Stopped? && p.open.None? && !p.escaping && Fits(Values(p.words))
    ensures p.parts != NoParts
    ensures match Finish(StateOf(p)).code
            case TokenTooLarge => |PartsValue(p.parts)| > MAX_SLASH_TOKEN_CHARS
            case TooManyTokens =>
              |PartsValue(p.parts)| <= MAX_SLASH_TOKEN_CHARS && |Values(p.words)| == MAX_SLASH_TOKENS
            case _ => false
  {
    assert PartsValue(p.parts) + [] == PartsValue(p.parts);
  }

  lemma {:induction false} EndIsRead(input: Units) returns (p: Parse)
    requires Lexable(input) && Lex(input).Refused? && Run(START, input[1..]).Lexing?
    ensures Explains(input, |input|, p, Lex(input).code)
  {
    p := ReadingOf(input);
    assert input[..|input|] == input;
    if !p.escaping && p.open.None? { FinishStops(p); }
  }

  lemma {:induction false} MiddleIsRead(input: Units) returns (n: nat, p: Parse)
    requires Lexable(input) && Lex(input).Refused? && Run(START, input[1..]).Stopped?
    ensures Explains(input, n, p, Lex(input).code)
  {
    var text := input[1..];
    var k := FirstStop(text);
    n := k + 1;
    assert input[..n][1..] == text[..k] && input[n] == text[k];
    p := ReadingOf(input[..n]);
    FinishStops(p);
  }

  /** A reading of the input, or of the part of it before the lexer stops. */
  lemma {:induction false} StopIsRead(input: Units) returns (n: nat, p: Parse)
    requires Lexable(input) && Lex(input).Refused?
    ensures Explains(input, n, p, Lex(input).code)
  {
    if Run(START, input[1..]).Lexing? {
      n := |input|;
      p := EndIsRead(input);
    } else {
      n, p := MiddleIsRead(input);
    }
  }

  /**
   * Each refusal says what is wrong, exactly: a line that ends in the middle of an escape or of
   * a quote, or else the first word that ends too long or as one too many.
   */
  lemma {:induction false} RefusedExactly(input: Units)
    ensures Lex(input) == Chat(input) <==> input == [] || input[0] != SLASH
    ensures Lex(input) == Refused(InputTooLarge) <==>
              input != [] && input[0] == SLASH && |input| > MAX_SLASH_INPUT_CHARS
    ensures Lex(input) == Refused(InvalidControl) <==>
              && input != [] && input[0] == SLASH && |input| <= MAX_SLASH_INPUT_CHARS
              && exists i :: 0 <= i < |input| && UnsafeControl(input[i])
    ensures Lexable(input) ==> (Lex(input) == Refused(DanglingEscape) <==> exists p :: Dangling(input, p))
    ensures Lexable(input) ==> (Lex(input) == Refused(UnterminatedQuote) <==> exists p :: Unterminated(input, p))
    ensures Lexable(input) ==> (Lex(input) == Refused(TokenTooLarge) <==> exists n, p :: TooLongAt(input, n, p))
    ensures Lexable(input) ==> (Lex(input) == Refused(TooManyTokens) <==> exists n, p :: TooManyAt(input, n, p))
  {
    if Lexable(input) {
      forall p ensures Dangling(input, p) ==> Lex(input) == Refused(DanglingEscape) { OpenEndStops(input, p); }
      forall p ensures Unterminated(input, p) ==> Lex(input) == Refused(UnterminatedQuote) { OpenEndStops(input, p); }
      forall n, p | WordEnds(input, n, p)
        ensures TooLongAt(input, n, p) ==> Lex(input) == Refused(TokenTooLarge)
        ensures TooManyAt(input, n, p) ==> Lex(input) == Refused(TooManyTokens)
      {
        WordEndsStop(input, n, p);
      }
      if Lex(input).Refused? { var n, p := StopIsRead(input); }
    }
  }
}
