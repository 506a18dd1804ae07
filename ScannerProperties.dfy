/** What a scan computes, stated over the functions of module Scanner. */
module ScannerProperties {
  import opened Ast
  import opened Scanner

  /** Scanning the empty source gives exactly one EOF token, on line 1. */
  lemma EmptySourceGivesEof(parse: string -> Option<real>)
    ensures Scan("", parse) == Done(ScanState([Token(Eof, "", NilLit, 1)], 0, 0, 1, []))
  {
  }

  /** A completed scan ends with exactly one EOF token, which carries the
      final line; no earlier token is an EOF token. */
  lemma ScanEndsWithSingleEof(src: string, parse: string -> Option<real>)
    ensures var r := Scan(src, parse);
      r.Done? ==>
        && |r.st.tokens| >= 1
        && r.st.tokens[|r.st.tokens| - 1] == Token(Eof, "", NilLit, r.st.line)
        && forall k :: 0 <= k < |r.st.tokens| - 1 ==> r.st.tokens[k].kind != Eof
  {
    var loop := ScanLoop(src, parse, InitialState);
    if loop.Done? {
      assert Scan(src, parse).st.tokens == loop.st.tokens + [Token(Eof, "", NilLit, loop.st.line)];
    }
  }

  /** `!`, `=`, `<` and `>` give the two-character token exactly when the
      next character is `=`, and then consume both characters. */
  lemma OperatorTakesEqualsGreedily(src: string, parse: string -> Option<real>, st: ScanState)
    requires st.start == st.current < |src|
    requires OperatorPair(src[st.current]).Some?
    ensures var r := ScanTokenSpec(src, parse, st);
      var (single, double) := OperatorPair(src[st.current]).value;
      var two := st.current + 1 < |src| && src[st.current + 1] == '=';
      && r.st.current == (if two then st.current + 2 else st.current + 1)
      && (r.Done? ==> r.st.tokens == st.tokens + [Token(if two then double else single,
                                                         src[st.start..st.start + r.st.current], NilLit, st.line)])
  {
  }

  /** Each of `(){},.-+;*` is a whole token on its own: one character is
      consumed and one token of the matching kind is added, or the lexeme's
      `Substring` crashes. */
  lemma SingleCharacterIsOneToken(src: string, parse: string -> Option<real>, st: ScanState)
    requires st.start == st.current < |src|
    requires src[st.current] in "(){},.-+;*"
    ensures var r := ScanTokenSpec(src, parse, st);
      var kind := SingleCharToken(src[st.current]);
      && kind.Some?
      && r.st.current == st.current + 1 && r.st.line == st.line && r.st.reports == st.reports
      && (r.Done? <==> st.start + st.current + 1 <= |src|)
      && (r.Done? ==> r.st.tokens == st.tokens + [Token(kind.value, src[st.start..st.start + st.current + 1], NilLit, st.line)])
      && (r.Crashed? ==> r.crash == SubstringOutOfRange(st.start, st.current + 1) && r.st.tokens == st.tokens)
  {
  }

  /** Blanks produce no token; a newline produces no token and bumps the line. */
  lemma WhitespaceProducesNoToken(src: string, parse: string -> Option<real>, st: ScanState)
    requires st.start == st.current < |src|
    requires IsBlank(src[st.current]) || src[st.current] == '\n'
    ensures ScanTokenSpec(src, parse, st) ==
      Done(st.(current := st.current + 1, line := if src[st.current] == '\n' then st.line + 1 else st.line))
  {
  }

  /** A `//` comment runs to the end of the source, not to the end of the
      line, when the source holds no NUL character: nothing after it is
      scanned, so its newlines are not counted either. */
  lemma CommentConsumesRestOfSource(src: string, parse: string -> Option<real>, st: ScanState)
    requires st.current + 1 < |src| && src[st.current] == '/' && src[st.current + 1] == '/'
    requires forall k :: st.current <= k < |src| ==> src[k] != '\0'
    ensures ScanLoop(src, parse, st) == Done(st.(start := st.current, current := |src|))
  {
    var st0 := st.(start := st.current);
    assert ScanTokenSpec(src, parse, st0) == Done(st0.(current := |src|));
  }

  /** `src[i..r]` is a number literal as the grammar of Lox defines one,
      and the longest at `i`: a leading digit, digits and at most one `.`,
      every `.` followed by a digit inside the literal, no digit after it,
      and, when it has no `.`, no `.` and digit after it either. */
  ghost predicate LongestNumeral(src: string, i: nat, r: nat)
  {
    && i < r <= |src| && IsDigit(src[i])
    && (forall k :: i <= k < r ==> IsDigit(src[k]) || src[k] == '.')
    && (forall j, k :: i <= j < r && i <= k < r && src[j] == '.' && src[k] == '.' ==> j == k)
    && (forall k :: i <= k < r && src[k] == '.' ==> k + 1 < r && IsDigit(src[k + 1]))
    && !IsDigit(Peek(src, r))
    && ((forall k :: i <= k < r ==> src[k] != '.') ==> !(Peek(src, r) == '.' && IsDigit(PeekNext(src, r))))
  }

  /** `DigitsEnd` is the first position whose lookahead is not a digit. */
  lemma {:induction false} DigitsEndIsFirstNonDigit(src: string, i: nat, r: nat)
    requires i <= r <= |src| && !IsDigit(Peek(src, r))
    requires forall k :: i <= k < r ==> IsDigit(src[k])
    ensures DigitsEnd(src, i) == r
    decreases r - i
  {
    if i < r {
      DigitsEndIsFirstNonDigit(src, i + 1, r);
    }
  }

  /** Where `Number` stops is the end of the longest number literal that
      starts at the first digit. */
  lemma NumberEndIsLongestNumeral(src: string, i: nat)
    requires i < |src| && IsDigit(src[i])
    ensures LongestNumeral(src, i, NumberEnd(src, i + 1))
  {
    var d := DigitsEnd(src, i + 1);
    var r := NumberEnd(src, i + 1);
    if Peek(src, d) == '.' && IsDigit(PeekNext(src, d)) {
      assert r == DigitsEnd(src, d + 1) && d + 1 < r;
      assert forall k :: i <= k < r && src[k] == '.' ==> k == d;
    } else {
      assert r == d;
      assert forall k :: i <= k < r ==> IsDigit(src[k]);
    }
  }

  /** Conversely, only one end makes a longest number literal: the scanner
      takes no more and no less than the literal. */
  lemma LongestNumeralIsUnique(src: string, i: nat, r: nat)
    requires LongestNumeral(src, i, r)
    ensures r == NumberEnd(src, i + 1)
  {
    if p :| i <= p < r && src[p] == '.' {
      assert forall k :: i + 1 <= k < p ==> IsDigit(src[k]);
      DigitsEndIsFirstNonDigit(src, i + 1, p);
      assert forall k :: p + 1 <= k < r ==> IsDigit(src[k]);
      DigitsEndIsFirstNonDigit(src, p + 1, r);
    } else {
      DigitsEndIsFirstNonDigit(src, i + 1, r);
    }
  }

  /** A token that starts with a digit is the number that `NumberSpec`
      scans after that digit, and it ends at the end of the longest number
      literal there; `NumberSpec` states its value and its crashes. */
  lemma NumberIsMaximalMunch(src: string, parse: string -> Option<real>, st: ScanState)
    requires st.start == st.current < |src| && IsDigit(src[st.current])
    ensures ScanTokenSpec(src, parse, st) == NumberSpec(src, parse, st.(current := st.current + 1))
    ensures ScanTokenSpec(src, parse, st).st.current == NumberEnd(src, st.current + 1)
    ensures LongestNumeral(src, st.current, NumberEnd(src, st.current + 1))
  {
    var c := src[st.current];
    assert SingleCharToken(c).None? && OperatorPair(c).None? && !IsBlank(c);
    assert c != '/' && c != '\n' && c != '"';
    NumberEndIsLongestNumeral(src, st.current);
  }

  /** In `12.` the `.` is not part of the number: the number token ends
      before it and the `.` is left for the next token. */
  lemma TrailingDotIsNotFraction(parse: string -> Option<real>)
    requires parse("12") == Some(12.0)
    ensures ScanTokenSpec("12.", parse, InitialState)
         == Done(ScanState([Token(Number, "12", NumLit(12.0), 1)], 2, 0, 1, []))
  {
    assert DigitsEnd("12.", 1) == 2 by {
      assert DigitsEnd("12.", 2) == 2;
    }
    assert NumberEnd("12.", 1) == 2;
    assert "12."[0..2] == "12";
  }

  /** Any character the switch of `ScanToken` does not name, letters
      included, is reported as unexpected on the current line and produces
      no token. */
  lemma OtherCharacterIsReported(src: string, parse: string -> Option<real>, st: ScanState)
    requires st.start == st.current < |src|
    requires src[st.current] !in "(){},.-+;*!=<>/\" \t\r\n" && !IsDigit(src[st.current])
    ensures ScanTokenSpec(src, parse, st)
         == Done(st.(current := st.current + 1, reports := st.reports + [LineReport(st.line, "Unexpected character")]))
  {
  }

  /** The lexeme is `Substring(start, current)`: when it is in range it is
      `src[start..start+current]`, which is the scanned text
      `src[start..current]` only for a token that starts at offset 0. */
  lemma LexemeIsScannedTextOnlyAtOffsetZero(src: string, st: ScanState, kind: TokenType)
    requires st.start < st.current <= |src|
    requires AddTokenSpec(src, st, kind, NilLit).Done?
    ensures var lexeme := AddTokenSpec(src, st, kind, NilLit).st.tokens[|st.tokens|].lexeme;
      lexeme == src[st.start..st.current] <==> st.start == 0
  {
    var lexeme := AddTokenSpec(src, st, kind, NilLit).st.tokens[|st.tokens|].lexeme;
    assert |lexeme| == st.current;
  }

  /** The second one-character token of `((` asks for `Substring(1, 2)` of a
      two-character string: the scan crashes. */
  lemma SecondTokenOverrunsSource(parse: string -> Option<real>)
    ensures Scan("((", parse)
         == Crashed(SubstringOutOfRange(1, 2), ScanState([Token(LeftParen, "(", NilLit, 1)], 2, 1, 1, []))
  {
    var s1 := ScanState([Token(LeftParen, "(", NilLit, 1)], 1, 0, 1, []);
    assert "(("[0..1] == "(";
    assert ScanTokenSpec("((", parse, InitialState) == Done(s1);
    assert ScanTokenSpec("((", parse, s1.(start := 1)) == Crashed(SubstringOutOfRange(1, 2), s1.(start := 1, current := 2));
  }

  /** An unterminated string is reported on its line, and the `Advance` that
      follows indexes past the end of the source. */
  lemma UnterminatedStringCrashes(parse: string -> Option<real>)
    ensures Scan("\"ab", parse)
         == Crashed(IndexOutOfRange(3), ScanState([], 3, 0, 1, [LineReport(1, "Unterminated string")]))
  {
    assert StringLoop("\"ab", 3, 1) == (3, 1);
    assert StringLoop("\"ab", 2, 1) == (3, 1);
    assert StringLoop("\"ab", 1, 1) == (3, 1);
  }

  /** A string literal's value is `Substring(start + 1, current - 1)`, which
      keeps the closing quote even for a string at offset 0. */
  lemma StringValueKeepsClosingQuote(parse: string -> Option<real>)
    ensures Scan("\"ab\"", parse)
         == Done(ScanState([Token(String, "\"ab\"", StrLit("ab\""), 1), Token(Eof, "", NilLit, 1)], 4, 0, 1, []))
  {
    var src := "\"ab\"";
    var s := ScanState([Token(String, src, StrLit("ab\""), 1)], 4, 0, 1, []);
    QuotedAbIsOneToken(parse);
    assert ScanLoop(src, parse, s) == Done(s);
    assert ScanLoop(src, parse, InitialState) == Done(s);
  }

  /** The first (and only) token of `"ab"`. */
  lemma QuotedAbIsOneToken(parse: string -> Option<real>)
    ensures ScanTokenSpec("\"ab\"", parse, InitialState)
         == Done(ScanState([Token(String, "\"ab\"", StrLit("ab\""), 1)], 4, 0, 1, []))
  {
    assert SingleCharToken('"').None? && OperatorPair('"').None? && !IsBlank('"');
    QuotedAbString();
  }

  /** `String` after the opening quote of `"ab"`. */
  lemma QuotedAbString()
    ensures StringSpec("\"ab\"", InitialState.(current := 1))
         == Done(ScanState([Token(String, "\"ab\"", StrLit("ab\""), 1)], 4, 0, 1, []))
  {
    var src := "\"ab\"";
    assert StringLoop(src, 3, 1) == (3, 1);
    assert StringLoop(src, 2, 1) == (3, 1);
    assert StringLoop(src, 1, 1) == (3, 1);
    assert src[1..4] == "ab\"";
    assert Substring(src, 1, 3) == Ok("ab\"");
    assert src[0..4] == src;
  }

  /** Whatever the source, a string literal's value begins with the quoted
      text but is as long as the closing quote's offset, so it is never the
      quoted text itself; at offset 0 it is the quoted text and the closing
      quote. */
  lemma StringValueOverrunsQuotedText(src: string, st: ScanState)
    requires st.current == st.start + 1 && st.current <= |src|
    ensures var (e, l) := StringLoop(src, st.current, st.line);
      var r := StringSpec(src, st);
      r.Done? ==>
        && e < |src| && src[e] == '"'
        && r.st.tokens[|st.tokens|].literal.StrLit?
        && var v := r.st.tokens[|st.tokens|].literal.s;
        && |v| == e
        && v[..e - st.current] == src[st.current..e]
        && v != src[st.current..e]
        && (st.start == 0 ==> v == src[1..e] + "\"")
  {
    var (e, l) := StringLoop(src, st.current, st.line);
    var r := StringSpec(src, st);
    if r.Done? {
      var v := src[st.start + 1..st.start + 1 + e];
      assert r.st.tokens[|st.tokens|].literal == StrLit(v);
      assert v[..e - st.current] == src[st.current..e];
      if st.start == 0 {
        assert v == src[1..e] + [src[e]];
      }
    }
  }

  function CountNewlines(s: string): nat
  {
    if s == [] then 0 else (if s[0] == '\n' then 1 else 0) + CountNewlines(s[1..])
  }

  /** Inside a string literal every newline adds one to the line counter. */
  lemma {:induction false} StringCountsNewlines(src: string, current: nat, line: int)
    requires current <= |src|
    ensures var (end, endLine) := StringLoop(src, current, line);
      endLine == line + CountNewlines(src[current..end])
    decreases |src| - current
  {
    var (end, endLine) := StringLoop(src, current, line);
    if Peek(src, current) != '"' && !IsAtEnd(src, current) {
      StringCountsNewlines(src, current + 1, if src[current] == '\n' then line + 1 else line);
      assert src[current..end][1..] == src[current + 1..end];
    }
  }
}
